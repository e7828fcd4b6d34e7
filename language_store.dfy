/**
  The language store (src/stores/languageStore.ts): the current language, its
  saved copy, switching between Chinese and English, and the translation
  lookup `t` that falls back to the key itself. The translation table is a
  parameter, not a transcription.
*/
module LanguageStore {
  import opened Wrappers

  /** `Language` ('cn' | 'en'); a string, since the saved value is not validated on load. */
  type Language = string

  const DefaultLanguage: Language := "cn"

  /** Per language, key to translated text. */
  type Translations = map<Language, map<string, string>>

  /**
    loadFromStorage: the saved language, or `cn`. None stands for nothing
    saved, an empty string, or a read or parse failure.
  */
  function InitialLanguage(stored: Option<Language>): (l: Language)
    ensures stored.None? ==> l == DefaultLanguage
    ensures stored.Some? ==> l == stored.value
  {
    stored.GetOr(DefaultLanguage)
  }

  /** toggleLanguage's choice: `cn` becomes `en`, anything else becomes `cn`. */
  function Toggled(l: Language): (r: Language)
    ensures r == "en" <==> l == "cn"
    ensures r != "en" ==> r == "cn"
  {
    if l == "cn" then "en" else "cn"
  }

  /** Toggling twice from either supported language comes back to it. */
  lemma ToggleTwice(l: Language)
    requires l == "cn" || l == "en"
    ensures Toggled(Toggled(l)) == l
  {
  }

  /** From an unsupported value, one toggle reaches `cn` and two reach `en`. */
  lemma ToggleFromUnsupported(l: Language)
    requires l != "cn" && l != "en"
    ensures Toggled(l) == "cn" && Toggled(Toggled(l)) == "en"
  {
  }

  /** The entry `t` would return: present and non-empty. */
  predicate HasEntry(table: Translations, lang: Language, key: string) {
    lang in table && key in table[lang] && table[lang][key] != ""
  }

  class LanguageState {
    var currentLanguage: Language
    /** What localStorage holds for the language (None before anything is saved). */
    var stored: Option<Language>
    const translations: Translations

    /** Store set-up from what was saved. */
    constructor (saved: Option<Language>, table: Translations)
      ensures currentLanguage == InitialLanguage(saved)
      ensures stored == saved && translations == table
    {
      currentLanguage := InitialLanguage(saved);
      stored := saved;
      translations := table;
    }

    /** t(key): the current language's non-empty entry, otherwise the key itself. */
    function T(key: string): (r: string)
      reads this
      ensures HasEntry(translations, currentLanguage, key) ==> r == translations[currentLanguage][key]
      ensures !HasEntry(translations, currentLanguage, key) ==> r == key
      ensures r == key || HasEntry(translations, currentLanguage, key)
    {
      var lang := currentLanguage;
      if lang in translations && key in translations[lang] && translations[lang][key] != "" then
        translations[lang][key]
      else
        key
    }

    /** setLanguage: switch and save. */
    method SetLanguage(lang: Language)
      modifies this
      ensures currentLanguage == lang
      ensures stored == Some(lang)
    {
      currentLanguage := lang;
      stored := Some(lang);
    }

    /** toggleLanguage: `cn` to `en`, anything else to `cn`, and save. */
    method ToggleLanguage()
      modifies this
      ensures currentLanguage == Toggled(old(currentLanguage))
      ensures stored == Some(currentLanguage)
    {
      SetLanguage(Toggled(currentLanguage));
    }
  }
}
