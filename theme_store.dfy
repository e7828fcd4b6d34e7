/**
  The theme store (src/stores/themeStore.ts): the saved theme settings merged
  over the defaults, the displayed dark mode driven by the user's toggles and
  by the system preference, the colour-scheme fallback of `applyTheme`, and the
  `#rrggbb` parser `hexToRgb`.
*/
module ThemeStore {
  import opened Wrappers

  // ---------------------------------------------------------------------------
  // Settings

  /**
    ThemeSettings. `wallpaperPosition` and `colorScheme` are kept as strings:
    stored settings are not validated on load, so any name can reach them.
  */
  datatype ThemeSettings = ThemeSettings(
    darkMode: bool,
    useSystemTheme: bool,
    customWallpaper: string,
    wallpaperPosition: string,
    wallpaperBlur: int,
    colorScheme: string)

  const DefaultSettings: ThemeSettings := ThemeSettings(false, true, "", "cover", 5, "ocean")

  /** The fields present in the saved JSON object; an absent field is None. */
  datatype StoredSettings = StoredSettings(
    darkMode: Option<bool>,
    useSystemTheme: Option<bool>,
    customWallpaper: Option<string>,
    wallpaperPosition: Option<string>,
    wallpaperBlur: Option<int>,
    colorScheme: Option<string>)

  /** What saving writes: every field of the settings. */
  function Saved(s: ThemeSettings): StoredSettings {
    StoredSettings(Some(s.darkMode), Some(s.useSystemTheme), Some(s.customWallpaper),
                   Some(s.wallpaperPosition), Some(s.wallpaperBlur), Some(s.colorScheme))
  }

  /**
    loadFromStorage: `{ ...defaultSettings, ...stored }`. None stands for
    nothing stored, an empty string, or a read or parse failure, all of which
    give the defaults.
  */
  function LoadSettings(stored: Option<StoredSettings>): (s: ThemeSettings)
    ensures stored.None? ==> s == DefaultSettings
    ensures stored.Some? && stored.value.colorScheme.None? ==> s.colorScheme == DefaultSettings.colorScheme
    ensures stored.Some? && stored.value.useSystemTheme.None? ==> s.useSystemTheme == DefaultSettings.useSystemTheme
  {
    match stored
    case None => DefaultSettings
    case Some(p) =>
      ThemeSettings(
        p.darkMode.GetOr(DefaultSettings.darkMode),
        p.useSystemTheme.GetOr(DefaultSettings.useSystemTheme),
        p.customWallpaper.GetOr(DefaultSettings.customWallpaper),
        p.wallpaperPosition.GetOr(DefaultSettings.wallpaperPosition),
        p.wallpaperBlur.GetOr(DefaultSettings.wallpaperBlur),
        p.colorScheme.GetOr(DefaultSettings.colorScheme))
  }

  /** A field missing from the saved object takes its default; a present one wins over it. */
  lemma LoadFillsMissing(p: StoredSettings)
    ensures var s := LoadSettings(Some(p));
      && (p.darkMode.None? ==> s.darkMode == DefaultSettings.darkMode)
      && (p.customWallpaper.None? ==> s.customWallpaper == DefaultSettings.customWallpaper)
      && (p.wallpaperPosition.None? ==> s.wallpaperPosition == DefaultSettings.wallpaperPosition)
      && (p.wallpaperBlur.None? ==> s.wallpaperBlur == DefaultSettings.wallpaperBlur)
      && (p.darkMode.Some? ==> s.darkMode == p.darkMode.value)
      && (p.useSystemTheme.Some? ==> s.useSystemTheme == p.useSystemTheme.value)
      && (p.customWallpaper.Some? ==> s.customWallpaper == p.customWallpaper.value)
      && (p.wallpaperPosition.Some? ==> s.wallpaperPosition == p.wallpaperPosition.value)
      && (p.wallpaperBlur.Some? ==> s.wallpaperBlur == p.wallpaperBlur.value)
      && (p.colorScheme.Some? ==> s.colorScheme == p.colorScheme.value)
  {
  }

  /** Saving then loading gives the same settings back (the watcher saves after every change). */
  lemma LoadAfterSave(s: ThemeSettings)
    ensures LoadSettings(Some(Saved(s))) == s
  {
  }

  /** The initial `isDarkMode`: the system preference when following it, else the saved choice. */
  function InitialDarkMode(s: ThemeSettings, systemDark: bool): (dark: bool)
    ensures s.useSystemTheme ==> dark == systemDark
    ensures !s.useSystemTheme ==> dark == s.darkMode
  {
    if s.useSystemTheme then systemDark else s.darkMode
  }

  /** When not following the system, a reload shows the mode that was saved with the settings. */
  lemma ReloadKeepsChoice(s: ThemeSettings, shown: bool, systemDark: bool)
    requires !s.useSystemTheme && shown == s.darkMode
    ensures InitialDarkMode(LoadSettings(Some(Saved(s))), systemDark) == shown
  {
    LoadAfterSave(s);
  }

  // ---------------------------------------------------------------------------
  // Colour schemes

  /** The keys of `colorSchemes`; the colour values themselves are not modelled. */
  const ColorSchemeNames: set<string> := {"ocean", "sunset", "forest"}

  /** applyTheme: an unknown scheme name falls back to `ocean`. */
  function AppliedScheme(scheme: string): (r: string)
    ensures r in ColorSchemeNames
    ensures scheme in ColorSchemeNames ==> r == scheme
    ensures scheme !in ColorSchemeNames ==> r == "ocean"
  {
    if scheme in ColorSchemeNames then scheme else "ocean"
  }

  // ---------------------------------------------------------------------------
  // hexToRgb

  datatype Rgb = Rgb(r: nat, g: nat, b: nat)

  /** `[a-f\d]` under the `i` flag. */
  predicate IsHexDigit(c: char) {
    ('0' <= c <= '9') || ('a' <= c <= 'f') || ('A' <= c <= 'F')
  }

  predicate AllHexDigits(s: string) {
    forall i :: 0 <= i < |s| ==> IsHexDigit(s[i])
  }

  /** `/^#?([a-f\d]{2})([a-f\d]{2})([a-f\d]{2})$/i`: six hex digits, optionally after one `#`. */
  predicate IsHexColor(s: string) {
    (|s| == 6 && AllHexDigits(s)) || (|s| == 7 && s[0] == '#' && AllHexDigits(s[1..]))
  }

  /** The digits after the optional `#`. */
  function Body(s: string): (d: string)
    ensures |d| <= |s|
  {
    if |s| > 0 && s[0] == '#' then s[1..] else s
  }

  /** parseInt of one hex digit, either case. */
  function DigitValue(c: char): (v: nat)
    requires IsHexDigit(c)
    ensures v < 16
  {
    if '0' <= c <= '9' then c as int - '0' as int
    else if 'a' <= c <= 'f' then c as int - 'a' as int + 10
    else c as int - 'A' as int + 10
  }

  /** parseInt(hi lo, 16) */
  function PairValue(hi: char, lo: char): (v: nat)
    requires IsHexDigit(hi) && IsHexDigit(lo)
    ensures v < 256
    ensures v / 16 == DigitValue(hi) && v % 16 == DigitValue(lo)
  {
    16 * DigitValue(hi) + DigitValue(lo)
  }

  /** hexToRgb: null (None) unless the whole string is a hex colour. */
  function HexToRgb(hex: string): (r: Option<Rgb>)
    ensures r.Some? <==> IsHexColor(hex)
    ensures r.Some? ==> r.value.r < 256 && r.value.g < 256 && r.value.b < 256
  {
    var d := Body(hex);
    if |d| == 6 && AllHexDigits(d) then
      Some(Rgb(PairValue(d[0], d[1]), PairValue(d[2], d[3]), PairValue(d[4], d[5])))
    else
      None
  }

  /** The lower-case digit of a value below 16. */
  function HexDigit(v: nat): (c: char)
    requires v < 16
    ensures IsHexDigit(c) && DigitValue(c) == v
  {
    "0123456789abcdef"[v]
  }

  /** Reference inverse of hexToRgb: `#rrggbb` in lower case. */
  function RgbToHex(c: Rgb): (s: string)
    requires c.r < 256 && c.g < 256 && c.b < 256
    ensures |s| == 7 && s[0] == '#'
  {
    "#" + [HexDigit(c.r / 16), HexDigit(c.r % 16), HexDigit(c.g / 16), HexDigit(c.g % 16),
           HexDigit(c.b / 16), HexDigit(c.b % 16)]
  }

  /** Every colour written as `#rrggbb` parses back to itself. */
  lemma HexRoundTrip(c: Rgb)
    requires c.r < 256 && c.g < 256 && c.b < 256
    ensures HexToRgb(RgbToHex(c)) == Some(c)
  {
    var s := RgbToHex(c);
    assert IsHexColor(s) by {
      assert forall i :: 0 <= i < 6 ==> IsHexDigit(s[1..][i]);
    }
  }

  /** A hex digit in lower case. */
  function LowerHex(c: char): (l: char)
    requires IsHexDigit(c)
    ensures IsHexDigit(l) && DigitValue(l) == DigitValue(c)
  {
    if 'A' <= c <= 'F' then (c as int - 'A' as int + 'a' as int) as char else c
  }

  /** Parsing forgets only the `#` and the case of the digits. */
  lemma HexCanonical(s: string)
    requires IsHexColor(s)
    ensures var d := Body(s);
      RgbToHex(HexToRgb(s).value)
        == "#" + [LowerHex(d[0]), LowerHex(d[1]), LowerHex(d[2]), LowerHex(d[3]), LowerHex(d[4]), LowerHex(d[5])]
  {
    var d := Body(s);
    assert |d| == 6 && AllHexDigits(d);
    forall c | IsHexDigit(c) ensures HexDigit(DigitValue(c)) == LowerHex(c) {
      DigitCanonical(c);
    }
  }

  lemma DigitCanonical(c: char)
    requires IsHexDigit(c)
    ensures HexDigit(DigitValue(c)) == LowerHex(c)
  {
    if '0' <= c <= '9' {
      assert "0123456789abcdef"[c as int - '0' as int] == c;
    } else if 'a' <= c <= 'f' {
      assert "0123456789abcdef"[c as int - 'a' as int + 10] == c;
    } else {
      assert "0123456789abcdef"[c as int - 'A' as int + 10] == LowerHex(c);
    }
  }

  // ---------------------------------------------------------------------------
  // The store

  class ThemeState {
    var settings: ThemeSettings
    var isDarkMode: bool

    /** When the user's own choice is in force, the displayed mode is the saved one. */
    ghost predicate KeepsChoice()
      reads this
    {
      !settings.useSystemTheme ==> isDarkMode == settings.darkMode
    }

    /** When following the system, the displayed mode is the system's. */
    ghost predicate FollowsSystem(systemDark: bool)
      reads this
    {
      settings.useSystemTheme ==> isDarkMode == systemDark
    }

    /** Store set-up: load the settings, then pick the initial mode. */
    constructor (stored: Option<StoredSettings>, systemDark: bool)
      ensures settings == LoadSettings(stored)
      ensures isDarkMode == InitialDarkMode(settings, systemDark)
      ensures KeepsChoice() && FollowsSystem(systemDark)
    {
      var loaded := LoadSettings(stored);
      settings := loaded;
      isDarkMode := InitialDarkMode(loaded, systemDark);
    }

    /** The `change` listener of the `prefers-color-scheme: dark` query. */
    method OnSystemThemeChange(matches: bool)
      modifies this
      ensures settings == old(settings)
      ensures isDarkMode == if settings.useSystemTheme then matches else old(isDarkMode)
      ensures FollowsSystem(matches)
      ensures old(KeepsChoice()) ==> KeepsChoice()
    {
      if settings.useSystemTheme {
        isDarkMode := matches;
      }
    }

    /** toggleDarkMode(value?): the saved choice follows only while the system is not followed. */
    method ToggleDarkMode(value: Option<bool>)
      modifies this
      ensures isDarkMode == if value.Some? then value.value else !old(isDarkMode)
      ensures settings == if old(settings).useSystemTheme then old(settings)
                          else old(settings).(darkMode := isDarkMode)
      ensures KeepsChoice()
    {
      isDarkMode := if value.Some? then value.value else !isDarkMode;
      if !settings.useSystemTheme {
        settings := settings.(darkMode := isDarkMode);
      }
    }

    /**
      toggleUseSystemTheme(value?). Turning it on shows the system mode; turning
      it off keeps the shown mode, which agrees with the saved choice only if it
      already did.
    */
    method ToggleUseSystemTheme(value: Option<bool>, systemDark: bool)
      modifies this
      ensures settings == old(settings).(useSystemTheme := if value.Some? then value.value
                                                           else !old(settings).useSystemTheme)
      ensures isDarkMode == if settings.useSystemTheme then systemDark else old(isDarkMode)
      ensures FollowsSystem(systemDark)
      ensures !settings.useSystemTheme ==> (KeepsChoice() <==> old(isDarkMode) == old(settings).darkMode)
    {
      settings := settings.(useSystemTheme := if value.Some? then value.value else !settings.useSystemTheme);
      if settings.useSystemTheme {
        isDarkMode := systemDark;
      }
    }

    method SetCustomWallpaper(imageData: string)
      modifies this
      ensures settings == old(settings).(customWallpaper := imageData)
      ensures isDarkMode == old(isDarkMode)
      ensures old(KeepsChoice()) ==> KeepsChoice()
    {
      settings := settings.(customWallpaper := imageData);
    }

    method RemoveCustomWallpaper()
      modifies this
      ensures settings == old(settings).(customWallpaper := "")
      ensures isDarkMode == old(isDarkMode)
      ensures old(KeepsChoice()) ==> KeepsChoice()
    {
      settings := settings.(customWallpaper := "");
    }

    method SetWallpaperPosition(position: string)
      modifies this
      ensures settings == old(settings).(wallpaperPosition := position)
      ensures isDarkMode == old(isDarkMode)
      ensures old(KeepsChoice()) ==> KeepsChoice()
    {
      settings := settings.(wallpaperPosition := position);
    }

    method SetWallpaperBlur(blur: int)
      modifies this
      ensures settings == old(settings).(wallpaperBlur := blur)
      ensures isDarkMode == old(isDarkMode)
      ensures old(KeepsChoice()) ==> KeepsChoice()
    {
      settings := settings.(wallpaperBlur := blur);
    }

    method SetColorScheme(scheme: string)
      modifies this
      ensures settings == old(settings).(colorScheme := scheme)
      ensures isDarkMode == old(isDarkMode)
      ensures old(KeepsChoice()) ==> KeepsChoice()
    {
      settings := settings.(colorScheme := scheme);
    }

    /** The scheme applyTheme paints with: always one of the three. */
    function ActiveScheme(): (r: string)
      reads this
      ensures r in ColorSchemeNames
      ensures settings.colorScheme in ColorSchemeNames ==> r == settings.colorScheme
    {
      AppliedScheme(settings.colorScheme)
    }
  }
}
