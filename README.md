# browser-bookmarks core, modelled in Dafny

This project models the core of the browser-bookmarks web application, a Vue/Pinia bookmark manager, and proves properties of that model. The core has five parts:

- **The bookmark repository** (`bookmark_store.dfy`, class `BookmarkRepository`). It holds two in-memory collections, the bookmarks and the categories (folders). It offers the derived queries, the add/update/delete actions, the cascade-safe category deletion, and the wholesale export/import.
- **The Netscape bookmark-file encoder** (`bookmark_exporter.dfy`, `html_escape.dfy`). It writes the `<!DOCTYPE NETSCAPE-Bookmark-file-1>` document. Folders are nested `<DT><H3>`/`<DL><p>` blocks and links are `<DT><A HREF>` lines. Every name, title and URL goes through the five-character HTML escaper.
- **The bookmark-file importer** (`bookmark_parser.dfy`). It walks a parsed document, modelled as an element tree, depth first. It creates one category per folder heading and one bookmark per link. It also has the substring test that recognises a bookmark file.
- **The theme store** (`theme_store.dfy`, class `ThemeState`). It holds the saved settings, merged over the defaults, and the displayed dark mode. That mode is driven by the user's toggles and by the system preference. It also covers the colour-scheme fallback and the `#rrggbb` parser.
- **The language store** (`language_store.dfy`, class `LanguageState`). It holds the current language, switching between `cn` and `en`, and the translation lookup that falls back to the key.

`bookmark_types.dfy` holds the two records, `Bookmark` and `Category`, and the two array filters that several parts share. `wrappers.dfy` holds `Option`.

Records that the source creates with `crypto.randomUUID()` and `Date.now()` get their id and timestamp from the caller instead:
- The repository's actions take `freshId` and `now` parameters.
- The importer draws from two supplies, `newId` and `clock`, indexed by the number of records created so far.
- The system dark-mode preference is a boolean parameter.
- Saved settings and saved languages are values handed to the constructors.

The importer walks every `DL` of the document as a top-level list, nested ones included. A document with one folder "Work" holding one link "Example", plus one top-level link, therefore imports three bookmarks: "Example" is imported a second time, into the default category (`BookmarkParser.NestedListImportedTwice`).

## Model

| member | source | states |
|---|---|---|
| BookmarkTypes.BookmarksIn | src/stores/bookmarkStore.ts:43-45 | the filter keeps exactly the bookmarks with that category id, and no more elements than the input |
| BookmarkTypes.BookmarksInAppend | src/utils/bookmarkExporter.ts:16-23 | filtering a concatenation is the concatenation of the filtered parts, so the filter keeps collection order |
| BookmarkTypes.ChildrenOf | src/stores/bookmarkStore.ts:51-53 | keeps exactly the categories whose parentId equals the given one (None is `null`), in collection order (`ChildrenOfAppend`) |
| BookmarkTypes.ChildrenOfAppend | src/stores/bookmarkStore.ts:51-53 | filtering a concatenation is the concatenation of the filtered parts, so the children keep the order of the category list |
| BookmarkTypes.ChildrenOfUnique | src/utils/bookmarkExporter.ts:50-52 | the children of one parent have pairwise distinct ids when the categories do |
| BookmarkStore.BookmarkIndex | src/stores/bookmarkStore.ts:93 | `findIndex`: -1 when no bookmark has the id, otherwise an index holding it with no earlier index holding it |
| BookmarkStore.CategoryIndex | src/stores/bookmarkStore.ts:125 | `findIndex` on categories: -1 when absent, otherwise the first index holding the id |
| BookmarkStore.FindCategory | src/stores/bookmarkStore.ts:47-49 | `find`: None exactly when no category has the id, otherwise a member of the list with that id |
| BookmarkStore.FallbackCategoryId | src/stores/bookmarkStore.ts:147 | `find(c => c.id !== id)?.id \|\| ''`: '' when every category has the deleted id; otherwise the id of a category, different from the deleted id |
| BookmarkStore.HasChildren | src/stores/bookmarkStore.ts:136 | `some(c => c.parentId === id)`; `DeleteCategory` refuses exactly when it holds or at most one category exists |
| BookmarkStore.ParentOf | src/stores/bookmarkStore.ts:62-64 | the category named by a set (non-null, non-empty) parentId: None when the parentId is unset or names no category, otherwise a member of the list with that id |
| BookmarkStore.OtherCategoryIndex | src/stores/bookmarkStore.ts:147 | the first index whose id differs from the deleted one, or -1 when every category has that id |
| BookmarkStore.RemoveAt | src/stores/bookmarkStore.ts:105 | `splice(i, 1)`: one element shorter, elements before `i` kept, elements after `i` shifted down by one |
| BookmarkStore.Reassigned | src/stores/bookmarkStore.ts:150-154 | same length; each bookmark filed under the deleted id now names the fallback, every other bookmark is unchanged |
| BookmarkStore.PatchBookmark | src/stores/bookmarkStore.ts:95 | `{ ...b, ...data }`: id and createdAt kept, each field present in the patch replaced, the others kept |
| BookmarkStore.PatchCategory | src/stores/bookmarkStore.ts:127 | the same for categories; a patch can set parentId to `null` |
| BookmarkStore.NewestFirst | src/stores/bookmarkStore.ts:38-40 | the sorted copy is a permutation of the bookmarks and is ordered by createdAt, newest first |
| BookmarkStore.NewestFirstStable | src/stores/bookmarkStore.ts:38-40 | the sort is stable: bookmarks with equal createdAt keep their stored relative order |
| BookmarkStore.CategoryPathLinks | src/stores/bookmarkStore.ts:56-72 | every element of a category path is a category; each element's parentId is the id of the one before it; the last element has the requested id |
| BookmarkStore.CategoryPathUnique | src/stores/bookmarkStore.ts:56-72 | there is only one category path for an id, so the walk's result is determined |
| BookmarkStore.Imported | src/stores/bookmarkStore.ts:175-195 | import succeeds exactly when both payload fields are arrays; bookmarks are taken as given; an empty category list gets one default category, a non-empty one is taken as given |
| BookmarkStore.ImportOfExport | src/stores/bookmarkStore.ts:168-195 | importing an export (which always has a category) installs exactly the exported collections |
| BookmarkStore.FallbackSurvives | src/stores/bookmarkStore.ts:147-163 | with unique ids and another category present, the fallback id differs from the deleted id and names a category that survives the removal |
| BookmarkStore.RemovalKeepsOthers | src/stores/bookmarkStore.ts:157-159 | with unique ids, removing the category keeps every category with another id and leaves none with the deleted id |
| BookmarkStore.DeleteCategoryLeavesNoDangling | src/stores/bookmarkStore.ts:134-165 | after a successful delete no bookmark and no category refers to the deleted id, and if every bookmark named an existing category before, every bookmark still does |
| BookmarkStore.DeleteAbsentCategoryStillMovesBookmarks | src/stores/bookmarkStore.ts:147-164 | when the id names no category but both guards pass, bookmarks filed under it are still moved, although the call reports false |
| BookmarkStore.BookmarkRepository.constructor | src/stores/bookmarkStore.ts:22-35 | the stored bookmarks and, when non-empty, the stored categories are kept; an empty category list becomes one `我的收藏` category with parentId `null`; the category list is non-empty |
| BookmarkStore.BookmarkRepository.GetAllBookmarks | src/stores/bookmarkStore.ts:37-40 | the listing is a permutation of the stored bookmarks, sorted newest first |
| BookmarkStore.BookmarkRepository.GetBookmarksByCategory | src/stores/bookmarkStore.ts:43-45 | exactly the stored bookmarks with that category id |
| BookmarkStore.BookmarkRepository.GetCategoryById | src/stores/bookmarkStore.ts:47-49 | None exactly when no category has the id, otherwise the first category with it |
| BookmarkStore.BookmarkRepository.GetChildCategories | src/stores/bookmarkStore.ts:51-53 | exactly the stored categories with that parentId, as `ChildrenOf` of the stored list, so in stored order (`ChildrenOfAppend`) |
| BookmarkStore.BookmarkRepository.GetCategoryPath | src/stores/bookmarkStore.ts:56-72 | `[]` for an unknown id; otherwise a root-first path ending at the category. Each step goes to the category named by a set (non-null, non-empty) parentId, and the path starts where that parentId is unset or names no category |
| BookmarkStore.BookmarkRepository.GetDefaultCategoryId | src/stores/bookmarkStore.ts:75-77 | the first category's id when there is one, '' otherwise |
| BookmarkStore.BookmarkRepository.AddBookmark | src/stores/bookmarkStore.ts:80-90 | appends exactly one bookmark with the given fields, the fresh id and the timestamp, and returns it; all earlier bookmarks and the categories are unchanged |
| BookmarkStore.BookmarkRepository.UpdateBookmark | src/stores/bookmarkStore.ts:92-100 | returns true exactly when some bookmark has the id; then only the first such bookmark is patched, otherwise nothing changes |
| BookmarkStore.BookmarkRepository.DeleteBookmark | src/stores/bookmarkStore.ts:102-110 | returns true exactly when some bookmark has the id; then the first such bookmark is removed and the others keep their order, otherwise nothing changes |
| BookmarkStore.BookmarkRepository.AddCategory | src/stores/bookmarkStore.ts:112-122 | appends exactly one category with the given fields, the fresh id and the timestamp; nothing else changes |
| BookmarkStore.BookmarkRepository.UpdateCategory | src/stores/bookmarkStore.ts:124-132 | returns true exactly when some category has the id; then only the first such category is patched, otherwise nothing changes |
| BookmarkStore.BookmarkRepository.DeleteCategory | src/stores/bookmarkStore.ts:134-165 | refuses, changing nothing, when a category has the id as parent or at most one category exists. Otherwise every bookmark under the id moves to the fallback; the call succeeds exactly when a category has the id, and then the first such category is removed. The category list stays non-empty |
| BookmarkStore.BookmarkRepository.ExportData | src/stores/bookmarkStore.ts:168-173 | the payload holds the two stored collections |
| BookmarkStore.BookmarkRepository.ImportData | src/stores/bookmarkStore.ts:175-195 | succeeds exactly when both fields are arrays and then installs `Imported` of the payload; otherwise changes nothing; the category list stays non-empty |
| HtmlEscape.ReplaceAll | src/utils/bookmarkExporter.ts:82 | a global single-character replace: the result holds no character outside the input or the replacement, and the pattern's own character is gone unless the replacement holds it; an input without the character comes back unchanged |
| HtmlEscape.EscapeHtml | src/utils/bookmarkExporter.ts:80-87 | the five global replaces in source order; `EscapeHtmlIsCharwise` shows it escapes character by character, `UnescapeEscape` that it loses nothing, `EscapeHtmlNoMarkup` that no markup character survives |
| HtmlEscape.EscapeHtmlNoMarkup | src/utils/bookmarkExporter.ts:80-87 | the escaped text holds no `<`, `>`, `"` or `'` |
| HtmlEscape.EscapeHtmlAppend | src/utils/bookmarkExporter.ts:81-86 | escaping a concatenation is the concatenation of the escapes |
| HtmlEscape.EscapeHtmlOne | src/utils/bookmarkExporter.ts:82-86 | on one character the five passes give exactly that character's entity (or the character itself), so `&` is replaced first and never escaped twice |
| HtmlEscape.EscapeHtmlIsCharwise | src/utils/bookmarkExporter.ts:80-87 | the chain of passes equals escaping each character on its own |
| HtmlEscape.AmpersandsOpenEntities | src/utils/bookmarkExporter.ts:80-87 | every `&` of the output begins one of `&amp;`, `&lt;`, `&gt;`, `&quot;`, `&#039;` |
| HtmlEscape.PlainTextUnchanged | src/utils/bookmarkExporter.ts:80-87 | text without the five special characters is returned unchanged |
| HtmlEscape.UnescapeEscape | src/utils/bookmarkExporter.ts:80-87 | decoding the five entities gives the input back: the escape loses nothing |
| BookmarkExporter.Group | src/utils/bookmarkExporter.ts:58 | `bookmarksByCategory.get(id) \|\| []` (also line 71); on the map `GroupByCategory` builds it is exactly the bookmarks filed under the id, in collection order |
| BookmarkExporter.GroupByCategory | src/utils/bookmarkExporter.ts:16-23 | each group is exactly the bookmarks with that category id, in collection order; no group is empty |
| BookmarkExporter.Indent | src/utils/bookmarkExporter.ts:45 | the indent at depth d is 4·(d+1) spaces |
| BookmarkExporter.RenderLine | src/utils/bookmarkExporter.ts:54-73 | the text of one line, as the template literals of lines 54-55, 60, 66 and 73 write it: a folder's `<DT><H3>` and `<DL><p>` lines, a link's `<DT><A HREF>` line, a folder's closing line, each at its indent with every field escaped; `OpenText` and `RenderLinkStep` show the methods append exactly this text |
| BookmarkExporter.LinkLines | src/utils/bookmarkExporter.ts:59-61 | one link line per bookmark, in order, all at the same depth, well nested |
| BookmarkExporter.ChildNotOnStack | src/utils/bookmarkExporter.ts:64 | with unique ids a child of the innermost open folder is not already open, and the set of unopened categories strictly shrinks, so the recursion terminates |
| BookmarkExporter.LevelLines | src/utils/bookmarkExporter.ts:50-75 | the lines of one level are well nested at its depth; every folder line is a category and every link line a bookmark of the input |
| BookmarkExporter.FoldersLines | src/utils/bookmarkExporter.ts:50-52 | the blocks of one level's child folders are well nested together and hold only categories and bookmarks of the input |
| BookmarkExporter.FolderBlock | src/utils/bookmarkExporter.ts:52-67 | a folder's block (opening, its bookmarks one level deeper, its sub-folders, closing) is well nested: it closes what it opens |
| BookmarkExporter.LevelRooted | src/utils/bookmarkExporter.ts:50-52 | every folder line of a level opens a folder whose parent chain reaches the top level; every link line lists a loose bookmark or one filed under such a folder |
| BookmarkExporter.UnrootedNotExported | src/utils/bookmarkExporter.ts:50-75 | a folder whose parent chain does not reach `null` is never emitted, and neither is a bookmark filed only under such folders (unless it is loose) |
| BookmarkExporter.ReachableFolderExported | src/utils/bookmarkExporter.ts:50-67 | every folder reachable from the top level is opened at its depth, and each of its bookmarks is listed one level deeper |
| BookmarkExporter.LooseBookmarksExported | src/utils/bookmarkExporter.ts:69-75 | every bookmark with categoryId '' is listed at the top level |
| BookmarkExporter.ChainUnique | src/utils/bookmarkExporter.ts:50-52 | with unique ids a folder has one ancestry chain: two chains from the top level ending at the same folder are equal |
| BookmarkExporter.LevelOpensOnce | src/utils/bookmarkExporter.ts:50-75 | no two folder lines of a level open the same folder, and each opened folder is reached through one of the level's child folders |
| BookmarkExporter.ExportOpensOnce | src/utils/bookmarkExporter.ts:40-75 | with unique ids the export opens each category at most once; with `ReachableFolderExported`, each folder reachable from the top level exactly once |
| BookmarkExporter.LinksHtml | src/utils/bookmarkExporter.ts:59-61 | the loop's text is the rendering of one link line per bookmark, in order |
| BookmarkExporter.FolderHtml | src/utils/bookmarkExporter.ts:52-67 | the text built for one folder is the rendering of its specified block |
| BookmarkExporter.GenerateBookmarkHtml | src/utils/bookmarkExporter.ts:40-78 | the text built for one level is the rendering of that level's specified lines |
| BookmarkExporter.ExportBookmarksToHtml | src/utils/bookmarkExporter.ts:8-38 | the document is the fixed preamble ending in `<DL><p>\n`, the rendered lines of the whole tree, then `\n</DL><p>` |
| BookmarkParser.SelectAll | src/utils/bookmarkParser.ts:71 | every match of `querySelectorAll` carries the tag |
| BookmarkParser.SelectFirst | src/utils/bookmarkParser.ts:61 | a match of `querySelector` carries the tag and is strictly smaller than the item, so the recursion into it terminates |
| BookmarkParser.Or | src/utils/bookmarkParser.ts:40 | `s \|\| fallback` (also line 48): the text when it is non-empty, the fallback when it is '' |
| BookmarkParser.Owner | src/utils/bookmarkParser.ts:42 | `parentId \|\| defaultCategory.id`: the enclosing folder's id, or the default category's id at the top level |
| BookmarkParser.Initial | src/utils/bookmarkParser.ts:18-24 | before the walk there is exactly one category, `导入的书签` with parentId `null`, and no bookmark |
| BookmarkParser.WalkItem | src/utils/bookmarkParser.ts:31-66 | one item only appends records, and every record it appends takes one id from the supply |
| BookmarkParser.WalkItemEffect | src/utils/bookmarkParser.ts:33-65 | an item other than a DT whose first element is A or H3 changes nothing. A link appends one bookmark: the next supply id, its text or `未命名书签` when the text is empty, `href` or '', the enclosing folder or the default category, and the next clock value. A heading appends, as the next category, one with the next supply id, its text or `未命名文件夹`, the enclosing folder, or `null`, as parent, and the next clock value |
| BookmarkParser.WalkItems | src/utils/bookmarkParser.ts:27-68 | walking a list only appends records, one supply id per record |
| BookmarkParser.WalkLists | src/utils/bookmarkParser.ts:71-72 | walking every DL as a top-level list only appends records, one supply id per record |
| BookmarkParser.Parse | src/utils/bookmarkParser.ts:9-75 | the first category of an import is the default category, created before any traversal |
| BookmarkParser.ProcessNode | src/utils/bookmarkParser.ts:27-68 | the loop with its recursion into a folder's first DL builds exactly the specified walk of the list |
| BookmarkParser.ParseBookmarksFromHtml | src/utils/bookmarkParser.ts:9-75 | the outer loop over every DL builds exactly the specified import |
| BookmarkParser.WalkItemsCoherent | src/utils/bookmarkParser.ts:27-68 | walking a list keeps the state coherent: fresh, pairwise distinct ids, bookmarks naming existing categories, parents earlier in the list |
| BookmarkParser.ParseCoherent | src/utils/bookmarkParser.ts:9-75 | with a non-repeating id supply, all ids of an import are distinct, every bookmark names an imported category, and every folder's parent is an earlier imported folder |
| BookmarkParser.ParseCounts | src/utils/bookmarkParser.ts:27-72 | an import has one category per heading visit plus the default one, and one bookmark per link visit, counting every DL of the document as a top-level list |
| BookmarkParser.NestedListImportedTwice | src/utils/bookmarkParser.ts:61-72 | for one folder holding one link plus one top-level link, the import has 2 categories and 3 bookmarks; the nested link appears under the folder and again under the default category |
| BookmarkParser.IsBookmarkHtmlFile | src/utils/bookmarkParser.ts:78-82 | the three `includes` tests joined by `\|\|`; `DoctypeSubsumed` reduces it to two, `ExportRecognised` shows every exported document passes |
| BookmarkParser.DoctypeSubsumed | src/utils/bookmarkParser.ts:78-82 | a text is recognised exactly when it contains `NETSCAPE-Bookmark-file-1`, or both `<DL>` and `<DT>`; the doctype test adds nothing |
| BookmarkParser.ExportRecognised | src/utils/bookmarkParser.ts:78-82 | every document the encoder writes is recognised as a bookmark file |
| ThemeStore.LoadSettings | src/stores/themeStore.ts:66-75 | with nothing stored (or a failure) the defaults; otherwise missing fields take their defaults |
| ThemeStore.LoadFillsMissing | src/stores/themeStore.ts:70 | each field absent from the stored object takes its default value; each field present wins over the default |
| ThemeStore.LoadAfterSave | src/stores/themeStore.ts:67-84 | loading what was saved gives the same settings back |
| ThemeStore.InitialDarkMode | src/stores/themeStore.ts:97 | the initial mode is the system's when following the system, otherwise the saved `darkMode` |
| ThemeStore.ReloadKeepsChoice | src/stores/themeStore.ts:94-97 | when not following the system, reloading the saved settings shows the mode that was saved |
| ThemeStore.AppliedScheme | src/stores/themeStore.ts:182-185 | the scheme used is always one of `ocean`, `sunset`, `forest`: the stored one when valid, otherwise `ocean` |
| ThemeStore.PairValue | src/stores/themeStore.ts:217-219 | `parseInt(pair, 16)` is below 256 and its two hex digits are its quotient and remainder by 16 |
| ThemeStore.HexToRgb | src/stores/themeStore.ts:214-221 | returns a colour exactly when the text is six hex digits (either case) with an optional leading `#`, and `null` otherwise; each component lies in 0..255 |
| ThemeStore.HexRoundTrip | src/stores/themeStore.ts:214-221 | every colour written as `#rrggbb` parses back to itself |
| ThemeStore.HexCanonical | src/stores/themeStore.ts:214-221 | parsing forgets only the optional `#` and the case of the digits |
| ThemeStore.ThemeState.constructor | src/stores/themeStore.ts:94-97 | the settings are the loaded ones and the mode is the initial mode; both invariants hold (the saved choice is shown when not following the system, the system mode when following it) |
| ThemeStore.ThemeState.OnSystemThemeChange | src/stores/themeStore.ts:101-106 | settings unchanged; the mode becomes the system's only while following the system; both invariants are kept |
| ThemeStore.ThemeState.ToggleDarkMode | src/stores/themeStore.ts:109-117 | the mode becomes the given value or its negation; `darkMode` is copied from it only when not following the system, so the saved choice is the one shown |
| ThemeStore.ThemeState.ToggleUseSystemTheme | src/stores/themeStore.ts:120-127 | `useSystemTheme` is set or flipped; turned on, the mode becomes the system's; turned off, the mode is kept and agrees with the saved choice only if it already did |
| ThemeStore.ThemeState.SetCustomWallpaper | src/stores/themeStore.ts:130-133 | only `customWallpaper` changes |
| ThemeStore.ThemeState.RemoveCustomWallpaper | src/stores/themeStore.ts:136-139 | only `customWallpaper` changes, to '' |
| ThemeStore.ThemeState.SetWallpaperPosition | src/stores/themeStore.ts:142-145 | only `wallpaperPosition` changes |
| ThemeStore.ThemeState.SetWallpaperBlur | src/stores/themeStore.ts:148-151 | only `wallpaperBlur` changes |
| ThemeStore.ThemeState.SetColorScheme | src/stores/themeStore.ts:154-157 | only `colorScheme` changes |
| ThemeStore.ThemeState.ActiveScheme | src/stores/themeStore.ts:182-185 | the scheme applied is one of the three, and the stored one when it is valid |
| LanguageStore.InitialLanguage | src/stores/languageStore.ts:11-19 | with nothing stored (or a failure) the language is `cn`, otherwise the stored one |
| LanguageStore.Toggled | src/stores/languageStore.ts:335 | the result is `en` exactly when the input is `cn`, and `cn` otherwise |
| LanguageStore.ToggleTwice | src/stores/languageStore.ts:334-337 | toggling twice from `cn` or `en` restores it |
| LanguageStore.ToggleFromUnsupported | src/stores/languageStore.ts:334-337 | from any other value one toggle gives `cn` and two give `en` |
| LanguageStore.LanguageState.constructor | src/stores/languageStore.ts:313 | the current language is the loaded one |
| LanguageStore.LanguageState.T | src/stores/languageStore.ts:316-324 | the current language's entry when present and non-empty, otherwise the key itself; the result is the key or such an entry |
| LanguageStore.LanguageState.SetLanguage | src/stores/languageStore.ts:327-331 | the current language becomes the given one and is saved |
| LanguageStore.LanguageState.ToggleLanguage | src/stores/languageStore.ts:334-337 | the current language becomes the toggled one and is saved |

## Left out

- Persistence is not modelled: `localStorage`, `JSON.parse`/`JSON.stringify` and the save helpers. Stored data enters as constructor arguments. Saves are implicit, except for the language store, whose `stored` field is the saved value.
- Stored values of the wrong JSON type are not modelled, for example a numeric colour scheme or a non-string language. Neither are extra fields in the stored theme object.
- `crypto.randomUUID()` and `Date.now()` are foreign. They become parameters in the repository and supplies in the importer. The importer's id-freshness results assume a non-repeating supply.
- DOM parsing (`DOMParser`, entity decoding by `textContent`, tag-name case) becomes an abstract element tree. `querySelectorAll` and `querySelector` are defined on that tree in document order.
- Vue/Pinia reactivity (`ref`, `computed`, `watch`, `defineStore`) is not modelled. Computed getters become functions, and watch-triggered saves are not separate steps.
- `applyTheme`'s DOM and CSS writes, `matchMedia`, and the `lang` attribute writes are not modelled. Only the colour-scheme fallback of `applyTheme` is. The system preference is a boolean parameter.
- The `colorSchemes` colour values are abstracted to the set of scheme names. The translation table is a parameter rather than a transcription.
- JavaScript object lookups also see inherited properties: `colorSchemes['constructor']` and `translations[lang]['toString']` are truthy. The model treats only the own keys as present.
- `wallpaperBlur` is an integer; a JavaScript number may be fractional.
- Object aliasing is not modelled:
  - `exportData` returns the live arrays.
  - `importData` pushes the default category into the caller's array.
  - `deleteCategory` mutates bookmark objects in place.
  - The model replaces sequence values instead.
- The unused `categoryMap` in the encoder and the importer is not modelled.
- `src/router/index.ts`, `src/utils/favicon.ts` and `src/stores/layoutStore.ts` are not part of this model.
- BookmarkStore.BookmarkRepository.GetCategoryPath: the source has no cycle guard. The method requires a ghost `bound` within which the parent walk ends; on a cyclic chain the source loops forever.
- BookmarkExporter.ExportBookmarksToHtml: requires unique category ids. Two categories sharing an id can make the source recurse forever: one is the parent of the other, and the inner one is listed again under itself.
- BookmarkExporter.GenerateBookmarkHtml: the `indent` argument is modelled by a depth, and the indent string is always `Indent(depth)`.
- BookmarkStore.PatchBookmark: the patch types exclude `id` and `createdAt`, as the TypeScript signature does. A runtime object carrying them would overwrite them in the source.
