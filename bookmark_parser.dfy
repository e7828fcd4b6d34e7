/**
  The Netscape bookmark-file importer (src/utils/bookmarkParser.ts).

  The parsed document is an abstract element tree: each element has a tag
  name, its element children, its text content and its `href` attribute.
  `crypto.randomUUID()` and `Date.now()` are supplies indexed by a counter
  of created records: the n-th record created gets id `newId(n)` and
  timestamp `clock(n)`; the default category is record 0.

  The walk is specified by functions (`WalkItems`, `WalkItem`, `Parse`);
  `ProcessNode` and `ParseBookmarksFromHtml` build the same result with the
  source's loops and are proved equal to them. Proved about the walk: it
  only appends; the default category stays first; with distinct ids from
  the supply every category and bookmark id is distinct; every bookmark
  names an imported category and every folder's parent is an earlier
  folder; the import holds one category per folder heading visited (plus
  the default) and one bookmark per link visited. The source visits every
  DL of the document, nested ones included, so a nested folder's links are
  imported twice (`NestedListImportedTwice`).
*/
module BookmarkParser {
  import opened Wrappers
  import opened BookmarkTypes
  import BookmarkExporter

  const DefaultCategoryName: string := "导入的书签"
  const UntitledBookmark: string := "未命名书签"
  const UntitledFolder: string := "未命名文件夹"

  /** An element of the parsed document. */
  datatype Element = Element(tag: string, children: seq<Element>, text: string, href: Option<string>)

  function Size(e: Element): (r: nat)
    ensures r >= 1
  {
    1 + SizeOfAll(e.children)
  }

  function SizeOfAll(es: seq<Element>): nat {
    if |es| == 0 then 0 else Size(es[0]) + SizeOfAll(es[1..])
  }

  lemma {:induction false} SizeOfAllElement(es: seq<Element>, k: nat)
    requires k < |es|
    ensures Size(es[k]) <= SizeOfAll(es)
  {
    if k > 0 {
      SizeOfAllElement(es[1..], k - 1);
    }
  }

  lemma ChildSmaller(e: Element, k: nat)
    requires k < |e.children|
    ensures Size(e.children[k]) < Size(e)
  {
    SizeOfAllElement(e.children, k);
  }

  // ---------------------------------------------------------------------------
  // Selectors

  /** `e.querySelectorAll(tag)` together with `e` itself: the subtree in document order, filtered by tag. */
  function SelectAll(e: Element, tag: string): (r: seq<Element>)
    ensures forall x :: x in r ==> x.tag == tag
    decreases Size(e), 0
  {
    (if e.tag == tag then [e] else []) + SelectAllIn(e.children, tag)
  }

  function SelectAllIn(es: seq<Element>, tag: string): (r: seq<Element>)
    ensures forall x :: x in r ==> x.tag == tag
    decreases SizeOfAll(es), 1
  {
    if |es| == 0 then []
    else
      SizeOfAllElement(es, 0);
      SelectAll(es[0], tag) + SelectAllIn(es[1..], tag)
  }

  /** The first element with `tag` in the subtrees of `es`, in document order. */
  function SelectFirstIn(es: seq<Element>, tag: string): (r: Option<Element>)
    ensures r.Some? ==> r.value.tag == tag && Size(r.value) <= SizeOfAll(es)
    ensures r.None? <==> SelectAllIn(es, tag) == []
    ensures r.Some? ==> r.value == SelectAllIn(es, tag)[0]
    decreases SizeOfAll(es)
  {
    if |es| == 0 then None
    else if es[0].tag == tag then Some(es[0])
    else
      assert SizeOfAll(es) == 1 + SizeOfAll(es[0].children) + SizeOfAll(es[1..]);
      match SelectFirstIn(es[0].children, tag)
      case Some(x) => Some(x)
      case None => SelectFirstIn(es[1..], tag)
  }

  /** `e.querySelector(tag)`: the first proper descendant with `tag`, which is smaller than `e`. */
  function SelectFirst(e: Element, tag: string): (r: Option<Element>)
    ensures r.Some? ==> r.value.tag == tag && Size(r.value) < Size(e)
  {
    SelectFirstIn(e.children, tag)
  }

  // ---------------------------------------------------------------------------
  // The walk, as functions

  /** Records created so far; `minted` counts ids and timestamps taken from the supplies. */
  datatype Parsed = Parsed(bookmarks: seq<Bookmark>, categories: seq<Category>, minted: nat)

  /** `s || fallback` on strings: the empty string is falsy. */
  function Or(s: string, fallback: string): (r: string)
    ensures s != "" ==> r == s
    ensures s == "" ==> r == fallback
    ensures r != "" || fallback == ""
  {
    if s != "" then s else fallback
  }

  /** `parentId || defaultCategory.id`: null and '' are falsy. */
  function Owner(parent: Option<string>, defaultId: string): (r: string)
    ensures parent.Some? && parent.value != "" ==> r == parent.value
    ensures parent.None? || parent.value == "" ==> r == defaultId
  {
    match parent
    case Some(p) => if p != "" then p else defaultId
    case None => defaultId
  }

  /** The state before the walk: only the default category, record 0. */
  function Initial(newId: nat -> string, clock: nat -> int): (r: Parsed)
    ensures r.bookmarks == [] && r.minted == 1
    ensures r.categories == [Category(newId(0), DefaultCategoryName, None, clock(0))]
  {
    Parsed([], [Category(newId(0), DefaultCategoryName, None, clock(0))], 1)
  }

  /** `st` extends `before`: records are only appended and the counter only grows. */
  predicate Extends(before: Parsed, st: Parsed) {
    && before.bookmarks <= st.bookmarks
    && before.categories <= st.categories
    && before.minted <= st.minted
    && |st.bookmarks| - |before.bookmarks| + |st.categories| - |before.categories| == st.minted - before.minted
  }

  /** One child of a list: a DT holding a link or a folder heading; anything else is skipped. */
  function WalkItem(item: Element, parent: Option<string>, st: Parsed,
                    newId: nat -> string, clock: nat -> int): (r: Parsed)
    ensures Extends(st, r)
    decreases Size(item), 2, 0
  {
    if item.tag != "DT" || |item.children| == 0 then st
    else
      var first := item.children[0];
      var m := st.minted;
      if first.tag == "A" then
        var b := Bookmark(newId(m), Or(first.text, UntitledBookmark), first.href.GetOr(""),
                          Owner(parent, newId(0)), clock(m));
        Parsed(st.bookmarks + [b], st.categories, m + 1)
      else if first.tag == "H3" then
        var c := Category(newId(m), Or(first.text, UntitledFolder), parent, clock(m));
        var withFolder := Parsed(st.bookmarks, st.categories + [c], m + 1);
        match SelectFirst(item, "DL")
        case None => withFolder
        case Some(sub) => WalkItems(sub, |sub.children|, Some(newId(m)), withFolder, newId, clock)
      else st
  }

  /** The first `k` children of `node`, in order (processNode's loop after `k` rounds). */
  function WalkItems(node: Element, k: nat, parent: Option<string>, st: Parsed,
                     newId: nat -> string, clock: nat -> int): (r: Parsed)
    requires k <= |node.children|
    ensures Extends(st, r)
    decreases Size(node), 0, k
  {
    if k == 0 then st
    else
      ChildSmaller(node, k - 1);
      WalkItem(node.children[k - 1], parent, WalkItems(node, k - 1, parent, st, newId, clock), newId, clock)
  }

  /** The first `k` lists of `lists`, each walked as a top-level list. */
  function WalkLists(lists: seq<Element>, k: nat, st: Parsed, newId: nat -> string, clock: nat -> int): (r: Parsed)
    requires k <= |lists|
    ensures Extends(st, r)
  {
    if k == 0 then st
    else
      var l := lists[k - 1];
      WalkItems(l, |l.children|, None, WalkLists(lists, k - 1, st, newId, clock), newId, clock)
  }

  /** parseBookmarksFromHtml: every DL of the document, in document order, walked with no parent. */
  function Parse(doc: Element, newId: nat -> string, clock: nat -> int): (r: Parsed)
    ensures |r.categories| >= 1
    ensures r.categories[0] == Category(newId(0), DefaultCategoryName, None, clock(0))
  {
    var lists := SelectAll(doc, "DL");
    WalkLists(lists, |lists|, Initial(newId, clock), newId, clock)
  }

  // ---------------------------------------------------------------------------
  // The walk, as the source's loops

  /** processNode: the loop over `node.children`, recursing into a folder's first DL. */
  method ProcessNode(node: Element, parentId: Option<string>, st: Parsed, newId: nat -> string, clock: nat -> int)
    returns (out: Parsed)
    ensures out == WalkItems(node, |node.children|, parentId, st, newId, clock)
    decreases Size(node)
  {
    out := st;
    var items := node.children;
    for i := 0 to |items|
      invariant out == WalkItems(node, i, parentId, st, newId, clock)
    {
      var item := items[i];
      ChildSmaller(node, i);
      ghost var before := out;
      assert WalkItems(node, i + 1, parentId, st, newId, clock) == WalkItem(item, parentId, before, newId, clock);
      if item.tag == "DT" && |item.children| > 0 {
        var linkOrFolder := item.children[0];
        if linkOrFolder.tag == "A" {
          var bookmark := Bookmark(newId(out.minted), Or(linkOrFolder.text, UntitledBookmark),
                                   linkOrFolder.href.GetOr(""), Owner(parentId, newId(0)), clock(out.minted));
          out := Parsed(out.bookmarks + [bookmark], out.categories, out.minted + 1);
        } else if linkOrFolder.tag == "H3" {
          FolderStep(item, parentId, before, newId, clock);
          var categoryName := Or(linkOrFolder.text, UntitledFolder);
          var categoryId := newId(out.minted);
          var category := Category(categoryId, categoryName, parentId, clock(out.minted));
          out := Parsed(out.bookmarks, out.categories + [category], out.minted + 1);
          var subList := SelectFirst(item, "DL");
          if subList.Some? {
            out := ProcessNode(subList.value, Some(categoryId), out, newId, clock);
          }
        }
      }
    }
  }

  /** parseBookmarksFromHtml: the default category, then every DL of the document walked as a top-level list. */
  method ParseBookmarksFromHtml(doc: Element, newId: nat -> string, clock: nat -> int)
    returns (bookmarks: seq<Bookmark>, categories: seq<Category>)
    ensures bookmarks == Parse(doc, newId, clock).bookmarks
    ensures categories == Parse(doc, newId, clock).categories
  {
    var st := Initial(newId, clock);
    var bookmarkLists := SelectAll(doc, "DL");
    for k := 0 to |bookmarkLists|
      invariant st == WalkLists(bookmarkLists, k, Initial(newId, clock), newId, clock)
    {
      var list := bookmarkLists[k];
      st := ProcessNode(list, None, st, newId, clock);
    }
    bookmarks, categories := st.bookmarks, st.categories;
  }

  // ---------------------------------------------------------------------------
  // Properties of the walk

  /** The id supply never repeats itself (what `crypto.randomUUID` is relied upon for). */
  ghost predicate Injective(newId: nat -> string) {
    forall i: nat, j: nat :: i != j ==> newId(i) != newId(j)
  }

  /** `x` was taken from the supply before the counter reached `m`. */
  ghost predicate TakenBefore(x: string, m: nat, newId: nat -> string) {
    exists k: nat :: k < m && newId(k) == x
  }

  /**
    Every record's id came from the supply, ids are pairwise distinct, every
    bookmark names a category present in the state, and every folder's
    parent is absent or an earlier folder of the state.
  */
  ghost predicate Coherent(st: Parsed, newId: nat -> string) {
    && (forall c :: c in st.categories ==> TakenBefore(c.id, st.minted, newId))
    && (forall b :: b in st.bookmarks ==> TakenBefore(b.id, st.minted, newId))
    && UniqueIds(st.categories)
    && (forall i, j :: 0 <= i < j < |st.bookmarks| ==> st.bookmarks[i].id != st.bookmarks[j].id)
    && (forall b, c :: b in st.bookmarks && c in st.categories ==> b.id != c.id)
    && st.categories != [] && st.categories[0].id == newId(0)
    && (forall b :: b in st.bookmarks ==> HasCategory(st.categories, b.categoryId))
    && (forall i :: 0 <= i < |st.categories| ==> ParentEarlier(st.categories, i))
  }

  /** Some category of `cs` has id `id`. */
  ghost predicate HasCategory(cs: seq<Category>, id: string) {
    exists c :: c in cs && c.id == id
  }

  /** The parent of folder `i`, if any, is one of the folders before it. */
  ghost predicate ParentEarlier(cs: seq<Category>, i: nat)
    requires i < |cs|
  {
    cs[i].parentId.Some? ==> exists j :: 0 <= j < i && cs[j].id == cs[i].parentId.value
  }

  /** The parent handed to a walk is absent or an existing folder. */
  ghost predicate ParentKnown(st: Parsed, parent: Option<string>) {
    parent.None? || HasCategory(st.categories, parent.value)
  }

  lemma FreshNotTaken(st: Parsed, newId: nat -> string)
    requires Injective(newId) && Coherent(st, newId)
    ensures forall c :: c in st.categories ==> c.id != newId(st.minted)
    ensures forall b :: b in st.bookmarks ==> b.id != newId(st.minted)
  {
    forall c | c in st.categories ensures c.id != newId(st.minted) {
      var k: nat :| k < st.minted && newId(k) == c.id;
    }
    forall b | b in st.bookmarks ensures b.id != newId(st.minted) {
      var k: nat :| k < st.minted && newId(k) == b.id;
    }
  }

  lemma AddBookmarkCoherent(st: Parsed, b: Bookmark, newId: nat -> string)
    requires Injective(newId) && Coherent(st, newId)
    requires b.id == newId(st.minted)
    requires HasCategory(st.categories, b.categoryId)
    ensures Coherent(Parsed(st.bookmarks + [b], st.categories, st.minted + 1), newId)
  {
    FreshNotTaken(st, newId);
    var r := Parsed(st.bookmarks + [b], st.categories, st.minted + 1);
    assert TakenBefore(b.id, r.minted, newId);
    forall c | c in r.categories ensures TakenBefore(c.id, r.minted, newId) {
      var k: nat :| k < st.minted && newId(k) == c.id;
    }
    forall x | x in r.bookmarks ensures TakenBefore(x.id, r.minted, newId) {
      if x != b {
        var k: nat :| k < st.minted && newId(k) == x.id;
      }
    }
  }

  lemma AddCategoryCoherent(st: Parsed, c: Category, newId: nat -> string)
    requires Injective(newId) && Coherent(st, newId)
    requires c.id == newId(st.minted) && ParentKnown(st, c.parentId)
    ensures Coherent(Parsed(st.bookmarks, st.categories + [c], st.minted + 1), newId)
    ensures ParentKnown(Parsed(st.bookmarks, st.categories + [c], st.minted + 1), Some(c.id))
  {
    FreshNotTaken(st, newId);
    var r := Parsed(st.bookmarks, st.categories + [c], st.minted + 1);
    assert c in r.categories;
    assert TakenBefore(c.id, r.minted, newId);
    forall x | x in r.categories ensures TakenBefore(x.id, r.minted, newId) {
      if x != c {
        var k: nat :| k < st.minted && newId(k) == x.id;
      }
    }
    forall x | x in r.bookmarks ensures TakenBefore(x.id, r.minted, newId) {
      var k: nat :| k < st.minted && newId(k) == x.id;
    }
    forall i, j | 0 <= i < j < |r.categories| ensures r.categories[i].id != r.categories[j].id {
      if j == |st.categories| {
        assert r.categories[i] in st.categories;
      }
    }
    forall x | x in r.bookmarks ensures HasCategory(r.categories, x.categoryId) {
      var y :| y in st.categories && y.id == x.categoryId;
      assert y in r.categories;
    }
    forall i | 0 <= i < |r.categories| ensures ParentEarlier(r.categories, i) {
      if r.categories[i].parentId.None? {
      } else if i == |st.categories| {
        var y :| y in st.categories && y.id == c.parentId.value;
        var j :| 0 <= j < |st.categories| && st.categories[j] == y;
        assert r.categories[j] == y;
      } else {
        assert ParentEarlier(st.categories, i);
        var j :| 0 <= j < i && st.categories[j].id == st.categories[i].parentId.value;
        assert r.categories[j] == st.categories[j];
      }
    }
  }

  /** Extending keeps every known parent known. */
  lemma ExtendsKeepsParent(before: Parsed, st: Parsed, parent: Option<string>)
    requires Extends(before, st) && ParentKnown(before, parent)
    ensures ParentKnown(st, parent)
  {
    if parent.Some? {
      var c :| c in before.categories && c.id == parent.value;
      var i :| 0 <= i < |before.categories| && before.categories[i] == c;
      assert st.categories[i] == c;
    }
  }

  /** The category a link is filed under exists: the known parent, or the default category. */
  lemma OwnerKnown(st: Parsed, parent: Option<string>, newId: nat -> string)
    requires Coherent(st, newId) && ParentKnown(st, parent)
    ensures HasCategory(st.categories, Owner(parent, newId(0)))
  {
    assert st.categories[0] in st.categories;
  }

  /** A link item files one fresh bookmark under a category that exists. */
  lemma WalkLinkCoherent(item: Element, parent: Option<string>, st: Parsed,
                         newId: nat -> string, clock: nat -> int)
    requires Injective(newId) && Coherent(st, newId) && ParentKnown(st, parent)
    requires item.tag == "DT" && |item.children| > 0 && item.children[0].tag == "A"
    ensures Coherent(WalkItem(item, parent, st, newId, clock), newId)
  {
    var first := item.children[0];
    var m := st.minted;
    var b := Bookmark(newId(m), Or(first.text, UntitledBookmark), first.href.GetOr(""),
                      Owner(parent, newId(0)), clock(m));
    OwnerKnown(st, parent, newId);
    AddBookmarkCoherent(st, b, newId);
    assert WalkItem(item, parent, st, newId, clock) == Parsed(st.bookmarks + [b], st.categories, m + 1);
  }

  /** The state after a folder item, with the folder's category added. */
  lemma FolderStep(item: Element, parent: Option<string>, st: Parsed, newId: nat -> string, clock: nat -> int)
    requires item.tag == "DT" && |item.children| > 0 && item.children[0].tag == "H3"
    ensures var c := Category(newId(st.minted), Or(item.children[0].text, UntitledFolder), parent, clock(st.minted));
            var withFolder := Parsed(st.bookmarks, st.categories + [c], st.minted + 1);
            WalkItem(item, parent, st, newId, clock)
              == match SelectFirst(item, "DL")
                 case None => withFolder
                 case Some(sub) => WalkItems(sub, |sub.children|, Some(newId(st.minted)), withFolder, newId, clock)
  {
  }

  /** A folder item adds one fresh category, then walks its list with that category as parent. */
  lemma {:induction false} WalkFolderCoherent(item: Element, parent: Option<string>, st: Parsed,
                                              newId: nat -> string, clock: nat -> int)
    requires Injective(newId) && Coherent(st, newId) && ParentKnown(st, parent)
    requires item.tag == "DT" && |item.children| > 0 && item.children[0].tag == "H3"
    ensures Coherent(WalkItem(item, parent, st, newId, clock), newId)
    decreases Size(item), 1, 0
  {
    var m := st.minted;
    var c := Category(newId(m), Or(item.children[0].text, UntitledFolder), parent, clock(m));
    var withFolder := Parsed(st.bookmarks, st.categories + [c], m + 1);
    FolderStep(item, parent, st, newId, clock);
    AddCategoryCoherent(st, c, newId);
    var r := WalkItem(item, parent, st, newId, clock);
    match SelectFirst(item, "DL")
    case None =>
      assert r == withFolder;
    case Some(sub) =>
      assert r == WalkItems(sub, |sub.children|, Some(newId(m)), withFolder, newId, clock);
      WalkItemsCoherent(sub, |sub.children|, Some(newId(m)), withFolder, newId, clock);
  }

  lemma {:induction false} WalkItemCoherent(item: Element, parent: Option<string>, st: Parsed,
                                            newId: nat -> string, clock: nat -> int)
    requires Injective(newId) && Coherent(st, newId) && ParentKnown(st, parent)
    ensures Coherent(WalkItem(item, parent, st, newId, clock), newId)
    decreases Size(item), 2, 0
  {
    if item.tag == "DT" && |item.children| > 0 && item.children[0].tag == "A" {
      WalkLinkCoherent(item, parent, st, newId, clock);
    } else if item.tag == "DT" && |item.children| > 0 && item.children[0].tag == "H3" {
      WalkFolderCoherent(item, parent, st, newId, clock);
    } else {
      assert WalkItem(item, parent, st, newId, clock) == st;
    }
  }

  lemma {:induction false} WalkItemsCoherent(node: Element, k: nat, parent: Option<string>, st: Parsed,
                                             newId: nat -> string, clock: nat -> int)
    requires k <= |node.children|
    requires Injective(newId) && Coherent(st, newId) && ParentKnown(st, parent)
    ensures Coherent(WalkItems(node, k, parent, st, newId, clock), newId)
    decreases Size(node), 0, k
  {
    if k > 0 {
      ChildSmaller(node, k - 1);
      var before := WalkItems(node, k - 1, parent, st, newId, clock);
      WalkItemsCoherent(node, k - 1, parent, st, newId, clock);
      ExtendsKeepsParent(st, before, parent);
      WalkItemCoherent(node.children[k - 1], parent, before, newId, clock);
    }
  }

  lemma {:induction false} WalkListsCoherent(lists: seq<Element>, k: nat, st: Parsed,
                                             newId: nat -> string, clock: nat -> int)
    requires k <= |lists|
    requires Injective(newId) && Coherent(st, newId)
    ensures Coherent(WalkLists(lists, k, st, newId, clock), newId)
  {
    if k > 0 {
      var l := lists[k - 1];
      WalkListsCoherent(lists, k - 1, st, newId, clock);
      WalkItemsCoherent(l, |l.children|, None, WalkLists(lists, k - 1, st, newId, clock), newId, clock);
    }
  }

  /**
    With a supply that never repeats, an import has pairwise distinct ids
    (so the encoder can export it), every bookmark names an imported
    category, and every folder's parent is an earlier imported folder.
  */
  lemma ParseCoherent(doc: Element, newId: nat -> string, clock: nat -> int)
    requires Injective(newId)
    ensures Coherent(Parse(doc, newId, clock), newId)
    ensures UniqueIds(Parse(doc, newId, clock).categories)
  {
    var init := Initial(newId, clock);
    assert TakenBefore(newId(0), 1, newId);
    assert Coherent(init, newId);
    var lists := SelectAll(doc, "DL");
    WalkListsCoherent(lists, |lists|, init, newId, clock);
  }

  /**
    What one list item contributes: nothing unless it is a DT whose first
    element is a link or a folder heading; a link adds one bookmark with a
    fresh id, a non-empty title and the enclosing folder (or the default
    category at the top level); a heading adds one category with a fresh id,
    a non-empty name and the enclosing folder as parent (None at the top
    level, not the default category).
  */
  lemma WalkItemEffect(item: Element, parent: Option<string>, st: Parsed, newId: nat -> string, clock: nat -> int)
    ensures var r := WalkItem(item, parent, st, newId, clock);
      && (item.tag != "DT" || |item.children| == 0 || item.children[0].tag !in {"A", "H3"} ==> r == st)
      && (item.tag == "DT" && |item.children| > 0 && item.children[0].tag == "A" ==>
            && r.categories == st.categories && r.minted == st.minted + 1
            && |r.bookmarks| == |st.bookmarks| + 1
            && r.bookmarks[..|st.bookmarks|] == st.bookmarks
            && var b := r.bookmarks[|st.bookmarks|];
               var text := item.children[0].text;
               && b.id == newId(st.minted)
               && b.title == (if text != "" then text else UntitledBookmark)
               && b.url == item.children[0].href.GetOr("")
               && b.categoryId == (if parent.Some? && parent.value != "" then parent.value else newId(0))
               && b.createdAt == clock(st.minted))
      && (item.tag == "DT" && |item.children| > 0 && item.children[0].tag == "H3" ==>
            && |r.categories| > |st.categories|
            && var c := r.categories[|st.categories|];
               var text := item.children[0].text;
               && c.id == newId(st.minted)
               && c.name == (if text != "" then text else UntitledFolder)
               && c.parentId == parent
               && c.createdAt == clock(st.minted))
  {
    if item.tag == "DT" && |item.children| > 0 && item.children[0].tag == "H3" {
      FolderStep(item, parent, st, newId, clock);
      var c := Category(newId(st.minted), Or(item.children[0].text, UntitledFolder), parent, clock(st.minted));
      var withFolder := Parsed(st.bookmarks, st.categories + [c], st.minted + 1);
      var r := WalkItem(item, parent, st, newId, clock);
      assert Extends(withFolder, r);
      assert r.categories[|st.categories|] == withFolder.categories[|st.categories|];
    }
  }

  // ---------------------------------------------------------------------------
  // How many records an import creates

  /** Folder headings and links visited. */
  datatype Counts = Counts(folders: nat, links: nat)

  function Plus(a: Counts, b: Counts): Counts {
    Counts(a.folders + b.folders, a.links + b.links)
  }

  /** The headings and links processNode visits for one item, its folder's list included. */
  function ItemCounts(item: Element): Counts
    decreases Size(item), 1, 0
  {
    if item.tag != "DT" || |item.children| == 0 then Counts(0, 0)
    else if item.children[0].tag == "A" then Counts(0, 1)
    else if item.children[0].tag == "H3" then
      match SelectFirst(item, "DL")
      case None => Counts(1, 0)
      case Some(sub) => Plus(Counts(1, 0), ListCounts(sub, |sub.children|))
    else Counts(0, 0)
  }

  /** The visits for the first `k` items of a list. */
  function ListCounts(node: Element, k: nat): Counts
    requires k <= |node.children|
    decreases Size(node), 0, k
  {
    if k == 0 then Counts(0, 0)
    else
      ChildSmaller(node, k - 1);
      Plus(ListCounts(node, k - 1), ItemCounts(node.children[k - 1]))
  }

  /** The visits for the first `k` lists, each walked from the top. */
  function ListsCounts(lists: seq<Element>, k: nat): Counts
    requires k <= |lists|
  {
    if k == 0 then Counts(0, 0)
    else Plus(ListsCounts(lists, k - 1), ListCounts(lists[k - 1], |lists[k - 1].children|))
  }

  /** One category per heading visit and one bookmark per link visit. */
  lemma {:induction false} WalkItemCounts(item: Element, parent: Option<string>, st: Parsed,
                                          newId: nat -> string, clock: nat -> int)
    ensures |WalkItem(item, parent, st, newId, clock).categories| == |st.categories| + ItemCounts(item).folders
    ensures |WalkItem(item, parent, st, newId, clock).bookmarks| == |st.bookmarks| + ItemCounts(item).links
    decreases Size(item), 2, 0
  {
    if item.tag == "DT" && |item.children| > 0 && item.children[0].tag == "H3" {
      WalkFolderCounts(item, parent, st, newId, clock);
    } else {
      WalkItemEffect(item, parent, st, newId, clock);
    }
  }

  lemma {:induction false} WalkFolderCounts(item: Element, parent: Option<string>, st: Parsed,
                                            newId: nat -> string, clock: nat -> int)
    requires item.tag == "DT" && |item.children| > 0 && item.children[0].tag == "H3"
    ensures |WalkItem(item, parent, st, newId, clock).categories| == |st.categories| + ItemCounts(item).folders
    ensures |WalkItem(item, parent, st, newId, clock).bookmarks| == |st.bookmarks| + ItemCounts(item).links
    decreases Size(item), 1, 0
  {
    FolderStep(item, parent, st, newId, clock);
    var m := st.minted;
    var c := Category(newId(m), Or(item.children[0].text, UntitledFolder), parent, clock(m));
    var withFolder := Parsed(st.bookmarks, st.categories + [c], m + 1);
    var sub := SelectFirst(item, "DL");
    if sub.Some? {
      WalkItemsCounts(sub.value, |sub.value.children|, Some(newId(m)), withFolder, newId, clock);
      assert ItemCounts(item) == Plus(Counts(1, 0), ListCounts(sub.value, |sub.value.children|));
    } else {
      assert ItemCounts(item) == Counts(1, 0);
    }
  }

  lemma {:induction false} WalkItemsCounts(node: Element, k: nat, parent: Option<string>, st: Parsed,
                                           newId: nat -> string, clock: nat -> int)
    requires k <= |node.children|
    ensures |WalkItems(node, k, parent, st, newId, clock).categories| == |st.categories| + ListCounts(node, k).folders
    ensures |WalkItems(node, k, parent, st, newId, clock).bookmarks| == |st.bookmarks| + ListCounts(node, k).links
    decreases Size(node), 0, k
  {
    if k > 0 {
      ChildSmaller(node, k - 1);
      WalkItemsCounts(node, k - 1, parent, st, newId, clock);
      WalkItemCounts(node.children[k - 1], parent, WalkItems(node, k - 1, parent, st, newId, clock), newId, clock);
    }
  }

  lemma {:induction false} WalkListsCounts(lists: seq<Element>, k: nat, st: Parsed, newId: nat -> string, clock: nat -> int)
    requires k <= |lists|
    ensures |WalkLists(lists, k, st, newId, clock).categories| == |st.categories| + ListsCounts(lists, k).folders
    ensures |WalkLists(lists, k, st, newId, clock).bookmarks| == |st.bookmarks| + ListsCounts(lists, k).links
  {
    if k > 0 {
      var l := lists[k - 1];
      WalkListsCounts(lists, k - 1, st, newId, clock);
      WalkItemsCounts(l, |l.children|, None, WalkLists(lists, k - 1, st, newId, clock), newId, clock);
    }
  }

  /**
    An import has one category more than the heading visits (the default
    category) and one bookmark per link visit, counting every DL of the
    document as a top-level list.
  */
  lemma ParseCounts(doc: Element, newId: nat -> string, clock: nat -> int)
    ensures var lists := SelectAll(doc, "DL");
      && |Parse(doc, newId, clock).categories| == 1 + ListsCounts(lists, |lists|).folders
      && |Parse(doc, newId, clock).bookmarks| == ListsCounts(lists, |lists|).links
  {
    var lists := SelectAll(doc, "DL");
    WalkListsCounts(lists, |lists|, Initial(newId, clock), newId, clock);
  }

  // ---------------------------------------------------------------------------
  // A nested folder is imported twice over

  const LinkExample: Element := Element("A", [], "Example", Some("https://example.com"))
  const LinkHome: Element := Element("A", [], "Home", Some("https://home.example"))
  const ItemExample: Element := Element("DT", [LinkExample], "Example", None)
  const ItemHome: Element := Element("DT", [LinkHome], "Home", None)
  const InnerList: Element := Element("DL", [ItemExample], "Example", None)
  const HeadingWork: Element := Element("H3", [], "Work", None)
  const ItemWork: Element := Element("DT", [HeadingWork, InnerList], "WorkExample", None)
  const OuterList: Element := Element("DL", [ItemWork, ItemHome], "WorkExampleHome", None)
  const SampleDocument: Element := Element("HTML", [OuterList], "WorkExampleHome", None)

  lemma SelectAllSingle(e: Element, tag: string)
    ensures SelectAllIn([e], tag) == SelectAll(e, tag)
  {
    assert [e][1..] == [];
  }

  lemma SampleLists()
    ensures SelectAll(SampleDocument, "DL") == [OuterList, InnerList]
    ensures SelectFirst(ItemWork, "DL") == Some(InnerList)
  {
    SelectAllSingle(LinkExample, "DL");
    SelectAllSingle(LinkHome, "DL");
    assert SelectAll(ItemExample, "DL") == [];
    assert SelectAll(ItemHome, "DL") == [];
    SelectAllSingle(ItemExample, "DL");
    assert SelectAll(InnerList, "DL") == [InnerList];
    SelectAllSingle(InnerList, "DL");
    assert SelectAll(HeadingWork, "DL") == [];
    assert ItemWork.children[1..] == [InnerList];
    assert SelectAllIn(ItemWork.children, "DL") == [InnerList];
    assert SelectAll(ItemWork, "DL") == [InnerList];
    assert OuterList.children[1..] == [ItemHome];
    SelectAllSingle(ItemHome, "DL");
    assert SelectAllIn(OuterList.children, "DL") == [InnerList];
    assert SelectAll(OuterList, "DL") == [OuterList, InnerList];
    SelectAllSingle(OuterList, "DL");
    assert SelectFirstIn([InnerList], "DL") == Some(InnerList);
  }

  /**
    One folder "Work" holding link "Example", then link "Home" at the top:
    the nested DL is walked once inside "Work" and once more as a top-level
    list, so "Example" is imported twice, the second time into the default
    category.
  */
  lemma NestedListImportedTwice(newId: nat -> string, clock: nat -> int)
    requires newId(1) != ""
    ensures Parse(SampleDocument, newId, clock).categories ==
      [Category(newId(0), DefaultCategoryName, None, clock(0)), Category(newId(1), "Work", None, clock(1))]
    ensures Parse(SampleDocument, newId, clock).bookmarks ==
      [ Bookmark(newId(2), "Example", "https://example.com", newId(1), clock(2)),
        Bookmark(newId(3), "Home", "https://home.example", newId(0), clock(3)),
        Bookmark(newId(4), "Example", "https://example.com", newId(0), clock(4)) ]
  {
    SampleLists();
    var root := Category(newId(0), DefaultCategoryName, None, clock(0));
    var work := Category(newId(1), "Work", None, clock(1));
    var inWork := Bookmark(newId(2), "Example", "https://example.com", newId(1), clock(2));
    var home := Bookmark(newId(3), "Home", "https://home.example", newId(0), clock(3));
    var again := Bookmark(newId(4), "Example", "https://example.com", newId(0), clock(4));
    var init := Initial(newId, clock);
    var withWork := Parsed([], [root, work], 2);
    assert WalkItems(InnerList, 1, Some(newId(1)), withWork, newId, clock) == Parsed([inWork], [root, work], 3) by {
      assert WalkItems(InnerList, 0, Some(newId(1)), withWork, newId, clock) == withWork;
    }
    var afterWork := Parsed([inWork], [root, work], 3);
    assert WalkItem(ItemWork, None, init, newId, clock) == afterWork by {
      assert init.categories + [work] == [root, work];
      assert |InnerList.children| == 1;
    }
    assert WalkItems(OuterList, 1, None, init, newId, clock) == afterWork by {
      assert WalkItems(OuterList, 0, None, init, newId, clock) == init;
    }
    var afterOuter := Parsed([inWork, home], [root, work], 4);
    assert WalkItem(ItemHome, None, afterWork, newId, clock) == afterOuter;
    assert WalkItems(OuterList, 2, None, init, newId, clock) == afterOuter;
    var lists := [OuterList, InnerList];
    assert WalkLists(lists, 1, init, newId, clock) == afterOuter by {
      assert WalkLists(lists, 0, init, newId, clock) == init;
    }
    assert WalkItems(InnerList, 1, None, afterOuter, newId, clock) == Parsed([inWork, home, again], [root, work], 5) by {
      assert WalkItems(InnerList, 0, None, afterOuter, newId, clock) == afterOuter;
    }
  }

  // ---------------------------------------------------------------------------
  // isBookmarkHtmlFile

  /** `t` occurs in `s` at index `i`. */
  predicate OccursAt(s: string, t: string, i: int) {
    0 <= i && i + |t| <= |s| && s[i..i + |t|] == t
  }

  /** `s.includes(t)` */
  predicate Contains(s: string, t: string) {
    exists i :: 0 <= i <= |s| - |t| && OccursAt(s, t, i)
  }

  const Signature: string := "NETSCAPE-Bookmark-file-1"

  /** isBookmarkHtmlFile: the doctype, the bare signature, or both `<DL>` and `<DT>`. */
  predicate IsBookmarkHtmlFile(content: string) {
    Contains(content, BookmarkExporter.DoctypeLine) || Contains(content, Signature)
    || (Contains(content, "<DL>") && Contains(content, "<DT>"))
  }

  /** The doctype test adds nothing: the doctype contains the signature. */
  lemma DoctypeSubsumed(content: string)
    ensures IsBookmarkHtmlFile(content) <==>
      Contains(content, Signature) || (Contains(content, "<DL>") && Contains(content, "<DT>"))
  {
    if Contains(content, BookmarkExporter.DoctypeLine) {
      assert BookmarkExporter.DoctypeLine == "<!DOCTYPE " + Signature + ">";
      ContainsMiddle(content, "<!DOCTYPE ", Signature, ">");
    }
  }

  /** A text containing `a + b + c` contains `b`. */
  lemma ContainsMiddle(s: string, a: string, b: string, c: string)
    requires Contains(s, a + b + c)
    ensures Contains(s, b)
  {
    var t := a + b + c;
    var i :| 0 <= i <= |s| - |t| && OccursAt(s, t, i);
    SliceMiddle(a, b, c);
    SliceOfSlice(s, i, i + |t|, |a|, |a| + |b|);
    assert OccursAt(s, b, i + |a|);
  }

  lemma SliceMiddle<T>(a: seq<T>, b: seq<T>, c: seq<T>)
    ensures (a + b + c)[|a|..|a| + |b|] == b
  {
  }

  lemma SliceOfSlice<T>(s: seq<T>, i: nat, j: nat, k: nat, l: nat)
    requires i <= j <= |s| && k <= l <= j - i
    ensures s[i..j][k..l] == s[i + k..i + l]
  {
    var a := s[i..j];
    assert |a[k..l]| == l - k == |s[i + k..i + l]|;
    forall n | 0 <= n < l - k ensures a[k..l][n] == s[i + k..i + l][n] {
      assert a[k..l][n] == a[k + n] == s[i + k + n];
    }
  }

  /** A string contains its own prefix. */
  lemma PrefixContained(p: string, rest: string)
    ensures Contains(p + rest, p)
  {
    assert (p + rest)[0..|p|] == p;
    assert OccursAt(p + rest, p, 0);
  }

  /** Every file the encoder writes is recognised as a bookmark file. */
  lemma ExportRecognised(body: string)
    ensures IsBookmarkHtmlFile(BookmarkExporter.Preamble + body + BookmarkExporter.Closing)
  {
    var rest := BookmarkExporter.PreambleTail + body + BookmarkExporter.Closing;
    assert BookmarkExporter.Preamble + body + BookmarkExporter.Closing == BookmarkExporter.DoctypeLine + rest;
    PrefixContained(BookmarkExporter.DoctypeLine, rest);
  }
}
