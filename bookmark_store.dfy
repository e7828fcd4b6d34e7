/**
  The bookmark/category repository (src/stores/bookmarkStore.ts): two in-memory
  collections owned by one object, read through derived queries and changed by
  add/update/delete actions and a wholesale import.

  `crypto.randomUUID()` and `Date.now()` are not modelled: every action that
  creates a record takes the new id (`freshId`) and the clock reading (`now`)
  as parameters.
*/
module BookmarkStore {
  import opened Wrappers
  import opened BookmarkTypes

  /** Name of the category synthesised when there is none. */
  const DefaultCategoryName: string := "我的收藏"

  /** The fields a caller supplies to `addBookmark` (everything but id and createdAt). */
  datatype BookmarkDraft = BookmarkDraft(title: string, url: string, categoryId: string)

  /** The fields a caller supplies to `addCategory`. */
  datatype CategoryDraft = CategoryDraft(name: string, parentId: Option<string>)

  /** A partial bookmark update: a None field is absent from the patch object. */
  datatype BookmarkPatch = BookmarkPatch(title: Option<string>, url: Option<string>, categoryId: Option<string>)

  /** A partial category update; `parentId: Some(None)` sets the parent to `null`. */
  datatype CategoryPatch = CategoryPatch(name: Option<string>, parentId: Option<Option<string>>)

  /** The `exportData()` payload. */
  datatype Snapshot = Snapshot(bookmarks: seq<Bookmark>, categories: seq<Category>)

  /** An `importData` argument whose fields may fail `Array.isArray` (None). */
  datatype ImportPayload = ImportPayload(bookmarks: Option<seq<Bookmark>>, categories: Option<seq<Category>>)

  // ---------------------------------------------------------------------------
  // Array searches used by the actions

  /** `bookmarks.findIndex(b => b.id === id)`: the first index holding `id`, or -1. */
  function BookmarkIndex(bs: seq<Bookmark>, id: string): (r: int)
    ensures -1 <= r < |bs|
    ensures r >= 0 ==> bs[r].id == id
    ensures forall k :: 0 <= k < |bs| && (r < 0 || k < r) ==> bs[k].id != id
  {
    if bs == [] then -1
    else if bs[0].id == id then 0
    else
      var r := BookmarkIndex(bs[1..], id);
      if r < 0 then -1 else r + 1
  }

  /** `categories.findIndex(c => c.id === id)`: the first index holding `id`, or -1. */
  function CategoryIndex(cs: seq<Category>, id: string): (r: int)
    ensures -1 <= r < |cs|
    ensures r >= 0 ==> cs[r].id == id
    ensures forall k :: 0 <= k < |cs| && (r < 0 || k < r) ==> cs[k].id != id
  {
    if cs == [] then -1
    else if cs[0].id == id then 0
    else
      var r := CategoryIndex(cs[1..], id);
      if r < 0 then -1 else r + 1
  }

  /** `categories.find(c => c.id === id)` */
  function FindCategory(cs: seq<Category>, id: string): (r: Option<Category>)
    ensures r.None? <==> forall c :: c in cs ==> c.id != id
    ensures r.Some? ==> r.value in cs && r.value.id == id
  {
    var k := CategoryIndex(cs, id);
    if k < 0 then None else Some(cs[k])
  }

  /** The first index whose category id differs from `id`, or -1. */
  function OtherCategoryIndex(cs: seq<Category>, id: string): (r: int)
    ensures -1 <= r < |cs|
    ensures r >= 0 ==> cs[r].id != id
    ensures forall k :: 0 <= k < |cs| && (r < 0 || k < r) ==> cs[k].id == id
  {
    if cs == [] then -1
    else if cs[0].id != id then 0
    else
      var r := OtherCategoryIndex(cs[1..], id);
      if r < 0 then -1 else r + 1
  }

  /** `categories.find(c => c.id !== id)?.id || ''` */
  function FallbackCategoryId(cs: seq<Category>, id: string): (r: string)
    ensures (forall c :: c in cs ==> c.id == id) ==> r == ""
    ensures (exists c :: c in cs && c.id != id) ==> r != id && exists c :: c in cs && c.id == r
  {
    var k := OtherCategoryIndex(cs, id);
    if k < 0 then "" else cs[k].id
  }

  /** `categories.some(c => c.parentId === id)` */
  predicate HasChildren(cs: seq<Category>, id: string) {
    exists c :: c in cs && c.parentId == Some(id)
  }

  /** `s.splice(i, 1)` applied to a copy. */
  function RemoveAt<T>(s: seq<T>, i: nat): (r: seq<T>)
    requires i < |s|
    ensures |r| == |s| - 1
    ensures forall k :: 0 <= k < |r| ==> r[k] == if k < i then s[k] else s[k + 1]
  {
    s[..i] + s[i + 1..]
  }

  /** One step of the `forEach` in deleteCategory. */
  function Moved(b: Bookmark, from: string, to: string): Bookmark {
    if b.categoryId == from then b.(categoryId := to) else b
  }

  /** Every bookmark filed under `from` moved to `to`; the others as they were. */
  function Reassigned(bs: seq<Bookmark>, from: string, to: string): (r: seq<Bookmark>)
    ensures |r| == |bs|
    ensures forall k :: 0 <= k < |bs| ==> r[k] == Moved(bs[k], from, to)
  {
    if bs == [] then []
    else [Moved(bs[0], from, to)] + Reassigned(bs[1..], from, to)
  }

  /** `{ ...b, ...patch }`: patched fields replaced, id and createdAt kept. */
  function PatchBookmark(b: Bookmark, p: BookmarkPatch): (r: Bookmark)
    ensures r.id == b.id && r.createdAt == b.createdAt
    ensures r.title == p.title.GetOr(b.title) && r.url == p.url.GetOr(b.url)
    ensures r.categoryId == p.categoryId.GetOr(b.categoryId)
  {
    Bookmark(b.id, p.title.GetOr(b.title), p.url.GetOr(b.url), p.categoryId.GetOr(b.categoryId), b.createdAt)
  }

  /** `{ ...c, ...patch }`: patched fields replaced, id and createdAt kept. */
  function PatchCategory(c: Category, p: CategoryPatch): (r: Category)
    ensures r.id == c.id && r.createdAt == c.createdAt
    ensures r.name == p.name.GetOr(c.name) && r.parentId == p.parentId.GetOr(c.parentId)
  {
    Category(c.id, p.name.GetOr(c.name), p.parentId.GetOr(c.parentId), c.createdAt)
  }

  // ---------------------------------------------------------------------------
  // Sorting for getAllBookmarks: a stable sort, newest first

  ghost predicate NewestFirstOrder(bs: seq<Bookmark>) {
    forall i, j :: 0 <= i < j < |bs| ==> bs[i].createdAt >= bs[j].createdAt
  }

  /** Places `b` before the first element that is not newer than it. */
  function InsertNewest(b: Bookmark, sorted: seq<Bookmark>): (r: seq<Bookmark>)
    ensures multiset(r) == multiset(sorted) + multiset{b}
  {
    if sorted == [] || sorted[0].createdAt <= b.createdAt then [b] + sorted
    else
      assert sorted == [sorted[0]] + sorted[1..];
      [sorted[0]] + InsertNewest(b, sorted[1..])
  }

  /** One step of the insertion past an element newer than `b`. */
  lemma InsertNewestPast(b: Bookmark, s: seq<Bookmark>)
    requires s != [] && s[0].createdAt > b.createdAt
    ensures InsertNewest(b, s) == [s[0]] + InsertNewest(b, s[1..])
    ensures s == [s[0]] + s[1..]
  {
  }

  lemma {:induction false} InsertNewestOrdered(b: Bookmark, s: seq<Bookmark>)
    requires NewestFirstOrder(s)
    ensures NewestFirstOrder(InsertNewest(b, s))
  {
    if s == [] || s[0].createdAt <= b.createdAt {
    } else {
      InsertNewestPast(b, s);
      InsertNewestOrdered(b, s[1..]);
      InsertNewestBelow(b, s);
      ConsOrdered(s[0], InsertNewest(b, s[1..]));
    }
  }

  /** Everything the insertion past `s[0]` produces is no newer than `s[0]`. */
  lemma InsertNewestBelow(b: Bookmark, s: seq<Bookmark>)
    requires NewestFirstOrder(s) && s != [] && s[0].createdAt > b.createdAt
    ensures forall k :: 0 <= k < |InsertNewest(b, s[1..])| ==> InsertNewest(b, s[1..])[k].createdAt <= s[0].createdAt
  {
    var tail := s[1..];
    var rest := InsertNewest(b, tail);
    forall k | 0 <= k < |rest| ensures rest[k].createdAt <= s[0].createdAt {
      var x := rest[k];
      assert x in multiset(rest);
      if x != b {
        assert x in multiset(tail);
        var i :| 0 <= i < |tail| && tail[i] == x;
        assert s[i + 1] == x;
      }
    }
  }

  /** Putting an element no older than all of a newest-first list in front keeps it newest first. */
  lemma ConsOrdered(h: Bookmark, rest: seq<Bookmark>)
    requires NewestFirstOrder(rest)
    requires forall k :: 0 <= k < |rest| ==> rest[k].createdAt <= h.createdAt
    ensures NewestFirstOrder([h] + rest)
  {
    var r := [h] + rest;
    forall i, j | 0 <= i < j < |r| ensures r[i].createdAt >= r[j].createdAt {
      assert r[j] == rest[j - 1];
      if i > 0 { assert r[i] == rest[i - 1]; }
    }
  }

  /** `[...bookmarks].sort((a, b) => b.createdAt - a.createdAt)` (Array.prototype.sort is stable). */
  function NewestFirst(bs: seq<Bookmark>): (r: seq<Bookmark>)
    ensures multiset(r) == multiset(bs)
    ensures NewestFirstOrder(r)
  {
    if bs == [] then []
    else
      assert bs == [bs[0]] + bs[1..];
      InsertNewestOrdered(bs[0], NewestFirst(bs[1..]));
      InsertNewest(bs[0], NewestFirst(bs[1..]))
  }

  /** The bookmarks created at instant `t`, in order. */
  function StampedAt(bs: seq<Bookmark>, t: int): seq<Bookmark> {
    if bs == [] then [] else (if bs[0].createdAt == t then [bs[0]] else []) + StampedAt(bs[1..], t)
  }

  lemma StampedCons(x: Bookmark, s: seq<Bookmark>, t: int)
    ensures StampedAt([x] + s, t) == (if x.createdAt == t then [x] else []) + StampedAt(s, t)
  {
    assert ([x] + s)[1..] == s;
  }

  lemma {:induction false} InsertNewestStable(b: Bookmark, s: seq<Bookmark>, t: int)
    ensures StampedAt(InsertNewest(b, s), t) == StampedAt([b] + s, t)
  {
    if s == [] || s[0].createdAt <= b.createdAt {
    } else {
      var head, tail := s[0], s[1..];
      var rest := InsertNewest(b, tail);
      InsertNewestPast(b, s);
      InsertNewestStable(b, tail, t);
      StampedCons(head, rest, t);
      StampedCons(b, tail, t);
      StampedCons(b, s, t);
      StampedCons(head, tail, t);
      if head.createdAt == t {
        assert StampedAt([b] + s, t) == [head] + StampedAt(tail, t);
      } else {
        assert StampedAt(InsertNewest(b, s), t) == StampedAt(rest, t);
      }
    }
  }

  /** Stability: bookmarks with equal timestamps keep their stored relative order. */
  lemma {:induction false} NewestFirstStable(bs: seq<Bookmark>, t: int)
    ensures StampedAt(NewestFirst(bs), t) == StampedAt(bs, t)
  {
    if bs != [] {
      NewestFirstStable(bs[1..], t);
      InsertNewestStable(bs[0], NewestFirst(bs[1..]), t);
      StampedCons(bs[0], NewestFirst(bs[1..]), t);
      StampedCons(bs[0], bs[1..], t);
      assert bs == [bs[0]] + bs[1..];
    }
  }

  // ---------------------------------------------------------------------------
  // getCategoryPath

  /** A set `parentId` in the JavaScript sense: neither null nor ''. */
  predicate IsSet(parentId: Option<string>) {
    parentId.Some? && parentId.value != ""
  }

  /** The step of the path walk: the category named by a set `parentId`, if it exists. */
  function ParentOf(cs: seq<Category>, c: Category): (r: Option<Category>)
    ensures r.Some? ==> r.value in cs && IsSet(c.parentId) && c.parentId == Some(r.value.id)
    ensures r.None? <==> !IsSet(c.parentId) || forall x :: x in cs ==> x.id != c.parentId.value
  {
    if IsSet(c.parentId) then FindCategory(cs, c.parentId.value) else None
  }

  /** The walk upwards from `current` stops within `bound` steps. */
  ghost predicate WalkEndsWithin(cs: seq<Category>, current: Option<Category>, bound: nat)
    decreases bound
  {
    current.None? || (bound > 0 && WalkEndsWithin(cs, ParentOf(cs, current.value), bound - 1))
  }

  /** Each element of `path` after the first is the parent-walk step back from its successor. */
  ghost predicate FollowsParents(cs: seq<Category>, path: seq<Category>) {
    forall i, j :: 0 <= i && j == i + 1 && j < |path| ==> ParentOf(cs, path[j]) == Some(path[i])
  }

  /** `path` is root-first, ends at the category with id `id`, follows parent links, and starts where the walk stops. */
  ghost predicate IsCategoryPath(cs: seq<Category>, id: string, path: seq<Category>) {
    match FindCategory(cs, id)
    case None => path == []
    case Some(target) =>
      && |path| > 0
      && path[|path| - 1] == target
      && ParentOf(cs, path[0]).None?
      && FollowsParents(cs, path)
  }

  /** Each link of a category path is a parent link: the next element's parentId is the previous element's id. */
  lemma {:induction false} CategoryPathLinks(cs: seq<Category>, id: string, path: seq<Category>)
    requires IsCategoryPath(cs, id, path)
    ensures forall c :: c in path ==> c in cs
    ensures forall i, j :: 0 <= i && j == i + 1 && j < |path| ==> path[j].parentId == Some(path[i].id)
    ensures path != [] ==> path[|path| - 1].id == id
  {
    forall i, j | 0 <= i && j == i + 1 && j < |path| ensures path[j].parentId == Some(path[i].id) {
      assert ParentOf(cs, path[j]) == Some(path[i]);
    }
    forall c | c in path ensures c in cs {
      var k :| 0 <= k < |path| && path[k] == c;
      if k + 1 < |path| {
        assert ParentOf(cs, path[k + 1]) == Some(path[k]);
      }
    }
  }

  /** Two root-first parent chains that end at the same category are equal. */
  lemma {:induction false} ParentChainsEqual(cs: seq<Category>, p: seq<Category>, q: seq<Category>)
    requires p != [] && q != [] && p[|p| - 1] == q[|q| - 1]
    requires ParentOf(cs, p[0]).None? && ParentOf(cs, q[0]).None?
    requires FollowsParents(cs, p) && FollowsParents(cs, q)
    ensures p == q
    decreases |p|
  {
    var m, n := |p| - 1, |q| - 1;
    if m > 0 { assert ParentOf(cs, p[m]) == Some(p[m - 1]); }
    if n > 0 { assert ParentOf(cs, q[n]) == Some(q[n - 1]); }
    if m == 0 {
      if n > 0 {
        assert false;
      }
    } else {
      if n == 0 {
        assert false;
      }
      var p', q' := p[..m], q[..n];
      assert FollowsParents(cs, p') by {
        forall i, j | 0 <= i && j == i + 1 && j < |p'| ensures ParentOf(cs, p'[j]) == Some(p'[i]) {
          assert p'[j] == p[j] && p'[i] == p[i];
        }
      }
      assert FollowsParents(cs, q') by {
        forall i, j | 0 <= i && j == i + 1 && j < |q'| ensures ParentOf(cs, q'[j]) == Some(q'[i]) {
          assert q'[j] == q[j] && q'[i] == q[i];
        }
      }
      ParentChainsEqual(cs, p', q');
      assert p == p' + [p[m]] && q == q' + [q[n]];
    }
  }

  /** There is only one category path: the walk is deterministic. */
  lemma CategoryPathUnique(cs: seq<Category>, id: string, p: seq<Category>, q: seq<Category>)
    requires IsCategoryPath(cs, id, p) && IsCategoryPath(cs, id, q)
    ensures p == q
  {
    if FindCategory(cs, id).Some? {
      ParentChainsEqual(cs, p, q);
    }
  }

  // ---------------------------------------------------------------------------
  // importData

  /** The collections `importData` installs, or None when the shape check fails. */
  function Imported(p: ImportPayload, freshId: string, now: int): (r: Option<Snapshot>)
    ensures r.Some? <==> p.bookmarks.Some? && p.categories.Some?
    ensures r.Some? ==> r.value.bookmarks == p.bookmarks.value && r.value.categories != []
    ensures r.Some? && p.categories.value != [] ==> r.value.categories == p.categories.value
    ensures r.Some? && p.categories.value == [] ==>
      r.value.categories == [Category(freshId, DefaultCategoryName, None, now)]
  {
    if p.bookmarks.Some? && p.categories.Some? then
      var cs := if p.categories.value == [] then [Category(freshId, DefaultCategoryName, None, now)]
                else p.categories.value;
      Some(Snapshot(p.bookmarks.value, cs))
    else None
  }

  /** `importData(exportData())` installs exactly the exported collections. */
  lemma ImportOfExport(s: Snapshot, freshId: string, now: int)
    requires s.categories != []
    ensures Imported(ImportPayload(Some(s.bookmarks), Some(s.categories)), freshId, now) == Some(s)
  {
  }

  // ---------------------------------------------------------------------------
  // deleteCategory, stated on the collections

  /** Every bookmark's category exists. */
  ghost predicate ReferencesValid(bs: seq<Bookmark>, cs: seq<Category>) {
    forall b :: b in bs ==> exists c :: c in cs && c.id == b.categoryId
  }

  /** With unique ids and another category present, the fallback is an existing id other than `id` that survives the removal. */
  lemma {:induction false} FallbackSurvives(cs: seq<Category>, id: string)
    requires UniqueIds(cs) && |cs| > 1 && CategoryIndex(cs, id) >= 0
    ensures FallbackCategoryId(cs, id) != id
    ensures exists c :: c in RemoveAt(cs, CategoryIndex(cs, id)) && c.id == FallbackCategoryId(cs, id)
  {
    var i := CategoryIndex(cs, id);
    var other := if i == 0 then 1 else 0;
    assert cs[other].id != id;
    var k := OtherCategoryIndex(cs, id);
    assert k >= 0 && k != i;
    var rest := RemoveAt(cs, i);
    if k < i { assert rest[k] == cs[k]; } else { assert rest[k - 1] == cs[k]; }
  }

  /** Removing the first category with `id` keeps every other index, and (ids being unique) drops the only `id`. */
  lemma {:induction false} RemovalKeepsOthers(cs: seq<Category>, id: string)
    requires UniqueIds(cs) && CategoryIndex(cs, id) >= 0
    ensures forall c :: c in cs && c.id != id ==> c in RemoveAt(cs, CategoryIndex(cs, id))
    ensures forall c :: c in RemoveAt(cs, CategoryIndex(cs, id)) ==> c in cs && c.id != id
  {
    var i := CategoryIndex(cs, id);
    var rest := RemoveAt(cs, i);
    forall c | c in cs && c.id != id ensures c in rest {
      var m :| 0 <= m < |cs| && cs[m] == c;
      if m < i { assert rest[m] == c; } else { assert rest[m - 1] == c; }
    }
    forall c | c in rest ensures c in cs && c.id != id {
      var j :| 0 <= j < |rest| && rest[j] == c;
      if j < i { assert c == cs[j]; } else { assert c == cs[j + 1]; }
    }
  }

  /**
    A successful deletion leaves no bookmark filed under the deleted id, no
    category naming it as parent, and (given unique ids) every bookmark whose
    category existed before still has an existing category.
  */
  lemma {:induction false} DeleteCategoryLeavesNoDangling(bs: seq<Bookmark>, cs: seq<Category>, id: string)
    requires UniqueIds(cs)
    requires !HasChildren(cs, id) && |cs| > 1 && CategoryIndex(cs, id) >= 0
    ensures forall b :: b in Reassigned(bs, id, FallbackCategoryId(cs, id)) ==> b.categoryId != id
    ensures forall c :: c in RemoveAt(cs, CategoryIndex(cs, id)) ==> c.parentId != Some(id) && c.id != id
    ensures ReferencesValid(bs, cs) ==>
      ReferencesValid(Reassigned(bs, id, FallbackCategoryId(cs, id)), RemoveAt(cs, CategoryIndex(cs, id)))
  {
    var fb := FallbackCategoryId(cs, id);
    var rest := RemoveAt(cs, CategoryIndex(cs, id));
    var moved := Reassigned(bs, id, fb);
    FallbackSurvives(cs, id);
    RemovalKeepsOthers(cs, id);
    forall b | b in moved ensures b.categoryId != id {
      var j :| 0 <= j < |moved| && moved[j] == b;
    }
    if ReferencesValid(bs, cs) {
      forall b | b in moved ensures exists c :: c in rest && c.id == b.categoryId {
        var j :| 0 <= j < |moved| && moved[j] == b;
        if bs[j].categoryId != id {
          assert b == bs[j] && bs[j] in bs;
          var c :| c in cs && c.id == b.categoryId;
          assert c in rest;
        }
      }
    }
  }

  /** When `id` names no category but passes both guards, deleteCategory reports failure yet has already moved bookmarks. */
  lemma {:induction false} DeleteAbsentCategoryStillMovesBookmarks(bs: seq<Bookmark>, cs: seq<Category>, id: string, k: nat)
    requires CategoryIndex(cs, id) < 0 && |cs| > 1
    requires k < |bs| && bs[k].categoryId == id
    ensures Reassigned(bs, id, FallbackCategoryId(cs, id)) != bs
  {
    var moved := Reassigned(bs, id, FallbackCategoryId(cs, id));
    assert cs[0].id != id;
    assert FallbackCategoryId(cs, id) == cs[0].id;
    assert moved[k].categoryId != bs[k].categoryId;
  }

  // ---------------------------------------------------------------------------
  // The repository object

  class BookmarkRepository {
    var bookmarks: seq<Bookmark>
    var categories: seq<Category>

    /** The category list is never empty after initialisation. */
    ghost predicate Valid()
      reads this
    {
      categories != []
    }

    /** Store set-up from the persisted arrays ([] when absent): a default category is added when there is none. */
    constructor (storedBookmarks: seq<Bookmark>, storedCategories: seq<Category>, freshId: string, now: int)
      ensures Valid()
      ensures bookmarks == storedBookmarks
      ensures storedCategories != [] ==> categories == storedCategories
      ensures storedCategories == [] ==> categories == [Category(freshId, DefaultCategoryName, None, now)]
    {
      bookmarks := storedBookmarks;
      categories := storedCategories;
      new;
      if |categories| == 0 {
        categories := categories + [Category(freshId, DefaultCategoryName, None, now)];
      }
    }

    /** getAllBookmarks: a newest-first copy (stable for equal timestamps, see NewestFirstStable). */
    function GetAllBookmarks(): (r: seq<Bookmark>)
      reads this
      ensures multiset(r) == multiset(bookmarks)
      ensures NewestFirstOrder(r)
    {
      NewestFirst(bookmarks)
    }

    /** getBookmarksByCategory */
    function GetBookmarksByCategory(categoryId: string): (r: seq<Bookmark>)
      reads this
      ensures forall b :: b in r <==> b in bookmarks && b.categoryId == categoryId
    {
      BookmarksIn(bookmarks, categoryId)
    }

    /** getCategoryById: the first category with that id, or undefined. */
    function GetCategoryById(categoryId: string): (r: Option<Category>)
      reads this
      ensures r.None? <==> forall c :: c in categories ==> c.id != categoryId
      ensures r.Some? ==> r.value.id == categoryId && r.value == categories[CategoryIndex(categories, categoryId)]
    {
      FindCategory(categories, categoryId)
    }

    /** getChildCategories */
    function GetChildCategories(parentId: Option<string>): (r: seq<Category>)
      reads this
      ensures forall c :: c in r <==> c in categories && c.parentId == parentId
      ensures r == ChildrenOf(categories, parentId)
    {
      ChildrenOf(categories, parentId)
    }

    /** getDefaultCategoryId: the first category's id, '' when there is none. */
    function GetDefaultCategoryId(): (r: string)
      reads this
      ensures Valid() ==> r == categories[0].id
      ensures !Valid() ==> r == ""
    {
      if |categories| > 0 then categories[0].id else ""
    }

    /**
      getCategoryPath. The source has no cycle guard, so the walk is only
      known to stop when the parent chain ends; `bound` is a witness for that.
    */
    method GetCategoryPath(categoryId: string, ghost bound: nat) returns (path: seq<Category>)
      requires WalkEndsWithin(categories, FindCategory(categories, categoryId), bound)
      ensures IsCategoryPath(categories, categoryId, path)
    {
      path := [];
      var current := FindCategory(categories, categoryId);
      ghost var fuel := bound;
      while current.Some?
        invariant WalkEndsWithin(categories, current, fuel)
        invariant path == [] ==> current == FindCategory(categories, categoryId)
        invariant path != [] ==> FindCategory(categories, categoryId) == Some(path[|path| - 1])
        invariant path != [] ==> current == ParentOf(categories, path[0])
        invariant FollowsParents(categories, path)
        decreases fuel
      {
        var c := current.value;
        path := [c] + path;
        if IsSet(c.parentId) {
          var parent := FindCategory(categories, c.parentId.value);
          if parent.None? {
            break;
          }
          current := parent;
        } else {
          current := None;
        }
        fuel := fuel - 1;
      }
    }

    method AddBookmark(draft: BookmarkDraft, freshId: string, now: int) returns (b: Bookmark)
      requires Valid()
      modifies this
      ensures Valid()
      ensures b == Bookmark(freshId, draft.title, draft.url, draft.categoryId, now)
      ensures bookmarks == old(bookmarks) + [b] && categories == old(categories)
    {
      b := Bookmark(freshId, draft.title, draft.url, draft.categoryId, now);
      bookmarks := bookmarks + [b];
    }

    method UpdateBookmark(id: string, patch: BookmarkPatch) returns (ok: bool)
      requires Valid()
      modifies this
      ensures Valid() && categories == old(categories)
      ensures ok <==> BookmarkIndex(old(bookmarks), id) >= 0
      ensures !ok ==> bookmarks == old(bookmarks)
      ensures ok ==> var i := BookmarkIndex(old(bookmarks), id);
        bookmarks == old(bookmarks)[i := PatchBookmark(old(bookmarks)[i], patch)]
    {
      var index := BookmarkIndex(bookmarks, id);
      if index != -1 {
        bookmarks := bookmarks[index := PatchBookmark(bookmarks[index], patch)];
        return true;
      }
      return false;
    }

    method DeleteBookmark(id: string) returns (ok: bool)
      requires Valid()
      modifies this
      ensures Valid() && categories == old(categories)
      ensures ok <==> BookmarkIndex(old(bookmarks), id) >= 0
      ensures !ok ==> bookmarks == old(bookmarks)
      ensures ok ==> bookmarks == RemoveAt(old(bookmarks), BookmarkIndex(old(bookmarks), id))
    {
      var index := BookmarkIndex(bookmarks, id);
      if index != -1 {
        bookmarks := RemoveAt(bookmarks, index);
        return true;
      }
      return false;
    }

    method AddCategory(draft: CategoryDraft, freshId: string, now: int) returns (c: Category)
      requires Valid()
      modifies this
      ensures Valid()
      ensures c == Category(freshId, draft.name, draft.parentId, now)
      ensures categories == old(categories) + [c] && bookmarks == old(bookmarks)
    {
      c := Category(freshId, draft.name, draft.parentId, now);
      categories := categories + [c];
    }

    method UpdateCategory(id: string, patch: CategoryPatch) returns (ok: bool)
      requires Valid()
      modifies this
      ensures Valid() && bookmarks == old(bookmarks)
      ensures ok <==> CategoryIndex(old(categories), id) >= 0
      ensures !ok ==> categories == old(categories)
      ensures ok ==> var i := CategoryIndex(old(categories), id);
        categories == old(categories)[i := PatchCategory(old(categories)[i], patch)]
    {
      var index := CategoryIndex(categories, id);
      if index != -1 {
        categories := categories[index := PatchCategory(categories[index], patch)];
        return true;
      }
      return false;
    }

    /**
      deleteCategory: refuses (no change) when a category has it as parent or
      when at most one category is left; otherwise moves its bookmarks to the
      fallback category and removes the first category with that id. The move
      happens even when no category has that id (the call then reports false).
    */
    method DeleteCategory(id: string) returns (ok: bool)
      requires Valid()
      modifies this
      ensures Valid()
      ensures HasChildren(old(categories), id) || |old(categories)| <= 1 ==>
        !ok && bookmarks == old(bookmarks) && categories == old(categories)
      ensures !HasChildren(old(categories), id) && |old(categories)| > 1 ==>
        && bookmarks == Reassigned(old(bookmarks), id, FallbackCategoryId(old(categories), id))
        && (ok <==> CategoryIndex(old(categories), id) >= 0)
        && categories == (if ok then RemoveAt(old(categories), CategoryIndex(old(categories), id))
                          else old(categories))
    {
      var hasChildren := HasChildren(categories, id);
      if hasChildren {
        return false;
      }
      if |categories| <= 1 {
        return false;
      }
      var fallbackCategoryId := FallbackCategoryId(categories, id);
      var i := 0;
      while i < |bookmarks|
        invariant categories == old(categories)
        invariant 0 <= i <= |bookmarks| == |old(bookmarks)|
        invariant forall k :: 0 <= k < i ==> bookmarks[k] == Moved(old(bookmarks)[k], id, fallbackCategoryId)
        invariant forall k :: i <= k < |bookmarks| ==> bookmarks[k] == old(bookmarks)[k]
      {
        if bookmarks[i].categoryId == id {
          bookmarks := bookmarks[i := bookmarks[i].(categoryId := fallbackCategoryId)];
        }
        i := i + 1;
      }
      assert bookmarks == Reassigned(old(bookmarks), id, fallbackCategoryId);
      var index := CategoryIndex(categories, id);
      if index != -1 {
        categories := RemoveAt(categories, index);
        return true;
      }
      return false;
    }

    /** exportData: the two collections as one payload. */
    function ExportData(): (d: Snapshot)
      reads this
      ensures d.bookmarks == bookmarks && d.categories == categories
    {
      Snapshot(bookmarks, categories)
    }

    /** importData: replaces both collections when both payload fields are arrays. */
    method ImportData(data: ImportPayload, freshId: string, now: int) returns (ok: bool)
      requires Valid()
      modifies this
      ensures Valid()
      ensures ok <==> Imported(data, freshId, now).Some?
      ensures !ok ==> bookmarks == old(bookmarks) && categories == old(categories)
      ensures ok ==> Snapshot(bookmarks, categories) == Imported(data, freshId, now).value
    {
      if data.bookmarks.Some? && data.categories.Some? {
        var cs := data.categories.value;
        if |cs| == 0 {
          cs := cs + [Category(freshId, DefaultCategoryName, None, now)];
        }
        bookmarks := data.bookmarks.value;
        categories := cs;
        return true;
      }
      return false;
    }
  }
}
