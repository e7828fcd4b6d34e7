/**
  The two records of the bookmark manager (src/types/bookmark.ts) and the two
  array filters that both the repository and the HTML encoder apply to them.
*/
module BookmarkTypes {
  import opened Wrappers

  /** A saved link. `categoryId` names the owning category; '' means "no category". */
  datatype Bookmark = Bookmark(id: string, title: string, url: string, categoryId: string, createdAt: int)

  /** A folder. `parentId` is None (JavaScript `null`) for a top-level folder. */
  datatype Category = Category(id: string, name: string, parentId: Option<string>, createdAt: int)

  /** No two categories share an id. */
  ghost predicate UniqueIds(cs: seq<Category>) {
    forall i, j :: 0 <= i < j < |cs| ==> cs[i].id != cs[j].id
  }

  /** `bookmarks.filter(b => b.categoryId === categoryId)` */
  function BookmarksIn(bs: seq<Bookmark>, categoryId: string): (r: seq<Bookmark>)
    ensures |r| <= |bs|
    ensures forall b :: b in r <==> b in bs && b.categoryId == categoryId
  {
    if bs == [] then []
    else (if bs[0].categoryId == categoryId then [bs[0]] else []) + BookmarksIn(bs[1..], categoryId)
  }

  /** The filter keeps the relative order: filtering a concatenation filters each part. */
  lemma {:induction false} BookmarksInAppend(s: seq<Bookmark>, t: seq<Bookmark>, categoryId: string)
    ensures BookmarksIn(s + t, categoryId) == BookmarksIn(s, categoryId) + BookmarksIn(t, categoryId)
  {
    if s != [] {
      assert (s + t)[1..] == s[1..] + t;
      BookmarksInAppend(s[1..], t, categoryId);
    } else {
      assert s + t == t;
    }
  }

  /** `categories.filter(c => c.parentId === parentId)` */
  function ChildrenOf(cs: seq<Category>, parentId: Option<string>): (r: seq<Category>)
    ensures |r| <= |cs|
    ensures forall c :: c in r <==> c in cs && c.parentId == parentId
  {
    if cs == [] then []
    else (if cs[0].parentId == parentId then [cs[0]] else []) + ChildrenOf(cs[1..], parentId)
  }

  /** The filter keeps the collection order: filtering a concatenation filters each part. */
  lemma {:induction false} ChildrenOfAppend(s: seq<Category>, t: seq<Category>, parentId: Option<string>)
    ensures ChildrenOf(s + t, parentId) == ChildrenOf(s, parentId) + ChildrenOf(t, parentId)
  {
    if s == [] {
      assert s + t == t;
    } else {
      var u := s + t;
      var head := if s[0].parentId == parentId then [s[0]] else [];
      var front, back := ChildrenOf(s[1..], parentId), ChildrenOf(t, parentId);
      assert u[0] == s[0] && u[1..] == s[1..] + t;
      ChildrenOfAppend(s[1..], t, parentId);
      calc {
        ChildrenOf(u, parentId);
        head + ChildrenOf(u[1..], parentId);
        head + (front + back);
        { assert head + (front + back) == (head + front) + back; }
        (head + front) + back;
        ChildrenOf(s, parentId) + back;
      }
    }
  }

  /** The children of a list with unique ids have unique ids: the filter never duplicates. */
  lemma {:induction false} ChildrenOfUnique(cs: seq<Category>, parentId: Option<string>)
    requires UniqueIds(cs)
    ensures UniqueIds(ChildrenOf(cs, parentId))
  {
    if cs != [] {
      UniqueTail(cs);
      ChildrenOfUnique(cs[1..], parentId);
      var kids := ChildrenOf(cs[1..], parentId);
      if cs[0].parentId == parentId {
        UniqueCons(cs[0], kids);
      }
    }
  }

  /** Below the head of a list with unique ids: unique ids, none equal to the head's. */
  lemma UniqueTail(cs: seq<Category>)
    requires UniqueIds(cs) && cs != []
    ensures UniqueIds(cs[1..])
    ensures forall c :: c in cs[1..] ==> c.id != cs[0].id
  {
    var rest := cs[1..];
    forall i, j | 0 <= i < j < |rest| ensures rest[i].id != rest[j].id {
      assert rest[i] == cs[i + 1] && rest[j] == cs[j + 1];
    }
    forall c | c in rest ensures c.id != cs[0].id {
      var k :| 0 <= k < |rest| && rest[k] == c;
      assert cs[k + 1] == c;
    }
  }

  /** A head whose id no element of a unique-id list has keeps the ids unique. */
  lemma UniqueCons(x: Category, kids: seq<Category>)
    requires UniqueIds(kids) && forall c :: c in kids ==> c.id != x.id
    ensures UniqueIds([x] + kids)
  {
    var r := [x] + kids;
    forall i, j | 0 <= i < j < |r| ensures r[i].id != r[j].id {
      assert r[j] == kids[j - 1];
      if i > 0 {
        assert r[i] == kids[i - 1];
      }
    }
  }
}
