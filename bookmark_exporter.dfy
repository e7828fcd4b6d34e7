/**
  The Netscape bookmark-file encoder (src/utils/bookmarkExporter.ts).

  The output is specified as a list of abstract lines (`Line`): a folder
  opening (its `<DT><H3>` and `<DL><p>` lines), a link, a folder closing,
  each at a nesting depth. `LevelLines` says which lines the encoder emits
  for one level of the category tree; `Render` turns lines into text. The
  methods build the text the way the source does (loops appending to a
  string, one recursive call per folder) and are proved to produce
  `Render` of the specified lines. Properties of the lines: they are well
  nested with indentation equal to the number of enclosing folders, and
  every folder reachable from the top level is emitted together with all
  of its bookmarks.
*/
module BookmarkExporter {
  import opened Wrappers
  import opened BookmarkTypes
  import opened HtmlEscape

  const DoctypeLine: string := "<!DOCTYPE NETSCAPE-Bookmark-file-1>"

  const Preamble: string := DoctypeLine + PreambleTail

  const PreambleTail: string :=
    "\n"
    + "<!-- This is an automatically generated file.\n"
    + "     It will be read and overwritten.\n"
    + "     DO NOT EDIT! -->\n"
    + "<META HTTP-EQUIV=\"Content-Type\" CONTENT=\"text/html; charset=UTF-8\">\n"
    + "<TITLE>Bookmarks</TITLE>\n"
    + "<H1>Bookmarks</H1>\n"
    + "<DL><p>\n"

  const Closing: string := "\n</DL><p>"

  // ---------------------------------------------------------------------------
  // Grouping bookmarks by category

  /** `bookmarksByCategory.get(id) || []` */
  function Group(groups: map<string, seq<Bookmark>>, id: string): seq<Bookmark> {
    if id in groups then groups[id] else []
  }

  /** The `forEach` that fills `bookmarksByCategory`: one list per category id, in bookmark order. */
  method GroupByCategory(bookmarks: seq<Bookmark>) returns (groups: map<string, seq<Bookmark>>)
    ensures forall id :: Group(groups, id) == BookmarksIn(bookmarks, id)
    ensures forall id :: id in groups ==> groups[id] != []
  {
    groups := map[];
    for i := 0 to |bookmarks|
      invariant forall id :: Group(groups, id) == BookmarksIn(bookmarks[..i], id)
      invariant forall id :: id in groups ==> groups[id] != []
    {
      var b := bookmarks[i];
      var categoryId := b.categoryId;
      if categoryId !in groups {
        groups := groups[categoryId := []];
      }
      groups := groups[categoryId := groups[categoryId] + [b]];
      assert bookmarks[..i + 1] == bookmarks[..i] + [b];
      forall id ensures Group(groups, id) == BookmarksIn(bookmarks[..i + 1], id) {
        BookmarksInAppend(bookmarks[..i], [b], id);
        assert BookmarksIn([b], id) == if b.categoryId == id then [b] else [];
      }
    }
    assert bookmarks[..|bookmarks|] == bookmarks;
  }

  // ---------------------------------------------------------------------------
  // Lines and their text

  datatype Line =
    | FolderOpen(folder: Category, depth: nat)
    | Link(bookmark: Bookmark, depth: nat)
    | FolderClose(depth: nat)

  /** Four spaces per level, starting with four at the top level. */
  function Indent(depth: nat): (r: string)
    ensures |r| == 4 * (depth + 1)
    ensures forall k :: 0 <= k < |r| ==> r[k] == ' '
  {
    if depth == 0 then "    " else Indent(depth - 1) + "    "
  }

  function RenderLine(l: Line): string {
    match l
    case FolderOpen(c, d) =>
      (Indent(d) + "<DT><H3>" + EscapeHtml(c.name) + "</H3>\n") + (Indent(d) + "<DL><p>\n")
    case Link(b, d) =>
      Indent(d) + "<DT><A HREF=\"" + EscapeHtml(b.url) + "\">" + EscapeHtml(b.title) + "</A>\n"
    case FolderClose(d) =>
      Indent(d) + "</DL><p>\n"
  }

  /** The texts of `ls` concatenated in order. */
  function Join(f: Line -> string, ls: seq<Line>): string {
    if |ls| == 0 then "" else Join(f, ls[..|ls| - 1]) + f(ls[|ls| - 1])
  }

  function Render(ls: seq<Line>): string {
    Join(RenderLine, ls)
  }

  lemma {:induction false} JoinAppend(f: Line -> string, a: seq<Line>, b: seq<Line>)
    ensures Join(f, a + b) == Join(f, a) + Join(f, b)
    decreases |b|
  {
    if |b| == 0 {
      assert a + b == a;
    } else {
      var ab := a + b;
      var b', last := b[..|b| - 1], b[|b| - 1];
      assert ab[..|ab| - 1] == a + b';
      assert ab[|ab| - 1] == last;
      JoinAppend(f, a, b');
    }
  }

  /** The text of a concatenation of lines is the concatenation of their texts. */
  lemma RenderAppend(a: seq<Line>, b: seq<Line>)
    ensures Render(a + b) == Render(a) + Render(b)
  {
    JoinAppend(RenderLine, a, b);
  }

  lemma RenderSnoc(pre: seq<Line>, l: Line)
    ensures Render(pre + [l]) == Render(pre) + RenderLine(l)
  {
    RenderAppend(pre, [l]);
    assert [l][..0] == [];
  }

  // ---------------------------------------------------------------------------
  // Nesting of lines

  /** The nesting depth after one more line, or None when the line's depth is not the current one or it closes below `floor`. */
  function Step(l: Line, floor: nat, cur: nat): Option<nat> {
    match l
    case FolderOpen(_, d) => if d == cur then Some(cur + 1) else None
    case Link(_, d) => if d == cur then Some(cur) else None
    case FolderClose(d) => if cur > floor && d + 1 == cur then Some(d) else None
  }

  /** Reads `ls` from depth `start` without closing below `floor`; the final depth, if every line fits. */
  function Nest(ls: seq<Line>, floor: nat, start: nat): Option<nat> {
    if ls == [] then Some(start)
    else
      match Nest(ls[..|ls| - 1], floor, start)
      case None => None
      case Some(cur) => Step(ls[|ls| - 1], floor, cur)
  }

  /** `ls` is well nested at `depth`: it closes every folder it opens and each line sits at its nesting depth. */
  predicate WellNested(ls: seq<Line>, depth: nat) {
    Nest(ls, depth, depth) == Some(depth)
  }

  lemma {:induction false} NestAppend(a: seq<Line>, b: seq<Line>, floor: nat, start: nat, mid: nat)
    requires Nest(a, floor, start) == Some(mid)
    ensures Nest(a + b, floor, start) == Nest(b, floor, mid)
    decreases |b|
  {
    if b == [] {
      assert a + b == a;
    } else {
      var b' := b[..|b| - 1];
      assert (a + b)[..|a + b| - 1] == a + b';
      assert (a + b)[|a + b| - 1] == b[|b| - 1];
      NestAppend(a, b', floor, start, mid);
    }
  }

  /** Lowering the floor never turns a fitting line sequence into a failing one. */
  lemma {:induction false} NestLowerFloor(ls: seq<Line>, floor: nat, lower: nat, start: nat)
    requires lower <= floor && Nest(ls, floor, start).Some?
    ensures Nest(ls, lower, start) == Nest(ls, floor, start)
  {
    if ls != [] {
      NestLowerFloor(ls[..|ls| - 1], floor, lower, start);
    }
  }

  // ---------------------------------------------------------------------------
  // Which lines the encoder emits

  /** Link lines for `bs` at `depth`, in order. */
  function LinkLines(bs: seq<Bookmark>, depth: nat): (r: seq<Line>)
    ensures |r| == |bs|
    ensures forall k :: 0 <= k < |bs| ==> r[k] == Link(bs[k], depth)
    ensures forall l :: l in r ==> l.Link? && l.depth == depth && l.bookmark in bs
    ensures forall f :: Nest(r, f, depth) == Some(depth)
  {
    if bs == [] then []
    else
      var r := LinkLines(bs[..|bs| - 1], depth) + [Link(bs[|bs| - 1], depth)];
      assert r[..|r| - 1] == LinkLines(bs[..|bs| - 1], depth);
      assert forall l :: l in r ==> l.Link? && l.depth == depth && l.bookmark in bs by {
        forall l | l in r ensures l.Link? && l.depth == depth && l.bookmark in bs {
          var k :| 0 <= k < |r| && r[k] == l;
          if k < |r| - 1 { assert bs[..|bs| - 1][k] == bs[k]; }
        }
      }
      r
  }

  /**
    The folders being opened around the current level, outermost first:
    members of `cs`, pairwise distinct, a top-level folder first, each the
    parent of the next, and `parent` the id of the innermost one.
  */
  ghost predicate IsAncestry(cs: seq<Category>, stack: seq<Category>, parent: Option<string>) {
    && (forall k :: 0 <= k < |stack| ==> stack[k] in cs)
    && (forall i, j :: 0 <= i < j < |stack| ==> stack[i] != stack[j])
    && (stack != [] ==> stack[0].parentId == None)
    && (forall i, j :: 0 <= i && j == i + 1 && j < |stack| ==> stack[j].parentId == Some(stack[i].id))
    && parent == (if stack == [] then None else Some(stack[|stack| - 1].id))
  }

  /** The categories not yet on the stack: what the recursion has left to open. */
  ghost function Remaining(cs: seq<Category>, stack: seq<Category>): set<Category> {
    set c | c in cs && c !in stack
  }

  /** With unique ids two different categories of `cs` have different ids. */
  lemma DistinctIds(cs: seq<Category>, a: Category, b: Category)
    requires UniqueIds(cs) && a in cs && b in cs && a != b
    ensures a.id != b.id
  {
    var i :| 0 <= i < |cs| && cs[i] == a;
    var j :| 0 <= j < |cs| && cs[j] == b;
    assert i < j || j < i;
  }

  /**
    A child of the innermost open folder is not already open, so the
    recursion cannot revisit a folder: with unique ids there is no cycle
    reachable from the top level.
  */
  lemma {:induction false} ChildNotOnStack(cs: seq<Category>, stack: seq<Category>, c: Category)
    requires UniqueIds(cs) && c in cs && IsAncestry(cs, stack, c.parentId)
    ensures c !in stack
    ensures IsAncestry(cs, stack + [c], Some(c.id))
    ensures Remaining(cs, stack + [c]) < Remaining(cs, stack)
  {
    var n := |stack|;
    forall i | 0 <= i < n ensures stack[i] != c {
      if i > 0 {
        assert stack[i].parentId == Some(stack[i - 1].id);
        DistinctIds(cs, stack[i - 1], stack[n - 1]);
      }
    }
    var s := stack + [c];
    assert forall k :: 0 <= k < n ==> s[k] == stack[k];
    assert c in Remaining(cs, stack) && c !in Remaining(cs, s);
  }

  /** `c` ends an ancestry chain: following parent links from it reaches a top-level folder. */
  ghost predicate Rooted(cs: seq<Category>, c: Category) {
    exists stack :: |stack| > 0 && stack[|stack| - 1] == c && IsAncestry(cs, stack, Some(c.id))
  }

  /** A folder line opens a rooted folder; a link line lists a loose bookmark or one filed under a rooted folder. */
  ghost predicate LineRooted(cs: seq<Category>, l: Line) {
    match l
    case FolderOpen(c, _) => Rooted(cs, c)
    case Link(b, _) => b.categoryId == "" || exists c :: Rooted(cs, c) && c.id == b.categoryId
    case FolderClose(_) => true
  }

  /** The opening and the link lines of a folder reached through `stack` are rooted. */
  lemma LinksRooted(cs: seq<Category>, c: Category, mine: seq<Bookmark>, depth: nat, stack: seq<Category>)
    requires IsAncestry(cs, stack + [c], Some(c.id))
    requires forall b :: b in mine ==> b.categoryId == c.id
    ensures LineRooted(cs, FolderOpen(c, depth))
    ensures forall l :: l in LinkLines(mine, depth + 1) ==> LineRooted(cs, l)
  {
    var s := stack + [c];
    assert s[|s| - 1] == c;
    assert Rooted(cs, c);
  }

  /** The lines one level emits: each child folder's block, then (top level only) the uncategorized bookmarks. */
  ghost function LevelLines(cs: seq<Category>, bs: seq<Bookmark>, parent: Option<string>, depth: nat, stack: seq<Category>): (r: seq<Line>)
    requires UniqueIds(cs) && IsAncestry(cs, stack, parent)
    ensures WellNested(r, depth)
    ensures forall l :: l in r ==> (l.FolderOpen? ==> l.folder in cs) && (l.Link? ==> l.bookmark in bs)
    decreases Remaining(cs, stack), 2, 0
  {
    var folders := FoldersLines(cs, bs, ChildrenOf(cs, parent), depth, stack);
    var loose := if parent.None? then LinkLines(BookmarksIn(bs, ""), depth) else [];
    NestAppend(folders, loose, depth, depth, depth);
    folders + loose
  }

  /** The blocks of the folders `kids`, in order. */
  ghost function FoldersLines(cs: seq<Category>, bs: seq<Bookmark>, kids: seq<Category>, depth: nat, stack: seq<Category>): (r: seq<Line>)
    requires UniqueIds(cs)
    requires forall c :: c in kids ==> c in cs && IsAncestry(cs, stack, c.parentId)
    ensures WellNested(r, depth)
    ensures forall l :: l in r ==> (l.FolderOpen? ==> l.folder in cs) && (l.Link? ==> l.bookmark in bs)
    decreases Remaining(cs, stack), 1, |kids|
  {
    if kids == [] then []
    else
      var front := FoldersLines(cs, bs, kids[..|kids| - 1], depth, stack);
      var block := FolderBlock(cs, bs, kids[|kids| - 1], depth, stack);
      NestAppend(front, block, depth, depth, depth);
      front + block
  }

  /** One folder: its opening, its bookmarks one level deeper, its sub-folders, its closing. */
  ghost function FolderBlock(cs: seq<Category>, bs: seq<Bookmark>, c: Category, depth: nat, stack: seq<Category>): (r: seq<Line>)
    requires UniqueIds(cs) && c in cs && IsAncestry(cs, stack, c.parentId)
    ensures WellNested(r, depth)
    ensures forall l :: l in r ==> (l.FolderOpen? ==> l.folder in cs) && (l.Link? ==> l.bookmark in bs)
    decreases Remaining(cs, stack), 0, 0
  {
    ChildNotOnStack(cs, stack, c);
    var open := [FolderOpen(c, depth)];
    var links := LinkLines(BookmarksIn(bs, c.id), depth + 1);
    var inner := LevelLines(cs, bs, Some(c.id), depth + 1, stack + [c]);
    var close := [FolderClose(depth)];
    assert Nest(open, depth, depth) == Some(depth + 1) by {
      assert open[..0] == [];
    }
    NestAppend(open, links, depth, depth, depth + 1);
    NestLowerFloor(inner, depth + 1, depth, depth + 1);
    NestAppend(open + links, inner, depth, depth, depth + 1);
    assert Nest(open + links + inner + close, depth, depth) == Some(depth) by {
      var pre := open + links + inner;
      assert (pre + close)[..|pre + close| - 1] == pre;
    }
    open + links + inner + close
  }

  /** Every line of a level is rooted: nothing outside the tree hanging from the top level is emitted. */
  lemma {:induction false} LevelRooted(cs: seq<Category>, bs: seq<Bookmark>, parent: Option<string>, depth: nat,
                                       stack: seq<Category>)
    requires UniqueIds(cs) && IsAncestry(cs, stack, parent)
    ensures forall l :: l in LevelLines(cs, bs, parent, depth, stack) ==> LineRooted(cs, l)
    decreases Remaining(cs, stack), 2, 0
  {
    FoldersRooted(cs, bs, ChildrenOf(cs, parent), depth, stack);
  }

  lemma {:induction false} FoldersRooted(cs: seq<Category>, bs: seq<Bookmark>, kids: seq<Category>, depth: nat,
                                         stack: seq<Category>)
    requires UniqueIds(cs)
    requires forall c :: c in kids ==> c in cs && IsAncestry(cs, stack, c.parentId)
    ensures forall l :: l in FoldersLines(cs, bs, kids, depth, stack) ==> LineRooted(cs, l)
    decreases Remaining(cs, stack), 1, |kids|
  {
    if kids != [] {
      FoldersRooted(cs, bs, kids[..|kids| - 1], depth, stack);
      BlockRooted(cs, bs, kids[|kids| - 1], depth, stack);
    }
  }

  lemma {:induction false} BlockRooted(cs: seq<Category>, bs: seq<Bookmark>, c: Category, depth: nat,
                                       stack: seq<Category>)
    requires UniqueIds(cs) && c in cs && IsAncestry(cs, stack, c.parentId)
    ensures forall l :: l in FolderBlock(cs, bs, c, depth, stack) ==> LineRooted(cs, l)
    decreases Remaining(cs, stack), 0, 0
  {
    ChildNotOnStack(cs, stack, c);
    LinksRooted(cs, c, BookmarksIn(bs, c.id), depth, stack);
    LevelRooted(cs, bs, Some(c.id), depth + 1, stack + [c]);
  }

  /** A rooted folder is one of the categories. */
  lemma RootedIn(cs: seq<Category>, c: Category)
    requires Rooted(cs, c)
    ensures c in cs
  {
    var stack :| |stack| > 0 && stack[|stack| - 1] == c && IsAncestry(cs, stack, Some(c.id));
    assert stack[|stack| - 1] in cs;
  }

  /**
    A folder whose parent chain does not reach the top level is never opened
    in the export, and a bookmark filed under no rooted folder (and not loose)
    is never listed.
  */
  lemma UnrootedNotExported(cs: seq<Category>, bs: seq<Bookmark>, c: Category, b: Bookmark, depth: nat)
    requires UniqueIds(cs)
    ensures !Rooted(cs, c) ==> FolderOpen(c, depth) !in ExportLines(cs, bs)
    ensures b.categoryId != "" && (forall x :: x in cs && x.id == b.categoryId ==> !Rooted(cs, x)) ==>
      Link(b, depth) !in ExportLines(cs, bs)
  {
    LevelRooted(cs, bs, None, 0, []);
    if Link(b, depth) in ExportLines(cs, bs) && b.categoryId != "" {
      assert LineRooted(cs, Link(b, depth));
      var x :| Rooted(cs, x) && x.id == b.categoryId;
      RootedIn(cs, x);
    }
  }

  /** The whole list between the preamble and the closing. */
  ghost function ExportLines(cs: seq<Category>, bs: seq<Bookmark>): seq<Line>
    requires UniqueIds(cs)
  {
    LevelLines(cs, bs, None, 0, [])
  }

  // ---------------------------------------------------------------------------
  // What the export contains

  lemma {:induction false} FoldersContainBlock(cs: seq<Category>, bs: seq<Bookmark>, kids: seq<Category>, depth: nat,
                                               stack: seq<Category>, k: nat)
    requires UniqueIds(cs) && k < |kids|
    requires forall c :: c in kids ==> c in cs && IsAncestry(cs, stack, c.parentId)
    ensures forall l :: l in FolderBlock(cs, bs, kids[k], depth, stack) ==> l in FoldersLines(cs, bs, kids, depth, stack)
    decreases |kids|
  {
    if k < |kids| - 1 {
      var front := kids[..|kids| - 1];
      assert front[k] == kids[k];
      FoldersContainBlock(cs, bs, front, depth, stack, k);
    }
  }

  /** Dropping the innermost folder of an ancestry chain leaves the chain of its parent. */
  lemma AncestryOuter(cs: seq<Category>, stack: seq<Category>)
    requires stack != [] && IsAncestry(cs, stack, Some(stack[|stack| - 1].id))
    ensures IsAncestry(cs, stack[..|stack| - 1], stack[|stack| - 1].parentId)
  {
    var n := |stack|;
    var outer := stack[..n - 1];
    assert forall k :: 0 <= k < n - 1 ==> outer[k] == stack[k];
    if n > 1 {
      assert stack[n - 1].parentId == Some(stack[n - 2].id);
    }
  }

  /** A folder's block lies inside the lines of the level that lists it. */
  lemma BlockInLevel(cs: seq<Category>, bs: seq<Bookmark>, c: Category, depth: nat, stack: seq<Category>)
    requires UniqueIds(cs) && c in cs && IsAncestry(cs, stack, c.parentId)
    ensures forall l :: l in FolderBlock(cs, bs, c, depth, stack) ==> l in LevelLines(cs, bs, c.parentId, depth, stack)
  {
    var kids := ChildrenOf(cs, c.parentId);
    assert c in kids;
    var k :| 0 <= k < |kids| && kids[k] == c;
    FoldersContainBlock(cs, bs, kids, depth, stack, k);
  }

  /** The block of the innermost folder of an ancestry chain lies inside the export. */
  lemma {:induction false} ChainBlockExported(cs: seq<Category>, bs: seq<Bookmark>, stack: seq<Category>)
    requires UniqueIds(cs) && stack != [] && IsAncestry(cs, stack, Some(stack[|stack| - 1].id))
    ensures IsAncestry(cs, stack[..|stack| - 1], stack[|stack| - 1].parentId)
    ensures forall l :: l in FolderBlock(cs, bs, stack[|stack| - 1], |stack| - 1, stack[..|stack| - 1]) ==> l in ExportLines(cs, bs)
    decreases |stack|
  {
    var n := |stack|;
    var c, outer := stack[n - 1], stack[..n - 1];
    AncestryOuter(cs, stack);
    BlockInLevel(cs, bs, c, n - 1, outer);
    if n > 1 {
      ChainBlockExported(cs, bs, outer);
      var p := outer[n - 2];
      assert outer[..n - 2] + [p] == outer;
      FolderBlockParts(cs, bs, p, n - 2, outer[..n - 2]);
    }
  }

  /**
    Every folder reachable from the top level through parent links (an
    ancestry chain ending at it) is opened in the export at its depth, and
    every bookmark filed under it is listed one level deeper.
  */
  lemma ReachableFolderExported(cs: seq<Category>, bs: seq<Bookmark>, stack: seq<Category>)
    requires UniqueIds(cs) && stack != [] && IsAncestry(cs, stack, Some(stack[|stack| - 1].id))
    ensures FolderOpen(stack[|stack| - 1], |stack| - 1) in ExportLines(cs, bs)
    ensures forall b :: b in bs && b.categoryId == stack[|stack| - 1].id ==> Link(b, |stack|) in ExportLines(cs, bs)
  {
    var n := |stack|;
    ChainBlockExported(cs, bs, stack);
    BlockHead(cs, bs, stack[n - 1], n - 1, stack[..n - 1]);
  }

  /** A folder's block opens the folder and lists each of its bookmarks one level deeper. */
  lemma BlockHead(cs: seq<Category>, bs: seq<Bookmark>, c: Category, depth: nat, stack: seq<Category>)
    requires UniqueIds(cs) && c in cs && IsAncestry(cs, stack, c.parentId)
    ensures FolderOpen(c, depth) in FolderBlock(cs, bs, c, depth, stack)
    ensures forall b :: b in bs && b.categoryId == c.id ==> Link(b, depth + 1) in FolderBlock(cs, bs, c, depth, stack)
  {
    FolderBlockParts(cs, bs, c, depth, stack);
    var block := FolderBlock(cs, bs, c, depth, stack);
    var mine := BookmarksIn(bs, c.id);
    assert block[0] == FolderOpen(c, depth);
    forall b | b in bs && b.categoryId == c.id ensures Link(b, depth + 1) in LinkLines(mine, depth + 1) {
      LinkListed(mine, depth + 1, b);
    }
  }

  /** Every bookmark with no category ('') is listed at the top level. */
  lemma LooseBookmarksExported(cs: seq<Category>, bs: seq<Bookmark>)
    requires UniqueIds(cs)
    ensures forall b :: b in bs && b.categoryId == "" ==> Link(b, 0) in ExportLines(cs, bs)
  {
    var loose := BookmarksIn(bs, "");
    LevelParts(cs, bs, None, 0, []);
    forall b | b in bs && b.categoryId == "" ensures Link(b, 0) in LinkLines(loose, 0) {
      LinkListed(loose, 0, b);
    }
  }

  /** Each bookmark of a run has its link line among the run's lines. */
  lemma LinkListed(bs: seq<Bookmark>, depth: nat, b: Bookmark)
    requires b in bs
    ensures Link(b, depth) in LinkLines(bs, depth)
  {
    var k :| 0 <= k < |bs| && bs[k] == b;
    assert LinkLines(bs, depth)[k] == Link(b, depth);
  }

  /** A level's lines are its child folders' blocks, followed at the top level by the loose bookmarks. */
  lemma LevelParts(cs: seq<Category>, bs: seq<Bookmark>, parent: Option<string>, depth: nat, stack: seq<Category>)
    requires UniqueIds(cs) && IsAncestry(cs, stack, parent)
    ensures forall c :: c in ChildrenOf(cs, parent) ==> c in cs && IsAncestry(cs, stack, c.parentId)
    ensures LevelLines(cs, bs, parent, depth, stack)
      == FoldersLines(cs, bs, ChildrenOf(cs, parent), depth, stack)
         + (if parent.None? then LinkLines(BookmarksIn(bs, ""), depth) else [])
  {
  }

  // ---------------------------------------------------------------------------
  // Each folder is opened at most once

  /** No two lines of `ls` open the same folder. */
  ghost predicate OpensOnce(ls: seq<Line>) {
    forall i, j :: 0 <= i < j < |ls| && ls[i].FolderOpen? && ls[j].FolderOpen? ==> ls[i].folder != ls[j].folder
  }

  /** `s` is an ancestry chain ending at `x` that runs through `stack` and then one of `kids`. */
  ghost predicate ChainThrough(cs: seq<Category>, s: seq<Category>, stack: seq<Category>, kids: seq<Category>, x: Category) {
    && |s| > |stack| && IsAncestry(cs, s, Some(s[|s| - 1].id))
    && s[..|stack|] == stack && s[|stack|] in kids && s[|s| - 1] == x
  }

  /** Every folder opened in `ls` is reached through `stack` and then one of `kids`. */
  ghost predicate OpenedBelow(cs: seq<Category>, ls: seq<Line>, stack: seq<Category>, kids: seq<Category>) {
    forall l :: l in ls && l.FolderOpen? ==> exists s :: ChainThrough(cs, s, stack, kids, l.folder)
  }

  /** With unique ids a category of `cs` is determined by its id. */
  lemma IdDetermines(cs: seq<Category>, a: Category, b: Category)
    requires UniqueIds(cs) && a in cs && b in cs
    ensures a.id == b.id ==> a == b
  {
    if a != b {
      DistinctIds(cs, a, b);
    }
  }

  /** With unique ids a folder has a single ancestry chain: two chains ending at the same folder are equal. */
  lemma {:induction false} ChainUnique(cs: seq<Category>, s1: seq<Category>, s2: seq<Category>)
    requires UniqueIds(cs)
    requires s1 != [] && IsAncestry(cs, s1, Some(s1[|s1| - 1].id))
    requires s2 != [] && IsAncestry(cs, s2, Some(s2[|s2| - 1].id))
    ensures s1[|s1| - 1] == s2[|s2| - 1] ==> s1 == s2
    decreases |s1|
  {
    var n, m := |s1|, |s2|;
    var x := s1[n - 1];
    if x == s2[m - 1] {
      assert n == 1 <==> x.parentId == None by {
        assert n > 1 ==> x.parentId == Some(s1[n - 2].id);
      }
      assert m == 1 <==> x.parentId == None by {
        assert m > 1 ==> x.parentId == Some(s2[m - 2].id);
      }
      if n > 1 && m > 1 {
        var o1, o2 := s1[..n - 1], s2[..m - 1];
        IdDetermines(cs, s1[n - 2], s2[m - 2]);
        AncestryOuter(cs, s1);
        AncestryOuter(cs, s2);
        ChainUnique(cs, o1, o2);
        assert s1 == o1 + [x] && s2 == o2 + [x];
      }
    }
  }

  /** Two runs that open no folder twice, and no folder in both, make a run that opens no folder twice. */
  lemma OpensOnceAppend(a: seq<Line>, b: seq<Line>)
    requires OpensOnce(a) && OpensOnce(b)
    requires forall l1, l2 :: l1 in a && l2 in b && l1.FolderOpen? && l2.FolderOpen? ==> l1.folder != l2.folder
    ensures OpensOnce(a + b)
  {
    var ab := a + b;
    forall i, j | 0 <= i < j < |ab| && ab[i].FolderOpen? && ab[j].FolderOpen? ensures ab[i].folder != ab[j].folder {
      if j < |a| {
        assert ab[i] == a[i] && ab[j] == a[j];
      } else if i >= |a| {
        assert ab[i] == b[i - |a|] && ab[j] == b[j - |a|];
      } else {
        assert ab[i] in a && ab[j] in b;
      }
    }
  }

  /** A level opens each folder at most once, each through one of the level's children. */
  lemma {:induction false} LevelOpensOnce(cs: seq<Category>, bs: seq<Bookmark>, parent: Option<string>, depth: nat,
                                          stack: seq<Category>)
    requires UniqueIds(cs) && IsAncestry(cs, stack, parent)
    ensures OpensOnce(LevelLines(cs, bs, parent, depth, stack))
    ensures OpenedBelow(cs, LevelLines(cs, bs, parent, depth, stack), stack, ChildrenOf(cs, parent))
    decreases Remaining(cs, stack), 2, 0
  {
    var kids := ChildrenOf(cs, parent);
    LevelParts(cs, bs, parent, depth, stack);
    ChildrenOfUnique(cs, parent);
    FoldersOpenOnce(cs, bs, kids, depth, stack);
    var folders := FoldersLines(cs, bs, kids, depth, stack);
    var loose := if parent.None? then LinkLines(BookmarksIn(bs, ""), depth) else [];
    OpensOnceAppend(folders, loose);
  }

  lemma {:induction false} FoldersOpenOnce(cs: seq<Category>, bs: seq<Bookmark>, kids: seq<Category>, depth: nat,
                                           stack: seq<Category>)
    requires UniqueIds(cs) && UniqueIds(kids)
    requires forall c :: c in kids ==> c in cs && IsAncestry(cs, stack, c.parentId)
    ensures OpensOnce(FoldersLines(cs, bs, kids, depth, stack))
    ensures OpenedBelow(cs, FoldersLines(cs, bs, kids, depth, stack), stack, kids)
    decreases Remaining(cs, stack), 1, |kids|
  {
    if kids != [] {
      var n := |kids|;
      var front, k := kids[..n - 1], kids[n - 1];
      LastNotInFront(kids);
      FoldersOpenOnce(cs, bs, front, depth, stack);
      BlockOpensOnce(cs, bs, k, depth, stack);
      SiblingsApart(cs, stack, kids, FoldersLines(cs, bs, front, depth, stack), FolderBlock(cs, bs, k, depth, stack));
    }
  }

  /** The last of distinct-id folders is not among the others. */
  lemma LastNotInFront(kids: seq<Category>)
    requires UniqueIds(kids) && kids != []
    ensures UniqueIds(kids[..|kids| - 1]) && kids[|kids| - 1] !in kids[..|kids| - 1]
  {
    var n := |kids|;
    var front := kids[..n - 1];
    forall i | 0 <= i < n - 1 ensures front[i] != kids[n - 1] {
      assert front[i].id != kids[n - 1].id;
    }
  }

  /**
    The lines of the earlier siblings and the block of the last one open
    different folders, since every folder has one ancestry chain and it
    passes through one sibling only.
  */
  lemma SiblingsApart(cs: seq<Category>, stack: seq<Category>, kids: seq<Category>, a: seq<Line>, b: seq<Line>)
    requires UniqueIds(cs) && kids != [] && kids[|kids| - 1] !in kids[..|kids| - 1]
    requires OpensOnce(a) && OpenedBelow(cs, a, stack, kids[..|kids| - 1])
    requires OpensOnce(b) && OpenedBelow(cs, b, stack, [kids[|kids| - 1]])
    ensures OpensOnce(a + b) && OpenedBelow(cs, a + b, stack, kids)
  {
    var front, k := kids[..|kids| - 1], kids[|kids| - 1];
    forall l1, l2 | l1 in a && l2 in b && l1.FolderOpen? && l2.FolderOpen? ensures l1.folder != l2.folder {
      var s1 :| ChainThrough(cs, s1, stack, front, l1.folder);
      var s2 :| ChainThrough(cs, s2, stack, [k], l2.folder);
      ChainUnique(cs, s1, s2);
    }
    OpensOnceAppend(a, b);
    forall l | l in a + b && l.FolderOpen? ensures exists s :: ChainThrough(cs, s, stack, kids, l.folder) {
      if l in a {
        var s :| ChainThrough(cs, s, stack, front, l.folder);
        assert ChainThrough(cs, s, stack, kids, l.folder);
      } else {
        var s :| ChainThrough(cs, s, stack, [k], l.folder);
        assert ChainThrough(cs, s, stack, kids, l.folder);
      }
    }
  }

  lemma {:induction false} BlockOpensOnce(cs: seq<Category>, bs: seq<Bookmark>, c: Category, depth: nat,
                                          stack: seq<Category>)
    requires UniqueIds(cs) && c in cs && IsAncestry(cs, stack, c.parentId)
    ensures OpensOnce(FolderBlock(cs, bs, c, depth, stack))
    ensures OpenedBelow(cs, FolderBlock(cs, bs, c, depth, stack), stack, [c])
    decreases Remaining(cs, stack), 0, 0
  {
    ChildNotOnStack(cs, stack, c);
    FolderBlockParts(cs, bs, c, depth, stack);
    LevelOpensOnce(cs, bs, Some(c.id), depth + 1, stack + [c]);
    FolderApart(cs, stack, c, LinkLines(BookmarksIn(bs, c.id), depth + 1), LevelLines(cs, bs, Some(c.id), depth + 1, stack + [c]), depth);
  }

  /**
    A folder's block opens the folder itself once: the folders opened
    inside it have longer ancestry chains, so none of them is the folder.
  */
  lemma FolderApart(cs: seq<Category>, stack: seq<Category>, c: Category, links: seq<Line>, inner: seq<Line>, depth: nat)
    requires UniqueIds(cs) && IsAncestry(cs, stack + [c], Some(c.id))
    requires forall l :: l in links ==> l.Link?
    requires OpensOnce(inner) && OpenedBelow(cs, inner, stack + [c], ChildrenOf(cs, Some(c.id)))
    ensures var block := [FolderOpen(c, depth)] + links + inner + [FolderClose(depth)];
      OpensOnce(block) && OpenedBelow(cs, block, stack, [c])
  {
    var n := |stack|;
    forall l | l in inner && l.FolderOpen? ensures l.folder != c && exists s :: ChainThrough(cs, s, stack, [c], l.folder) {
      var s :| ChainThrough(cs, s, stack + [c], ChildrenOf(cs, Some(c.id)), l.folder);
      assert s[..n + 1] == stack + [c];
      assert s[..n] == s[..n + 1][..n] && s[n] == s[..n + 1][n];
      assert ChainThrough(cs, s, stack, [c], l.folder);
      ChainUnique(cs, s, stack + [c]);
    }
    var open, close := [FolderOpen(c, depth)], [FolderClose(depth)];
    assert forall i :: 0 <= i < |links| ==> links[i].Link?;
    OpensOnceAppend(open, links);
    OpensOnceAppend(open + links, inner);
    OpensOnceAppend(open + links + inner, close);
    assert ChainThrough(cs, stack + [c], stack, [c], c) by {
      assert (stack + [c])[..n] == stack;
    }
  }

  /**
    The export opens each category at most once: no two folder openings
    are for the same category.
  */
  lemma ExportOpensOnce(cs: seq<Category>, bs: seq<Bookmark>)
    requires UniqueIds(cs)
    ensures var ls := ExportLines(cs, bs);
      forall i, j :: 0 <= i < j < |ls| && ls[i].FolderOpen? && ls[j].FolderOpen? ==> ls[i].folder != ls[j].folder
  {
    LevelOpensOnce(cs, bs, None, 0, []);
  }

  // ---------------------------------------------------------------------------
  // The encoder

  /** generateBookmarkHtml; `depth` stands for the `indent` string, which is always Indent(depth). */
  method GenerateBookmarkHtml(categories: seq<Category>, groups: map<string, seq<Bookmark>>, parentId: Option<string>,
                              depth: nat, ghost bookmarks: seq<Bookmark>, ghost stack: seq<Category>)
    returns (html: string)
    requires UniqueIds(categories) && IsAncestry(categories, stack, parentId)
    requires forall id :: Group(groups, id) == BookmarksIn(bookmarks, id)
    ensures html == Render(LevelLines(categories, bookmarks, parentId, depth, stack))
    decreases Remaining(categories, stack), 1
  {
    html := "";
    var kids := ChildrenOf(categories, parentId);
    LevelParts(categories, bookmarks, parentId, depth, stack);
    for k := 0 to |kids|
      invariant html == Render(FoldersLines(categories, bookmarks, kids[..k], depth, stack))
    {
      var block := FolderHtml(categories, groups, kids[k], depth, bookmarks, stack);
      RenderAppend(FoldersLines(categories, bookmarks, kids[..k], depth, stack), FolderBlock(categories, bookmarks, kids[k], depth, stack));
      html := html + block;
      FoldersLinesSnoc(categories, bookmarks, kids, k, depth, stack);
    }
    assert kids[..|kids|] == kids;
    ghost var folders := FoldersLines(categories, bookmarks, kids, depth, stack);
    if parentId.None? {
      var loose := LinksHtml(Group(groups, ""), depth);
      RenderAppend(folders, LinkLines(Group(groups, ""), depth));
      html := html + loose;
    } else {
      assert folders + [] == folders;
    }
  }

  /** The `forEach` callback of generateBookmarkHtml for one folder: heading, its bookmarks, its sub-folders, closing. */
  method FolderHtml(categories: seq<Category>, groups: map<string, seq<Bookmark>>, category: Category,
                    depth: nat, ghost bookmarks: seq<Bookmark>, ghost stack: seq<Category>)
    returns (html: string)
    requires UniqueIds(categories) && category in categories && IsAncestry(categories, stack, category.parentId)
    requires forall id :: Group(groups, id) == BookmarksIn(bookmarks, id)
    ensures html == Render(FolderBlock(categories, bookmarks, category, depth, stack))
    decreases Remaining(categories, stack), 0
  {
    ChildNotOnStack(categories, stack, category);
    FolderBlockParts(categories, bookmarks, category, depth, stack);
    var indent := Indent(depth);
    html := "";
    html := html + (indent + "<DT><H3>" + EscapeHtml(category.name) + "</H3>\n");
    html := html + (indent + "<DL><p>\n");
    ghost var lines := [FolderOpen(category, depth)];
    assert html == Render(lines) by {
      RenderSnoc([], FolderOpen(category, depth));
      OpenText(category, depth, "");
    }
    var categoryBookmarks := Group(groups, category.id);
    var links := LinksHtml(categoryBookmarks, depth + 1);
    RenderAppend(lines, LinkLines(categoryBookmarks, depth + 1));
    html := html + links;
    lines := lines + LinkLines(categoryBookmarks, depth + 1);
    ghost var inner := LevelLines(categories, bookmarks, Some(category.id), depth + 1, stack + [category]);
    var sub := GenerateBookmarkHtml(categories, groups, Some(category.id), depth + 1, bookmarks, stack + [category]);
    RenderAppend(lines, inner);
    html := html + sub;
    lines := lines + inner;
    RenderSnoc(lines, FolderClose(depth));
    html := html + (indent + "</DL><p>\n");
  }

  /** The bookmark `forEach` loops: one `<DT><A HREF=...>` line per bookmark at `depth`. */
  method LinksHtml(bs: seq<Bookmark>, depth: nat) returns (html: string)
    ensures html == Render(LinkLines(bs, depth))
  {
    var indent := Indent(depth);
    html := "";
    for j := 0 to |bs|
      invariant html == Render(LinkLines(bs[..j], depth))
    {
      var bookmark := bs[j];
      ghost var h := html;
      html := html + (indent + "<DT><A HREF=\"" + EscapeHtml(bookmark.url) + "\">" + EscapeHtml(bookmark.title) + "</A>\n");
      assert html == h + RenderLine(Link(bookmark, depth));
      RenderLinkStep([], bs, j, depth);
      assert [] + LinkLines(bs[..j], depth) == LinkLines(bs[..j], depth);
      assert [] + LinkLines(bs[..j + 1], depth) == LinkLines(bs[..j + 1], depth);
    }
    assert bs[..|bs|] == bs;
  }

  lemma FolderBlockParts(cs: seq<Category>, bs: seq<Bookmark>, c: Category, depth: nat, stack: seq<Category>)
    requires UniqueIds(cs) && c in cs && IsAncestry(cs, stack, c.parentId)
    ensures IsAncestry(cs, stack + [c], Some(c.id))
    ensures FolderBlock(cs, bs, c, depth, stack)
      == [FolderOpen(c, depth)] + LinkLines(BookmarksIn(bs, c.id), depth + 1)
         + LevelLines(cs, bs, Some(c.id), depth + 1, stack + [c]) + [FolderClose(depth)]
  {
    ChildNotOnStack(cs, stack, c);
  }

  /** The two template lines of a folder heading are the text of its opening line. */
  lemma OpenText(c: Category, depth: nat, h: string)
    ensures h + (Indent(depth) + "<DT><H3>" + EscapeHtml(c.name) + "</H3>\n") + (Indent(depth) + "<DL><p>\n")
      == h + RenderLine(FolderOpen(c, depth))
  {
  }

  /** One more link line appends its text. */
  lemma RenderLinkStep(lines: seq<Line>, bs: seq<Bookmark>, j: nat, depth: nat)
    requires j < |bs|
    ensures Render(lines + LinkLines(bs[..j + 1], depth))
      == Render(lines + LinkLines(bs[..j], depth)) + RenderLine(Link(bs[j], depth))
  {
    assert bs[..j + 1][..j] == bs[..j];
    var pre := LinkLines(bs[..j], depth);
    assert LinkLines(bs[..j + 1], depth) == pre + [Link(bs[j], depth)];
    assert lines + (pre + [Link(bs[j], depth)]) == (lines + pre) + [Link(bs[j], depth)];
    RenderSnoc(lines + pre, Link(bs[j], depth));
  }

  lemma FoldersLinesSnoc(cs: seq<Category>, bs: seq<Bookmark>, kids: seq<Category>, k: nat, depth: nat, stack: seq<Category>)
    requires UniqueIds(cs) && k < |kids|
    requires forall c :: c in kids ==> c in cs && IsAncestry(cs, stack, c.parentId)
    ensures FoldersLines(cs, bs, kids[..k + 1], depth, stack)
      == FoldersLines(cs, bs, kids[..k], depth, stack) + FolderBlock(cs, bs, kids[k], depth, stack)
  {
    assert kids[..k + 1][..k] == kids[..k];
  }

  /** exportBookmarksToHtml: preamble, the top level of the tree, closing. */
  method ExportBookmarksToHtml(bookmarks: seq<Bookmark>, categories: seq<Category>) returns (html: string)
    requires UniqueIds(categories)
    ensures html == Preamble + Render(ExportLines(categories, bookmarks)) + Closing
  {
    var bookmarksByCategory := GroupByCategory(bookmarks);
    var body := GenerateBookmarkHtml(categories, bookmarksByCategory, None, 0, bookmarks, []);
    html := Preamble + body + Closing;
  }
}
