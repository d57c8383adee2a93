/**
 * The table of contents: the chapter forest flattened, by `renderChapter` and the top-level
 * `chapters.map`, into one button row per chapter, in pre-order, each row with its depth and
 * its indent, current, badge and disabled flags.
 */
module TableOfContents {
  import opened Wrappers
  import opened Types
  import JsObject
  import ChapterSummaries

  /** What one chapter button shows and how it is styled. */
  datatype Row = Row(
    id: string,
    title: string,
    order: int,
    level: nat,
    indented: bool,
    current: bool,
    badge: bool,
    disabled: bool)

  /** The component's inputs besides the chapters: the current id, the summary marks, `loading`. */
  datatype Context = Context(currentId: Option<string>, marks: JsObject.Entries, loading: bool)

  /** The whole component: the header's chapter count and the rows. */
  datatype Toc = Toc(headerCount: nat, rows: seq<Row>)

  /** The button of one chapter at one depth. */
  function RowOf(c: Chapter, level: nat, ctx: Context): Row {
    Row(c.id, c.title, c.order, level,
        level > 0,
        ctx.currentId == Some(c.id),
        ChapterSummaries.Has(ctx.marks, c.id),
        ctx.loading)
  }

  /** `renderChapter(chapter, level)`: its own button, then its children one level deeper. */
  function ChapterRows(c: Chapter, level: nat, ctx: Context): (rows: seq<Row>)
    ensures |rows| == Size(c) && rows[0] == RowOf(c, level, ctx)
    decreases c, 1
  {
    [RowOf(c, level, ctx)] + ForestRows(c.children, level + 1, ctx)
  }

  /** `cs.map(child => renderChapter(child, level))`, concatenated. */
  function ForestRows(cs: seq<Chapter>, level: nat, ctx: Context): (rows: seq<Row>)
    ensures |rows| == ForestSize(cs)
    decreases cs, 0
  {
    if cs == [] then [] else ChapterRows(cs[0], level, ctx) + ForestRows(cs[1..], level, ctx)
  }

  /**
   * The component: the header counts the top-level chapters, and the list holds one button per
   * chapter of the whole forest, in pre-order, each carrying the flags its id and depth call for.
   */
  function Render(chapters: seq<Chapter>, ctx: Context): (t: Toc)
    ensures t.headerCount == |chapters|
    ensures |t.rows| == ForestSize(chapters)
    ensures IdsOf(t.rows) == ForestIds(chapters)
    ensures forall r :: r in t.rows ==> FlagsAgree(r, ctx)
  {
    var rows := ForestRows(chapters, 0, ctx);
    ForestRowIds(chapters, 0, ctx);
    ForestFlags(chapters, 0, ctx);
    Toc(|chapters|, rows)
  }

  // ---------------------------------------------------------------- reference definitions

  /** The number of chapters in a tree. */
  function Size(c: Chapter): nat
    decreases c, 1
  {
    1 + ForestSize(c.children)
  }

  function ForestSize(cs: seq<Chapter>): nat
    decreases cs, 0
  {
    if cs == [] then 0 else Size(cs[0]) + ForestSize(cs[1..])
  }

  /** The ids of a tree in pre-order: the node, then each child's tree in turn. */
  function TreeIds(c: Chapter): seq<string>
    decreases c, 1
  {
    [c.id] + ForestIds(c.children)
  }

  function ForestIds(cs: seq<Chapter>): seq<string>
    decreases cs, 0
  {
    if cs == [] then [] else TreeIds(cs[0]) + ForestIds(cs[1..])
  }

  function IdsOf(rows: seq<Row>): (ids: seq<string>)
    ensures |ids| == |rows| && forall i :: 0 <= i < |rows| ==> ids[i] == rows[i].id
  {
    seq(|rows|, i requires 0 <= i < |rows| => rows[i].id)
  }

  predicate NoDuplicates(s: seq<string>) {
    forall i, j :: 0 <= i < j < |s| ==> s[i] != s[j]
  }

  /** The flags a row must carry, read off its own id and level. */
  predicate FlagsAgree(r: Row, ctx: Context) {
    && r.indented == (r.level > 0)
    && r.current == (ctx.currentId == Some(r.id))
    && r.badge == ChapterSummaries.Has(ctx.marks, r.id)
    && r.disabled == ctx.loading
  }

  // ---------------------------------------------------------------- ids

  lemma IdsOfAppend(a: seq<Row>, b: seq<Row>)
    ensures IdsOf(a + b) == IdsOf(a) + IdsOf(b)
  {
  }

  /** The rows list the tree's ids in pre-order. */
  lemma {:induction false} TreeRowIds(c: Chapter, level: nat, ctx: Context)
    ensures IdsOf(ChapterRows(c, level, ctx)) == TreeIds(c)
    decreases c, 1
  {
    ForestRowIds(c.children, level + 1, ctx);
    IdsOfAppend([RowOf(c, level, ctx)], ForestRows(c.children, level + 1, ctx));
  }

  lemma {:induction false} ForestRowIds(cs: seq<Chapter>, level: nat, ctx: Context)
    ensures IdsOf(ForestRows(cs, level, ctx)) == ForestIds(cs)
    decreases cs, 0
  {
    if cs != [] {
      TreeRowIds(cs[0], level, ctx);
      ForestRowIds(cs[1..], level, ctx);
      IdsOfAppend(ChapterRows(cs[0], level, ctx), ForestRows(cs[1..], level, ctx));
    }
  }

  // ---------------------------------------------------------------- flags

  /** Every row is indented iff deeper than 0, current iff its id is the current one, badged iff marked. */
  lemma {:induction false} TreeFlags(c: Chapter, level: nat, ctx: Context)
    ensures forall r :: r in ChapterRows(c, level, ctx) ==> FlagsAgree(r, ctx)
    decreases c, 1
  {
    ForestFlags(c.children, level + 1, ctx);
  }

  lemma {:induction false} ForestFlags(cs: seq<Chapter>, level: nat, ctx: Context)
    ensures forall r :: r in ForestRows(cs, level, ctx) ==> FlagsAgree(r, ctx)
    decreases cs, 0
  {
    if cs != [] {
      TreeFlags(cs[0], level, ctx);
      ForestFlags(cs[1..], level, ctx);
    }
  }

  /** With pairwise distinct chapter ids, at most one row is highlighted as current. */
  lemma AtMostOneCurrent(chapters: seq<Chapter>, ctx: Context)
    requires NoDuplicates(ForestIds(chapters))
    ensures forall i, j :: 0 <= i < j < |Render(chapters, ctx).rows| ==>
      !(Render(chapters, ctx).rows[i].current && Render(chapters, ctx).rows[j].current)
  {
    var rows := ForestRows(chapters, 0, ctx);
    ForestFlags(chapters, 0, ctx);
    ForestRowIds(chapters, 0, ctx);
    forall i, j | 0 <= i < j < |rows| && rows[i].current
      ensures !rows[j].current
    {
      assert FlagsAgree(rows[i], ctx) && FlagsAgree(rows[j], ctx);
      assert IdsOf(rows)[i] != IdsOf(rows)[j];
    }
  }

  // ---------------------------------------------------------------- order and depth

  /** Every row of a forest rendered at `level` is at least that deep. */
  lemma {:induction false} ForestLevelsFrom(cs: seq<Chapter>, level: nat, ctx: Context)
    ensures forall r :: r in ForestRows(cs, level, ctx) ==> r.level >= level
    decreases cs, 0
  {
    if cs != [] {
      TreeLevelsFrom(cs[0], level, ctx);
      ForestLevelsFrom(cs[1..], level, ctx);
    }
  }

  /**
   * Pre-order: a chapter's block opens with its own row at its level, and every later row of
   * the block (its descendants) is strictly deeper.
   */
  lemma {:induction false} TreeLevelsFrom(c: Chapter, level: nat, ctx: Context)
    ensures ChapterRows(c, level, ctx)[0] == RowOf(c, level, ctx)
    ensures forall i :: 1 <= i < |ChapterRows(c, level, ctx)| ==> ChapterRows(c, level, ctx)[i].level > level
    ensures forall r :: r in ChapterRows(c, level, ctx) ==> r.level >= level
    decreases c, 1
  {
    var rows := ChapterRows(c, level, ctx);
    var below := ForestRows(c.children, level + 1, ctx);
    ForestLevelsFrom(c.children, level + 1, ctx);
    assert rows == [RowOf(c, level, ctx)] + below;
    forall i | 1 <= i < |rows| ensures rows[i].level > level {
      assert rows[i] == below[i - 1];
    }
  }

  /** Rendering a concatenation of sibling lists renders each in turn. */
  lemma {:induction false} ForestRowsAppend(a: seq<Chapter>, b: seq<Chapter>, level: nat, ctx: Context)
    ensures ForestRows(a + b, level, ctx) == ForestRows(a, level, ctx) + ForestRows(b, level, ctx)
    decreases |a|
  {
    if a == [] {
      assert a + b == b;
    } else {
      assert (a + b)[0] == a[0] && (a + b)[1..] == a[1..] + b;
      ForestRowsAppend(a[1..], b, level, ctx);
    }
  }

  /** The rows of a forest before the `i`-th sibling's block starts. */
  function Offset(cs: seq<Chapter>, i: nat, level: nat, ctx: Context): nat
    requires i <= |cs|
  {
    |ForestRows(cs[..i], level, ctx)|
  }

  /**
   * The `i`-th sibling's block sits at `Offset(cs, i)`: its rows are exactly the chapter's own
   * rendering, after those of every earlier sibling.
   */
  lemma SiblingBlock(cs: seq<Chapter>, i: nat, level: nat, ctx: Context)
    requires i < |cs|
    ensures ForestRows(cs, level, ctx) ==
      ForestRows(cs[..i], level, ctx) + ChapterRows(cs[i], level, ctx) + ForestRows(cs[i + 1..], level, ctx)
    ensures Offset(cs, i, level, ctx) < |ForestRows(cs, level, ctx)|
    ensures ForestRows(cs, level, ctx)[Offset(cs, i, level, ctx)] == RowOf(cs[i], level, ctx)
  {
    assert cs == cs[..i] + ([cs[i]] + cs[i + 1..]);
    ForestRowsAppend(cs[..i], [cs[i]] + cs[i + 1..], level, ctx);
    assert ([cs[i]] + cs[i + 1..])[1..] == cs[i + 1..];
  }

  /** Siblings come in array order: an earlier sibling's row, and its whole block, precede a later one's. */
  lemma SiblingsInOrder(cs: seq<Chapter>, i: nat, j: nat, level: nat, ctx: Context)
    requires i < j < |cs|
    ensures Offset(cs, i, level, ctx) + |ChapterRows(cs[i], level, ctx)| <= Offset(cs, j, level, ctx)
  {
    assert cs[..j] == cs[..i] + ([cs[i]] + cs[i + 1..j]);
    ForestRowsAppend(cs[..i], [cs[i]] + cs[i + 1..j], level, ctx);
    assert ([cs[i]] + cs[i + 1..j])[1..] == cs[i + 1..j];
  }

  /** The `j`-th child of a chapter is rendered one level deeper, at its place among the siblings. */
  lemma ChildOneLevelDeeper(c: Chapter, j: nat, level: nat, ctx: Context)
    requires j < |c.children|
    ensures 1 + Offset(c.children, j, level + 1, ctx) < |ChapterRows(c, level, ctx)|
    ensures ChapterRows(c, level, ctx)[1 + Offset(c.children, j, level + 1, ctx)] ==
      RowOf(c.children[j], level + 1, ctx)
  {
    SiblingBlock(c.children, j, level + 1, ctx);
  }

  /** Top-level chapters are rendered at level 0, in array order. */
  lemma RootsAtLevelZero(chapters: seq<Chapter>, i: nat, ctx: Context)
    requires i < |chapters|
    ensures Offset(chapters, i, 0, ctx) < |Render(chapters, ctx).rows|
    ensures Render(chapters, ctx).rows[Offset(chapters, i, 0, ctx)] == RowOf(chapters[i], 0, ctx)
    ensures !Render(chapters, ctx).rows[Offset(chapters, i, 0, ctx)].indented
  {
    SiblingBlock(chapters, i, 0, ctx);
  }

  // ---------------------------------------------------------------- the header count

  lemma {:induction false} ForestSizeAtLeastLength(cs: seq<Chapter>)
    ensures ForestSize(cs) >= |cs|
    ensures ForestSize(cs) == |cs| <==> forall k :: 0 <= k < |cs| ==> cs[k].children == []
  {
    if cs != [] {
      ForestSizeAtLeastLength(cs[1..]);
      ForestSizeAtLeastLength(cs[0].children);
      assert ForestSize(cs) == 1 + ForestSize(cs[0].children) + ForestSize(cs[1..]);
      if ForestSize(cs) == |cs| {
        assert cs[0].children == [];
        forall k | 0 <= k < |cs| ensures cs[k].children == [] {
          if k > 0 {
            assert cs[k] == cs[1..][k - 1];
          }
        }
      }
      if forall k :: 0 <= k < |cs| ==> cs[k].children == [] {
        assert forall k :: 0 <= k < |cs[1..]| ==> cs[1..][k].children == [] by {
          forall k | 0 <= k < |cs[1..]| ensures cs[1..][k].children == [] {
            assert cs[1..][k] == cs[k + 1];
          }
        }
      }
    }
  }

  /**
   * The header counts top-level chapters, not rows: never more than the rows, and equal to them
   * exactly when no chapter has children.
   */
  lemma HeaderCountsTopLevelOnly(chapters: seq<Chapter>, ctx: Context)
    ensures Render(chapters, ctx).headerCount <= |Render(chapters, ctx).rows|
    ensures Render(chapters, ctx).headerCount == |Render(chapters, ctx).rows| <==>
      forall k :: 0 <= k < |chapters| ==> chapters[k].children == []
  {
    ForestSizeAtLeastLength(chapters);
  }

  /** A chapter without children contributes exactly its own row. */
  lemma LeafIsOneRow(c: Chapter, level: nat, ctx: Context)
    requires c.children == []
    ensures ChapterRows(c, level, ctx) == [RowOf(c, level, ctx)]
  {
  }
}
