/**
 A machine with irregular masks: cutting shifts a piece's bits on without cutting them back to
 the node they are a piece of, so that a child can have a processor its parent has not.
 */
module HwIrregular {
  import opened HwMask
  import opened HwTree
  import opened HwView
  import opened HwViewTheorems
  import opened PackedTree
  import opened Sealing
  import opened TreeSpans

  const GROUP_MASK: Mask := {0, 1, 3, 4}

  /** One group of four processors in a width of eight; only the last of them is to be used. */
  const SPLIT: seq<Info> := [Info(GROUP_MASK, {4}, 8, 4, 1)]

  // ---- cutting small masks -----------------------------------------------------------

  predicate BeginsAt(m: Mask, w: nat, b: nat) {
    b in m && (b < w || b - w !in m)
  }

  ghost predicate IsFirst(m: Mask, w: nat, f: Mask) {
    forall b: nat :: b in f <==> BeginsAt(m, w, b)
  }

  predicate IsShifted(f: Mask, w: nat, g: Mask) {
    forall b: nat :: b < 64 ==> (b in g <==> w <= b && b - w in f)
  }

  lemma FirstIs(m: Mask, w: nat, f: Mask)
    requires 1 <= w < 64 && IsFirst(m, w, f)
    ensures First(m, w) == f
  {
    forall b: nat ensures b in First(m, w) <==> b in f {
      FirstBit(m, w, b);
    }
  }

  lemma FirstBit(m: Mask, w: nat, b: nat)
    requires 1 <= w < 64
    ensures b in First(m, w) <==> BeginsAt(m, w, b)
  {
    ShlBits(Not(m), w, b);
    if w <= b < 64 {
      var c: nat := b - w;
      assert c in Not(m) <==> c !in m;
      assert b !in WidthMask(w);
    } else if b < 64 {
      assert Within(b, 0, w);
    }
  }

  lemma ShiftedIs(f: Mask, w: nat, g: Mask)
    requires 1 <= w < 64 && IsShifted(f, w, g)
    ensures Shl(f, w) == g
  {
    forall b: nat ensures b in Shl(f, w) <==> b in g {
      ShlBits(f, w, b);
    }
  }

  /** A mask that is used up in one round. */
  lemma OnePiece(m: Mask, w: nat)
    requires 1 <= w < 64 && m != {} && IsFirst(m, w, m)
    ensures PieceCount(m, w) == 1 && Piece(m, w, 0) == m
  {
    FirstIs(m, w, m);
    assert Rest(m, w, 1) == m - m == {};
    assert CountFrom(m, w, 1) == 1;
  }

  /** A mask that is used up in two. */
  lemma TwoPieces(m: Mask, w: nat, f: Mask, g: Mask, b: nat)
    requires 1 <= w < 64 && IsFirst(m, w, f) && IsShifted(f, w, g) && b in m && b !in f && m - f - g == {}
    ensures PieceCount(m, w) == 2 && Piece(m, w, 0) == f && Piece(m, w, 1) == g
  {
    FirstIs(m, w, f);
    ShiftedIs(f, w, g);
    assert b in m - f;
    assert Rest(m, w, 1) == m - f;
    assert Rest(m, w, 2) == m - f - g;
    assert CountFrom(m, w, 2) == 2;
    assert CountFrom(m, w, 1) == 2;
  }

  lemma GroupPieces()
    ensures PieceCount(GROUP_MASK, 4) == 2 && Piece(GROUP_MASK, 4, 0) == {0, 1, 3} && Piece(GROUP_MASK, 4, 1) == {4, 5, 7}
  {
    TwoPieces(GROUP_MASK, 4, {0, 1, 3}, {4, 5, 7}, 4);
  }

  lemma LowPieces()
    ensures PieceCount({0, 1, 3}, 1) == 2 && Piece({0, 1, 3}, 1, 0) == {0, 3} && Piece({0, 1, 3}, 1, 1) == {1, 4}
  {
    TwoPieces({0, 1, 3}, 1, {0, 3}, {1, 4}, 1);
  }

  lemma HighPieces()
    ensures PieceCount({4, 5, 7}, 1) == 2 && Piece({4, 5, 7}, 1, 0) == {4, 7} && Piece({4, 5, 7}, 1, 1) == {5, 8}
  {
    TwoPieces({4, 5, 7}, 1, {4, 7}, {5, 8}, 5);
  }

  /** Two processors that are no neighbours are one piece of width 1. */
  lemma Apart(a: nat, b: nat, m: Mask)
    requires a + 1 < b < 64 && m == {a, b}
    ensures PieceCount(m, 1) == 1
  {
    assert a in m;
    OnePiece(m, 1);
  }

  // ---- the tree ----------------------------------------------------------------------

  lemma SplitOk()
    ensures SummaryOk(SPLIT)
  {
    assert 0 in GROUP_MASK;
  }

  /** The nodes that the masks of the machine call for. */
  lemma Counts()
    ensures SummaryOk(SPLIT) && Fits(SPLIT)
  {
    SplitOk();
    var cut := CutOf(SPLIT);
    CutIsCut(cut);
    GroupCount(cut);
    NeedsAre();
    forall d | MACHINE < d < 5 ensures NodeCount(SPLIT, d) <= Needs(SPLIT)[d] {
      NodesOfGroup(cut, d);
    }
  }

  lemma NeedsAre()
    ensures SummaryOk(SPLIT) && Needs(SPLIT) == [1, 1, 2, 8, 8]
  {
    SplitOk();
    NeedOf(NUMA, 2);
    NeedOf(PCORE, 8);
    NeedOf(LCORE, 8);
  }

  lemma NeedOf(level: nat, n: nat)
    requires SummaryOk(SPLIT) && n == GroupNeeds(SPLIT[0], level)
    ensures NeedsUpTo(SPLIT, level, |SPLIT|) == n
  {
    assert NeedsUpTo(SPLIT, level, 0) == 0;
  }

  lemma NodesOfGroup(cut: Cut, d: nat)
    requires SummaryOk(SPLIT) && cut == CutOf(SPLIT) && MACHINE < d < 5
    ensures NodeCount(SPLIT, d) == Count(cut, Affinity(0, GROUP_MASK), GROUP, d)
  {
    assert cut.child(MACHINE, HostId(SELF), 0) == Affinity(0, GROUP_MASK);
    assert CountUpTo(cut, HostId(SELF), MACHINE, d, 0) == 0;
  }

  lemma CutIsCut(cut: Cut)
    requires SummaryOk(SPLIT) && cut == CutOf(SPLIT)
    ensures IsCut(cut, SPLIT) == true
  {
  }

  lemma Masks(cut: Cut, d: nat, m: Mask, k: nat)
    requires SummaryOk(SPLIT) && IsCut(cut, SPLIT) == true && GROUP <= d <= PCORE
    ensures cut.count(d, Affinity(0, m)) == PieceCount(m, if d == GROUP then 4 else 1)
    ensures cut.child(d, Affinity(0, m), k) == Affinity(0, Piece(m, if d == GROUP then 4 else 1, k))
  {
    CutMasks(cut, SPLIT, d, 0, m, k);
  }

  lemma CoreCount(cut: Cut, a: nat, b: nat, m: Mask, d: nat)
    requires SummaryOk(SPLIT) && IsCut(cut, SPLIT) == true && PCORE <= d <= LCORE && a + 1 < b < 64 && m == {a, b}
    ensures Count(cut, Affinity(0, m), PCORE, d) == 1
  {
    Apart(a, b, m);
    Masks(cut, PCORE, m, 0);
    if d == LCORE {
      assert CountUpTo(cut, Affinity(0, m), PCORE, LCORE, 0) == 0;
      assert CountUpTo(cut, Affinity(0, m), PCORE, LCORE, 1) == 1;
    }
  }

  /** Two pieces, of which each has as many nodes. */
  lemma TwoOf(cut: Cut, x: Tag, level: nat, d: nat, y: Tag, z: Tag, n: nat)
    requires level < d && cut.count(level, x) == 2 && cut.child(level, x, 0) == y && cut.child(level, x, 1) == z
    requires Count(cut, y, level + 1, d) == n && Count(cut, z, level + 1, d) == n
    ensures Count(cut, x, level, d) == 2 * n
  {
    assert CountUpTo(cut, x, level, d, 0) == 0;
    assert CountUpTo(cut, x, level, d, 1) == n;
    assert CountUpTo(cut, x, level, d, 2) == 2 * n;
  }

  lemma NumaCount(cut: Cut, d: nat)
    requires SummaryOk(SPLIT) && IsCut(cut, SPLIT) == true && NUMA <= d <= LCORE
    ensures Count(cut, Affinity(0, {0, 1, 3}), NUMA, d) == Count(cut, Affinity(0, {4, 5, 7}), NUMA, d)
            == if d == NUMA then 1 else 2
  {
    LowPieces();
    HighPieces();
    if NUMA < d {
      Masks(cut, NUMA, {0, 1, 3}, 0);
      Masks(cut, NUMA, {0, 1, 3}, 1);
      CoreCount(cut, 0, 3, {0, 3}, d);
      CoreCount(cut, 1, 4, {1, 4}, d);
      TwoOf(cut, Affinity(0, {0, 1, 3}), NUMA, d, Affinity(0, {0, 3}), Affinity(0, {1, 4}), 1);
      Masks(cut, NUMA, {4, 5, 7}, 0);
      Masks(cut, NUMA, {4, 5, 7}, 1);
      CoreCount(cut, 4, 7, {4, 7}, d);
      CoreCount(cut, 5, 8, {5, 8}, d);
      TwoOf(cut, Affinity(0, {4, 5, 7}), NUMA, d, Affinity(0, {4, 7}), Affinity(0, {5, 8}), 1);
    }
  }

  lemma GroupCount(cut: Cut)
    requires SummaryOk(SPLIT) && IsCut(cut, SPLIT) == true
    ensures forall d :: GROUP <= d <= LCORE ==>
      (Count(cut, Affinity(0, GROUP_MASK), GROUP, d) == if d == GROUP then 1 else if d == NUMA then 2 else 4)
  {
    GroupPieces();
    forall d: nat | GROUP < d <= LCORE
      ensures Count(cut, Affinity(0, GROUP_MASK), GROUP, d) == if d == NUMA then 2 else 4
    {
      Masks(cut, GROUP, GROUP_MASK, 0);
      Masks(cut, GROUP, GROUP_MASK, 1);
      NumaCount(cut, d);
      TwoOf(cut, Affinity(0, GROUP_MASK), GROUP, d, Affinity(0, {0, 1, 3}), Affinity(0, {4, 5, 7}), if d == NUMA then 1 else 2);
    }
  }

  /**
   Its tree can be built, and in it a core that is to be used hangs below a node that is not: the
   view leaves it out.
   */
  lemma ActiveButHidden(tree: seq<Node>, ts: Levels, te: Levels) returns (p: nat, c: nat)
    requires SummaryOk(SPLIT) && TreeOk(tree, SPLIT, ts, te) == true
    ensures Fits(SPLIT) && At(ts, te, NUMA, p) && At(ts, te, PCORE, c) && c < |tree| && tree[c].parent == p
    ensures !Active(tree, SPLIT, p) && Active(tree, SPLIT, c) && !Visible(tree, SPLIT, PCORE, c)
  {
    Counts();
    TreeIsGiven(tree, SPLIT, ts, te);
    var cut := CutOf(SPLIT);
    CutIsCut(cut);
    p := FirstNuma(tree, cut, ts, te);
    c := SecondCore(tree, cut, ts, te, p);
    assert tree[p].tag.mask * {4} == {};
    assert 4 in tree[c].tag.mask * {4};
  }

  lemma FirstNuma(tree: seq<Node>, cut: Cut, ts: Levels, te: Levels) returns (p: nat)
    requires Given(tree, SPLIT, ts, te) == true && SummaryOk(SPLIT) && IsCut(cut, SPLIT) == true && cut == CutOf(SPLIT)
    ensures At(ts, te, NUMA, p) && p < |tree| && tree[p].tag == Affinity(0, {0, 1, 3})
  {
    GroupPieces();
    TreeGroups(tree, SPLIT, ts, te);
    GroupIsChild(SPLIT, cut, 0);
    ChildTag(tree, cut, SELF, ts[GROUP], te[GROUP], 0);
    var g := ts[GROUP];
    TiledNode(tree, cut, ts, te, GROUP, g);
    Masks(cut, GROUP, GROUP_MASK, 0);
    ChildTag(tree, cut, g, tree[g].first, tree[g].last + 1, 0);
    p := tree[g].first;
  }

  lemma SecondCore(tree: seq<Node>, cut: Cut, ts: Levels, te: Levels, p: nat) returns (c: nat)
    requires Given(tree, SPLIT, ts, te) == true && SummaryOk(SPLIT) && IsCut(cut, SPLIT) == true && cut == CutOf(SPLIT)
    requires At(ts, te, NUMA, p) && p < |tree| && tree[p].tag == Affinity(0, {0, 1, 3})
    ensures At(ts, te, PCORE, c) && c < |tree| && tree[c].parent == p && tree[c].tag == Affinity(0, {1, 4})
  {
    LowPieces();
    TiledNode(tree, cut, ts, te, NUMA, p);
    Masks(cut, NUMA, {0, 1, 3}, 1);
    ChildTag(tree, cut, p, tree[p].first, tree[p].last + 1, 1);
    c := tree[p].first + 1;
    assert ChildOk(tree, cut, p, tree[p].first, tree[p].last + 1, c);
  }
}
