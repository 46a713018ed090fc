/**
 The hardware tree of one machine, built by cutting each node's mask into the masks of its
 children (hwtree.cpp).
 */
module HwTree {
  import opened HwMask
  import opened PackedTree
  import opened Sealing

  /** HWINFO of one processor group; the group's number is its place in the summary. */
  datatype Info = Info(mask: Mask, active: Mask, groupWidth: nat, numaWidth: nat, pcoreWidth: nat)

  predicate InfoOk(info: Info) {
    info.mask != {} && 1 <= info.numaWidth <= 64 && 1 <= info.pcoreWidth <= 64 && info.groupWidth < 256
  }

  predicate SummaryOk(infos: seq<Info>) {
    0 < |infos| <= 256 && forall g :: 0 <= g < |infos| ==> InfoOk(infos[g])
  }

  /** The width of the pieces a node of this level is cut into. */
  function Width(info: Info, level: int): (w: nat)
    requires GROUP <= level <= PCORE && InfoOk(info)
    ensures 1 <= w <= 64
  {
    if level == GROUP then info.numaWidth else if level == NUMA then info.pcoreWidth else 1
  }

  ghost function ChildCount(infos: seq<Info>, level: int, x: Tag): nat
    requires SummaryOk(infos)
  {
    match x
    case Affinity(g, m) => if GROUP <= level <= PCORE && g < |infos| then PieceCount(m, Width(infos[g], level)) else 0
    case _ => |infos|
  }

  ghost function Child(infos: seq<Info>, level: int, x: Tag, k: nat): Tag
    requires SummaryOk(infos)
  {
    match x
    case Affinity(g, m) => Affinity(g, if GROUP <= level <= PCORE && g < |infos| then Piece(m, Width(infos[g], level), k) else {})
    case _ => Affinity(k, if k < |infos| then infos[k].mask else {})
  }

  /** A machine has the groups of the summary, any other node the pieces of its mask. */
  ghost function CutOf(infos: seq<Info>): Cut
    requires SummaryOk(infos)
  {
    Cut((level: int, x: Tag) => ChildCount(infos, level, x), (level: int, x: Tag, k: nat) => Child(infos, level, x, k))
  }

  ghost predicate IsCut(cut: Cut, infos: seq<Info>)
    requires SummaryOk(infos)
  {
    forall z: int :: Key(Shape, 0, z) ==> cut == CutOf(infos)
  }

  /** A round the loop makes is one of the children the cut asks for... */
  lemma RoundIsChild(infos: seq<Info>, cut: Cut, level: nat, g: nat, m: Mask, k: nat, full: Mask, piece: Mask)
    requires SummaryOk(infos) == true && IsCut(cut, infos) && g < |infos| && GROUP <= level <= PCORE
    requires Cutting(m, Width(infos[g], level), k, full, piece) == true && full != {}
    ensures k < cut.count(level, Affinity(g, m)) && k < 64
    ensures cut.child(level, Affinity(g, m), k) == Affinity(g, piece)
    ensures Cutting(m, Width(infos[g], level), k + 1, full - piece, Shl(piece, Width(infos[g], level))) == true
  {
    assert Key(Shape, 0, 0);
    CuttingNext(m, Width(infos[g], level), k, full, piece);
  }

  /** ... and when nothing is left it has made them all. */
  lemma RoundsDone(infos: seq<Info>, cut: Cut, level: nat, g: nat, m: Mask, k: nat, full: Mask, piece: Mask)
    requires SummaryOk(infos) == true && IsCut(cut, infos) && g < |infos| && GROUP <= level <= PCORE
    requires Cutting(m, Width(infos[g], level), k, full, piece) == true && full == {}
    ensures k == cut.count(level, Affinity(g, m))
  {
    assert Key(Shape, 0, 0);
    CuttingEnds(m, Width(infos[g], level), k, full, piece);
  }

  // The ghost parameter r of the methods below is where the builder will stand in the end.

  /** One round of the loop over the children: initialize the node, fill it, advance. */
  method PlaceChild(b: Builder, infos: seq<Info>, ghost cut: Cut, level: nat, g: nat, piece: Mask, last: nat,
                    ghost x: Tag, ghost k: nat, ghost r: Fill) returns (ok: bool)
    requires b.Valid() == true && SummaryOk(infos) == true && IsCut(cut, infos) && g < |infos| && level <= PCORE
    requires b.strides[level] < b.ends[level] && (last == NONE || last + 1 == b.strides[level + 1])
    requires k < cut.count(level, x) && cut.child(level, x, k) == Affinity(g, piece)
    requires FillsTo(cut, b.ends, level, x, k, last, b.nodes[..], b.strides, r) == true
    modifies b`strides, b`counts, b.nodes
    ensures b.Valid() == true && SameAbove(old(b.strides), b.strides, level) == true
    ensures ok ==> b.strides[level + 1] > 0
                   && FillsTo(cut, b.ends, level, x, k + 1, b.strides[level + 1] - 1, b.nodes[..], b.strides, r) == true
    ensures !ok ==> r == Fill(b.nodes[..], b.strides, false)
    decreases LCORE - level, 0
  {
    var l := level + 1;
    ghost var ns, s, y := b.nodes[..], b.strides, Affinity(g, piece);
    ok := b.Open(level, last, Affinity(g, piece));
    if !ok {
      FillsNot(cut, b.ends, level, x, k, last, ns, s, r);
      return;
    }
    ok := FillChild(b, infos, cut, l, g, piece, FillingChild(cut, b.ends, l, y, b.nodes[..], b.strides));
    FillsNext(cut, b.ends, level, x, k, last, ns, s, y, Fill(b.nodes[..], b.strides, ok), r);
    if ok {
      b.Advance(l);
    }
  }

  /** What a level's initializer calls for the node it has just initialized: the next level's, if there is one. */
  method FillChild(b: Builder, infos: seq<Info>, ghost cut: Cut, level: nat, g: nat, piece: Mask, ghost c: Fill) returns (ok: bool)
    requires b.Valid() == true && SummaryOk(infos) == true && IsCut(cut, infos) && g < |infos| && GROUP <= level <= LCORE
    requires b.strides[level] < b.ends[level]
    requires ChildFillsTo(cut, b.ends, level, Affinity(g, piece), b.nodes[..], b.strides, c) == true
    modifies b`strides, b`counts, b.nodes
    ensures b.Valid() == true && SameAbove(old(b.strides), b.strides, level) == true
    ensures ChildFillsTo(cut, b.ends, level, Affinity(g, piece), old(b.nodes[..]), old(b.strides), Fill(b.nodes[..], b.strides, ok)) == true
    decreases LCORE - level, 2
  {
    FillsChild(cut, b.ends, level, Affinity(g, piece), b.nodes[..], b.strides, c);
    ok := true;
    if level < LCORE {
      ok := InitializeBelow(b, infos, cut, level, g, piece, c);
    }
  }

  /**
   HwTreeInitializeNuma, HwTreeInitializePcores and HwTreeInitializeLCores: the three have
   one body, with the level and the width of its pieces as parameters. The node at the
   current stride of `level` gets its children.
   */
  method InitializeBelow(b: Builder, infos: seq<Info>, ghost cut: Cut, level: nat, g: nat, mask: Mask, ghost r: Fill) returns (ok: bool)
    requires b.Valid() == true && SummaryOk(infos) == true && IsCut(cut, infos) && g < |infos| && GROUP <= level <= PCORE
    requires b.strides[level] < b.ends[level]
    requires FillsTo(cut, b.ends, level, Affinity(g, mask), 0, NONE, b.nodes[..], b.strides, r) == true
    modifies b`strides, b`counts, b.nodes
    ensures b.Valid() == true && SameAbove(old(b.strides), b.strides, level) == true
    ensures r == Fill(b.nodes[..], b.strides, ok)
    decreases LCORE - level, 1
  {
    var w := Width(infos[g], level);
    ghost var x, k := Affinity(g, mask), 0;
    var last, full, piece := NONE, mask, First(mask, w);
    CuttingBegins(mask, w);
    while full != {}
      invariant b.Valid() == true && SameAbove(old(b.strides), b.strides, level) == true
      invariant last == NONE || last + 1 == b.strides[level + 1]
      invariant Cutting(mask, w, k, full, piece) == true
      invariant FillsTo(cut, b.ends, level, x, k, last, b.nodes[..], b.strides, r) == true
      decreases 64 - k
    {
      RoundIsChild(infos, cut, level, g, mask, k, full, piece);
      ok := PlaceChild(b, infos, cut, level, g, piece, last, x, k, r);
      if !ok {
        return;
      }
      last := b.strides[level + 1] - 1;
      full := full - piece;
      piece := Shl(piece, w);
      k := k + 1;
    }
    RoundsDone(infos, cut, level, g, mask, k, full, piece);
    FillsAll(cut, b.ends, level, x, k, last, b.nodes[..], b.strides, r);
    ok := true;
  }

  // ---- the whole tree ----------------------------------------------------------------

  const SELF: nat := 1
  const HEADER_BYTES: nat := 40
  const NODE_BYTES: nat := 40

  /** How many nodes of a level HwTreeCalculateNodeCounts expects below one group. */
  function GroupNeeds(info: Info, level: nat): nat
    requires InfoOk(info)
  {
    if level == NUMA then info.groupWidth / info.numaWidth
    else if level == PCORE then info.groupWidth / info.pcoreWidth
    else info.groupWidth
  }

  function NeedsUpTo(infos: seq<Info>, level: nat, n: nat): (r: nat)
    requires SummaryOk(infos) && n <= |infos|
    ensures r <= 255 * n
  {
    if n == 0 then 0 else NeedsUpTo(infos, level, n - 1) + Small(infos[n - 1], level)
  }

  function Small(info: Info, level: nat): (r: nat)
    requires InfoOk(info)
    ensures r == GroupNeeds(info, level) <= 255
  {
    DivideSmaller(info.groupWidth, info.numaWidth);
    DivideSmaller(info.groupWidth, info.pcoreWidth);
    GroupNeeds(info, level)
  }

  lemma DivideSmaller(n: nat, w: nat)
    requires 1 <= w
    ensures n / w <= n
  {
  }

  function Needs(infos: seq<Info>): Levels
    requires SummaryOk(infos)
  {
    [1, |infos|, NeedsUpTo(infos, NUMA, |infos|), NeedsUpTo(infos, PCORE, |infos|), NeedsUpTo(infos, LCORE, |infos|)]
  }

  function StartsOf(needs: Levels): Levels {
    var g := 1 + needs[0];
    var n := g + needs[1];
    var p := n + needs[2];
    [1, g, n, p, p + needs[3]]
  }

  function EndsOf(needs: Levels): Levels {
    var s := StartsOf(needs);
    [s[1], s[2], s[3], s[4], s[4] + needs[4]]
  }

  /** The nodes that fit into a buffer of cb bytes. */
  function Capacity(cb: nat): nat {
    if cb < HEADER_BYTES then 0 else (cb - HEADER_BYTES) / NODE_BYTES
  }

  method CalculateNodeCounts(infos: seq<Info>) returns (needs: Levels, total: nat)
    requires SummaryOk(infos)
    ensures needs == Needs(infos) && total == EndsOf(needs)[LCORE] <= 200_000
  {
    var numas, pcores, lcores := 0, 0, 0;
    for i := 0 to |infos|
      invariant numas == NeedsUpTo(infos, NUMA, i) && pcores == NeedsUpTo(infos, PCORE, i)
      invariant lcores == NeedsUpTo(infos, LCORE, i)
    {
      numas := numas + infos[i].groupWidth / infos[i].numaWidth;
      pcores := pcores + infos[i].groupWidth / infos[i].pcoreWidth;
      lcores := lcores + infos[i].groupWidth;
    }
    needs := [1, |infos|, numas, pcores, lcores];
    total := 1 + 1 + |infos| + numas + pcores + lcores;
  }

  lemma GroupIsChild(infos: seq<Info>, cut: Cut, i: nat)
    requires SummaryOk(infos) == true && IsCut(cut, infos)
    ensures cut.count(MACHINE, HostId(SELF)) == |infos|
    ensures i < |infos| ==> cut.child(MACHINE, HostId(SELF), i) == Affinity(i, infos[i].mask)
  {
    assert Key(Shape, 0, 0);
  }

  /** The loop of HwTreeInitializeGroups: a child of the machine for every group of the summary. */
  method PlaceGroups(b: Builder, infos: seq<Info>, ghost cut: Cut, ghost r: Fill) returns (ok: bool)
    requires b.Valid() == true && SummaryOk(infos) == true && IsCut(cut, infos) && b.strides[MACHINE] < b.ends[MACHINE]
    requires FillsTo(cut, b.ends, MACHINE, HostId(SELF), 0, NONE, b.nodes[..], b.strides, r) == true
    modifies b`strides, b`counts, b.nodes
    ensures b.Valid() == true && SameAbove(old(b.strides), b.strides, MACHINE) == true
    ensures r == Fill(b.nodes[..], b.strides, ok)
  {
    var last := NONE;
    for i := 0 to |infos|
      invariant b.Valid() == true && SameAbove(old(b.strides), b.strides, MACHINE) == true
      invariant last == NONE || last + 1 == b.strides[GROUP]
      invariant FillsTo(cut, b.ends, MACHINE, HostId(SELF), i, last, b.nodes[..], b.strides, r) == true
    {
      GroupIsChild(infos, cut, i);
      ok := PlaceChild(b, infos, cut, MACHINE, i, infos[i].mask, last, HostId(SELF), i, r);
      if !ok {
        return;
      }
      last := b.strides[GROUP] - 1;
    }
    GroupIsChild(infos, cut, |infos|);
    FillsAll(cut, b.ends, MACHINE, HostId(SELF), |infos|, last, b.nodes[..], b.strides, r);
    ok := true;
  }

  /** HwTreeInitializeGroups: the machine with all below it. */
  method InitializeGroups(b: Builder, infos: seq<Info>, ghost cut: Cut, ghost r: Fill) returns (ok: bool)
    requires b.Valid() == true && SummaryOk(infos) == true && IsCut(cut, infos) && b.strides[MACHINE] < b.ends[MACHINE]
    requires ChildFillsTo(cut, b.ends, MACHINE, HostId(SELF),
                          Linked(b.nodes[..], b.strides[MACHINE], MACHINE, WORLD, NONE, HostId(SELF)), b.strides, r) == true
    modifies b`strides, b`counts, b.nodes
    ensures b.Valid() == true && ok == r.ok && b.nodes[..] == r.ns
    ensures b.strides == if ok then r.s[MACHINE := r.s[MACHINE] + 1] else r.s
  {
    b.Inside(MACHINE);
    b.InitializeNode(b.strides[MACHINE], MACHINE, WORLD, NONE, HostId(SELF));
    FillsChild(cut, b.ends, MACHINE, HostId(SELF), b.nodes[..], b.strides, r);
    ok := PlaceGroups(b, infos, cut, r);
    if ok {
      b.Advance(MACHINE);
    }
  }

  // ---- HwTreeInitialize --------------------------------------------------------------

  /** How many nodes of a level the masks of the summary call for. */
  ghost function NodeCount(infos: seq<Info>, d: nat): nat
    requires SummaryOk(infos) && 0 < d
  {
    CountUpTo(CutOf(infos), HostId(SELF), MACHINE, d, |infos|)
  }

  ghost predicate Fits(infos: seq<Info>)
    requires SummaryOk(infos)
  {
    forall d :: MACHINE < d < 5 ==> NodeCount(infos, d) <= Needs(infos)[d]
  }

  /** The finished tree: the world's one child is the machine, with everything below it. */
  ghost predicate TreeOk(ns: seq<Node>, infos: seq<Info>, starts: Levels, s: Levels)
    requires SummaryOk(infos)
  {
    forall z: int :: Key(Whole, 0, z) ==>
      && 1 < |ns| <= NONE && s[MACHINE] == SELF + 1 && ns[WORLD].first == SELF && ns[WORLD].last == SELF
      && ns[SELF] == Node(MACHINE, WORLD, ns[SELF].first, ns[SELF].last, NONE, NONE, HostId(SELF))
      && starts[MACHINE] == SELF && Built(ns, CutOf(infos), MACHINE, starts, s)
      && forall d :: MACHINE < d < 5 ==> s[d] == starts[d] + NodeCount(infos, d)
  }

  /** The nodes of each level and their families... */
  lemma TreeLevel(ns: seq<Node>, infos: seq<Info>, starts: Levels, s: Levels, d: nat)
    requires SummaryOk(infos) && TreeOk(ns, infos, starts, s) == true && GROUP <= d <= PCORE
    ensures RangeOk(ns, CutOf(infos), d, starts[d], s[d], starts[d + 1], s[d + 1])
  {
    assert Key(Whole, 0, 0);
    assert LevelOk(ns, CutOf(infos), d, starts, s);
  }

  /** ... and the groups, below the machine. */
  lemma TreeGroups(ns: seq<Node>, infos: seq<Info>, starts: Levels, s: Levels)
    requires SummaryOk(infos) && TreeOk(ns, infos, starts, s) == true
    ensures starts[MACHINE] == SELF && FamilyOk(ns, CutOf(infos), SELF, starts[GROUP], s[GROUP])
    ensures ns[SELF].level == MACHINE && ns[SELF].tag == HostId(SELF) && s[GROUP] == starts[GROUP] + |infos|
  {
    assert Key(Whole, 0, 0);
  }

  /** Whatever the widths, every processor of a node is in one of its children. */
  lemma FamilyCovers(ns: seq<Node>, cut: Cut, infos: seq<Info>, d: nat, p: nat, g: nat, m: Mask, b: nat) returns (c: nat)
    requires SummaryOk(infos) == true && IsCut(cut, infos) == true && GROUP <= d <= PCORE && g < |infos| && b in m
    requires p < |ns| && ns[p].level == d && ns[p].tag == Affinity(g, m)
    requires FamilyOk(ns, cut, p, ns[p].first, ns[p].last + 1) == true
    ensures ns[p].first <= c <= ns[p].last && c < |ns| && ns[c].tag.Affinity? && ns[c].tag.group == g && b in ns[c].tag.mask
  {
    var k, piece := PieceOf(m, Width(infos[g], d), b);
    CutPiece(cut, infos, d, g, m, k, piece);
    ChildTag(ns, cut, p, ns[p].first, ns[p].last + 1, k);
    c := ns[p].first + k;
  }

  lemma CutMasks(cut: Cut, infos: seq<Info>, d: nat, g: nat, m: Mask, k: nat)
    requires SummaryOk(infos) && IsCut(cut, infos) == true && GROUP <= d <= PCORE && g < |infos|
    ensures cut.count(d, Affinity(g, m)) == PieceCount(m, Width(infos[g], d))
    ensures cut.child(d, Affinity(g, m), k) == Affinity(g, Piece(m, Width(infos[g], d), k))
  {
    assert Key(Shape, 0, 0);
  }

  lemma CutPiece(cut: Cut, infos: seq<Info>, d: nat, g: nat, m: Mask, k: nat, piece: Mask)
    requires SummaryOk(infos) && IsCut(cut, infos) == true && GROUP <= d <= PCORE && g < |infos|
    requires IsPiece(piece, m, Width(infos[g], d), k) == true
    ensures cut.count(d, Affinity(g, m)) == PieceCount(m, Width(infos[g], d))
    ensures cut.child(d, Affinity(g, m), k) == Affinity(g, piece)
  {
    assert Key(Bits, k, 0);
    CutMasks(cut, infos, d, g, m, k);
  }

  /** The k-th child stands for a piece of the mask, which is not empty. */
  lemma ChildPiece(cut: Cut, infos: seq<Info>, d: nat, g: nat, m: Mask, k: nat) returns (piece: Mask)
    requires SummaryOk(infos) == true && IsCut(cut, infos) == true && GROUP <= d <= PCORE && g < |infos| && m != {}
    requires k < cut.count(d, Affinity(g, m))
    ensures cut.child(d, Affinity(g, m), k) == Affinity(g, piece) && piece != {}
  {
    piece := Piece(m, Width(infos[g], d), k);
    CutMasks(cut, infos, d, g, m, k);
    PieceMeets(m, Width(infos[g], d), k);
  }

  /** Every node of the tree above the logical cores has children. */
  lemma {:induction false} TreeFertile(cut: Cut, infos: seq<Info>, level: nat, g: nat, m: Mask)
    requires SummaryOk(infos) == true && IsCut(cut, infos) == true && GROUP <= level <= LCORE && g < |infos| && m != {}
    ensures Fertile(cut, level, Affinity(g, m))
    decreases LCORE - level
  {
    if level < LCORE {
      var x, w := Affinity(g, m), Width(infos[g], level);
      CutMasks(cut, infos, level, g, m, 0);
      HasPieces(m, w);
      forall k: nat | k < cut.count(level, x) ensures Fertile(cut, level + 1, cut.child(level, x, k)) {
        var piece := ChildPiece(cut, infos, level, g, m, k);
        TreeFertile(cut, infos, level + 1, g, piece);
      }
    }
  }

  lemma MachineFertile(cut: Cut, infos: seq<Info>)
    requires SummaryOk(infos) && IsCut(cut, infos) == true
    ensures Fertile(cut, MACHINE, HostId(SELF))
  {
    GroupIsChild(infos, cut, 0);
    forall k: nat | k < cut.count(MACHINE, HostId(SELF)) ensures Fertile(cut, GROUP, cut.child(MACHINE, HostId(SELF), k)) {
      GroupIsChild(infos, cut, k);
      assert InfoOk(infos[k]);
      TreeFertile(cut, infos, GROUP, k, infos[k].mask);
    }
  }

  lemma NeedsSlices(infos: seq<Info>, n: nat)
    requires SummaryOk(infos) && EndsOf(Needs(infos))[LCORE] <= n <= NONE
    ensures var needs := Needs(infos);
            Bounded(StartsOf(needs), EndsOf(needs), StartsOf(needs), n) && StartsOf(needs)[MACHINE] < EndsOf(needs)[MACHINE]
  {
  }

  lemma RangesMoved(ns: seq<Node>, cut: Cut, starts: Levels, s: Levels, s': Levels)
    requires RangesOk(ns, cut, MACHINE, starts, s) == true && s' == s[MACHINE := s[MACHINE] + 1]
    ensures RangesOk(ns, cut, MACHINE, starts, s') == true
  {
    forall d | MACHINE < d < 4 ensures LevelOk(ns, cut, d, starts, s') {
      assert LevelOk(ns, cut, d, starts, s);
    }
  }

  /** Where the builder stands in the end, in terms of the summary. */
  lemma FilledTree(infos: seq<Info>, ns0: seq<Node>, ns: seq<Node>, starts: Levels, ends: Levels, r: Fill)
    requires SummaryOk(infos) == true && starts == StartsOf(Needs(infos)) && ends == EndsOf(Needs(infos))
    requires ends[LCORE] <= |ns0| <= NONE && ns == Linked(ns0, SELF, MACHINE, WORLD, NONE, HostId(SELF))
    requires ChildFillsTo(CutOf(infos), ends, MACHINE, HostId(SELF), ns, starts, r) == true
    ensures r.ok <==> Fits(infos)
    ensures r.ok ==> TreeOk(r.ns, infos, starts, r.s[MACHINE := r.s[MACHINE] + 1]) == true
  {
    var cut, x := CutOf(infos), HostId(SELF);
    NeedsSlices(infos, |ns0|);
    MachineFertile(cut, infos);
    FillingChildDone(cut, starts, ends, MACHINE, x, ns, starts, r);
    FilledFits(infos, ns, starts, ends, r);
    if r.ok {
      assert Key(Ends, MACHINE, 0);
      assert Settled(WORLD, starts, starts, MACHINE);
      RangesMoved(r.ns, cut, starts, r.s, r.s[MACHINE := r.s[MACHINE] + 1]);
    }
  }

  lemma FilledFits(infos: seq<Info>, ns: seq<Node>, starts: Levels, ends: Levels, r: Fill)
    requires SummaryOk(infos) == true && starts == StartsOf(Needs(infos)) && ends == EndsOf(Needs(infos))
    requires Bounded(starts, ends, r.s, |ns|) == true
    requires Filled(ns, r.ns, CutOf(infos), MACHINE, HostId(SELF), starts, ends, starts, r.s, r.ok) == true
    ensures r.ok <==> Fits(infos)
  {
    assert Key(Ends, MACHINE, 0);
    var cut, x := CutOf(infos), HostId(SELF);
    if r.ok {
      forall d | MACHINE < d < 5 ensures NodeCount(infos, d) <= Needs(infos)[d] {
        assert r.s[d] == starts[d] + CountUpTo(cut, x, MACHINE, d, |infos|);
        assert ends[d] == starts[d] + Needs(infos)[d];
      }
    } else {
      var d :| MACHINE < d < 5 && ends[d] < starts[d] + CountUpTo(cut, x, MACHINE, d, cut.count(MACHINE, x));
      assert NodeCount(infos, d) > Needs(infos)[d];
    }
  }

  datatype Result = Success | Unexpected | BufferTooSmall

  /**
   HwTreeInitialize, for a buffer of cb bytes that holds `nodes`. Returns the bytes used, or
   needed when they are too few.
   */
  method Initialize(infos: seq<Info>, cb: nat, nodes: array<Node>) returns (hr: Result, used: nat, b: Builder?)
    requires SummaryOk(infos) && nodes.Length == Capacity(cb) < NONE
    modifies nodes
    ensures used == HEADER_BYTES + NODE_BYTES * EndsOf(Needs(infos))[LCORE]
    ensures hr == BufferTooSmall <==> cb < used
    ensures hr == BufferTooSmall ==> nodes[..] == old(nodes[..])
    ensures cb >= used ==> (hr == Success <==> Fits(infos))
    ensures hr == Success ==> b != null && fresh(b) && b.nodes == nodes && b.Valid() == true
                              && b.starts == StartsOf(Needs(infos)) && TreeOk(nodes[..], infos, b.starts, b.strides) == true
  {
    var needs, total := CalculateNodeCounts(infos);
    used := HEADER_BYTES + NODE_BYTES * total;
    if cb < used {
      return BufferTooSmall, used, null;
    }
    NeedsSlices(infos, nodes.Length);
    b := new Builder(nodes, StartsOf(needs), EndsOf(needs));
    var ok := Build(b, infos);
    hr := if ok then Success else Unexpected;
  }

  /** The nodes themselves. */
  method Build(b: Builder, infos: seq<Info>) returns (ok: bool)
    requires b.Valid() == true && SummaryOk(infos) == true && b.strides == b.starts
    requires b.starts == StartsOf(Needs(infos)) && b.ends == EndsOf(Needs(infos)) && b.ends[LCORE] <= b.nodes.Length <= NONE
    modifies b`strides, b`counts, b.nodes
    ensures b.Valid() == true && (ok <==> Fits(infos))
    ensures ok ==> TreeOk(b.nodes[..], infos, b.starts, b.strides) == true
  {
    b.nodes[WORLD] := Node(-1, NONE, NONE, NONE, NONE, NONE, HostId(0));
    ghost var cut, ns0 := CutOf(infos), b.nodes[..];
    ghost var ns := Linked(ns0, SELF, MACHINE, WORLD, NONE, HostId(SELF));
    ghost var r := FillingChild(cut, b.ends, MACHINE, HostId(SELF), ns, b.strides);
    FilledTree(infos, ns0, ns, b.starts, b.ends, r);
    ok := InitializeGroups(b, infos, cut, r);
  }
}
