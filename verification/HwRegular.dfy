/**
 The trees of regular machines: the processors of every group are one run of bits, the NUMA
 width divides the group width and the core width divides the NUMA width. For these the
 counts computed beforehand are exact, and the masks partition.
 */
module HwRegular {
  import opened HwMask
  import opened HwTree
  import opened Modular
  import opened PackedTree
  import opened Sealing

  predicate RegularInfo(info: Info, lo: nat) {
    && InfoOk(info) && 0 < info.groupWidth && lo + info.groupWidth <= 64
    && info.mask == Run(lo, info.groupWidth) && Sized(info)
  }

  predicate Sized(info: Info)
    requires InfoOk(info)
  {
    info.groupWidth % info.numaWidth == 0 && info.numaWidth % info.pcoreWidth == 0
  }

  ghost predicate Regular(infos: seq<Info>) {
    SummaryOk(infos) && forall g :: 0 <= g < |infos| ==> RegularAt(infos, g)
  }

  ghost predicate RegularAt(infos: seq<Info>, g: nat)
    requires g < |infos|
  {
    exists lo: nat :: RegularInfo(infos[g], lo)
  }

  /** How many processors a node of this level has. */
  function Size(info: Info, level: nat): (n: nat)
    requires GROUP <= level <= LCORE
  {
    if level == GROUP then info.groupWidth
    else if level == NUMA then info.numaWidth
    else if level == PCORE then info.pcoreWidth
    else 1
  }

  // ---- arithmetic --------------------------------------------------------------------

  /** The end of the k-th piece of width w from lo on. */
  function Edge(lo: nat, w: nat, k: nat): nat {
    if k == 0 then lo else Edge(lo, w, k - 1) + w
  }

  lemma {:induction false} EdgeIs(lo: nat, w: nat, k: nat)
    ensures Edge(lo, w, k) == lo + k * w
  {
    if k > 0 {
      EdgeIs(lo, w, k - 1);
      Next(k, w);
    }
  }

  lemma {:induction false} EdgeMono(lo: nat, w: nat, j: nat, k: nat)
    requires j <= k
    ensures lo <= Edge(lo, w, j) <= Edge(lo, w, k) && (j < k ==> Edge(lo, w, j) + w <= Edge(lo, w, k))
  {
    if j < k {
      EdgeMono(lo, w, j, k - 1);
    } else if 0 < j {
      EdgeMono(lo, w, j - 1, k - 1);
    }
  }

  lemma Divided(a: nat, b: nat) returns (q: nat)
    requires 0 < b && a % b == 0
    ensures a == q * b && q == a / b
  {
    q := a / b;
  }

  lemma Assoc(a: nat, b: nat, c: nat)
    ensures a * (b * c) == (a * b) * c
  {
  }

  lemma Cancel(a: nat, b: nat, c: nat)
    requires 0 < c && a * c == b * c
    ensures a == b
  {
    if a < b {
      Next(a + 1, c);
      Times(a + 1, b, c);
    } else if b < a {
      Next(b + 1, c);
      Times(b + 1, a, c);
    }
  }

  /** How often the size of a deeper level goes into that of this one. */
  lemma Factor(info: Info, level: nat, d: nat) returns (c: nat)
    requires InfoOk(info) && Sized(info) && GROUP <= level <= d <= LCORE && 0 < info.groupWidth
    ensures Size(info, level) == c * Size(info, d) && 0 < Size(info, d)
    ensures level == GROUP < d ==> c == GroupNeeds(info, d)
  {
    if level == d {
      c := 1;
    } else if d == LCORE {
      c := Size(info, level);
    } else if level == GROUP && d == PCORE {
      var a := Divided(info.groupWidth, info.numaWidth);
      var b := Divided(info.numaWidth, info.pcoreWidth);
      c := a * b;
      Assoc(a, b, info.pcoreWidth);
      Quotient(info.groupWidth, c, info.pcoreWidth);
    } else {
      c := Divided(Size(info, level), Size(info, d));
    }
  }

  lemma Quotient(n: nat, c: nat, w: nat)
    requires 0 < w && n == c * w
    ensures n / w == c
  {
    var q := n / w;
    assert n == q * w + n % w;
    if q < c {
      Next(q + 1, w);
      Times(q + 1, c, w);
    } else if c < q {
      Next(c + 1, w);
      Times(c + 1, q, w);
    }
  }

  // ---- counts ------------------------------------------------------------------------

  /** A run of a level's size is cut into q runs of the next size... */
  lemma ChildrenOfRun(infos: seq<Info>, level: nat, g: nat, lo: nat, q: nat)
    requires SummaryOk(infos) && g < |infos| && GROUP <= level <= PCORE
    requires Size(infos[g], level) == q * Size(infos[g], level + 1) && lo + Size(infos[g], level) <= 64
    ensures ChildCount(infos, level, Affinity(g, Run(lo, Size(infos[g], level)))) == q
  {
    RunCount(lo, Size(infos[g], level), Size(infos[g], level + 1), q);
  }

  /** ... and the k-th child is the k-th of them. */
  lemma ChildRun(infos: seq<Info>, level: nat, g: nat, lo: nat, q: nat, k: nat)
    requires SummaryOk(infos) && g < |infos| && GROUP <= level <= PCORE && k < q
    requires Size(infos[g], level) == q * Size(infos[g], level + 1) && lo + Size(infos[g], level) <= 64
    ensures var w := Size(infos[g], level + 1);
            Edge(lo, w, k) + w <= 64
            && Child(infos, level, Affinity(g, Run(lo, Size(infos[g], level))), k) == Affinity(g, Run(Edge(lo, w, k), w))
  {
    var n, w := Size(infos[g], level), Size(infos[g], level + 1);
    EdgeIs(lo, w, k);
    Times(k + 1, q, w);
    Next(k + 1, w);
    RunPieces(lo, n, w, k, lo + k * w);
  }

  /** A run of a level's size has c nodes of a deeper level below it when that level's size goes into it c times. */
  lemma {:induction false} RunNodes(infos: seq<Info>, level: nat, d: nat, g: nat, lo: nat, c: nat)
    requires SummaryOk(infos) && g < |infos| && Sized(infos[g]) && 0 < infos[g].groupWidth
    requires GROUP <= level <= d <= LCORE && lo + Size(infos[g], level) <= 64
    requires Size(infos[g], level) == c * Size(infos[g], d) && 0 < Size(infos[g], d)
    ensures Count(CutOf(infos), Affinity(g, Run(lo, Size(infos[g], level))), level, d) == c
    decreases d - level
  {
    if level == d {
      Cancel(c, 1, Size(infos[g], d));
    } else {
      var cut, x := CutOf(infos), Affinity(g, Run(lo, Size(infos[g], level)));
      var q := Factor(infos[g], level, level + 1);
      var e := Factor(infos[g], level + 1, d);
      ChildrenOfRun(infos, level, g, lo, q);
      forall j: nat | j < q ensures ChildCounts(cut, x, level, d, j, e) {
        ChildRun(infos, level, g, lo, q, j);
        RunNodes(infos, level + 1, d, g, Edge(lo, Size(infos[g], level + 1), j), e);
      }
      CountUniform(cut, x, level, d, q, e);
      Assoc(q, e, Size(infos[g], d));
      Cancel(q * e, c, Size(infos[g], d));
    }
  }

  ghost predicate GroupCounted(cut: Cut, infos: seq<Info>, d: nat, g: nat)
    requires SummaryOk(infos) && GROUP <= d <= LCORE && g < |infos|
  {
    Count(cut, cut.child(MACHINE, HostId(SELF), g), GROUP, d) == if d == GROUP then 1 else GroupNeeds(infos[g], d)
  }

  lemma {:induction false} NodesUpTo(cut: Cut, infos: seq<Info>, d: nat, n: nat)
    requires SummaryOk(infos) && GROUP <= d <= LCORE && n <= |infos|
    requires forall g: nat :: g < |infos| ==> GroupCounted(cut, infos, d, g)
    ensures CountUpTo(cut, HostId(SELF), MACHINE, d, n) == if d == GROUP then n else NeedsUpTo(infos, d, n)
  {
    if n > 0 {
      NodesUpTo(cut, infos, d, n - 1);
      assert GroupCounted(cut, infos, d, n - 1);
    }
  }

  lemma GroupNodes(infos: seq<Info>, d: nat, g: nat)
    requires Regular(infos) && GROUP <= d <= LCORE && g < |infos|
    ensures GroupCounted(CutOf(infos), infos, d, g)
  {
    assert RegularAt(infos, g);
    var lo: nat :| RegularInfo(infos[g], lo);
    var c := Factor(infos[g], GROUP, d);
    RunNodes(infos, GROUP, d, g, lo, c);
    if d == GROUP { Cancel(c, 1, infos[g].groupWidth); }
  }

  /** For a regular summary HwTreeInitialize succeeds, and every level is exactly full. */
  lemma RegularFits(infos: seq<Info>)
    requires Regular(infos)
    ensures Fits(infos)
    ensures forall d :: MACHINE < d < 5 ==> NodeCount(infos, d) == Needs(infos)[d]
  {
    forall d | MACHINE < d < 5 ensures NodeCount(infos, d) == Needs(infos)[d] {
      forall g: nat | g < |infos| ensures GroupCounted(CutOf(infos), infos, d, g) {
        GroupNodes(infos, d, g);
      }
      NodesUpTo(CutOf(infos), infos, d, |infos|);
    }
  }

  // ---- masks -------------------------------------------------------------------------

  ghost predicate IsRun(ns: seq<Node>, infos: seq<Info>, d: nat, i: nat, g: nat, lo: nat)
    requires GROUP <= d <= LCORE
  {
    && i < |ns| && g < |infos| && lo + Size(infos[g], d) <= 64
    && ns[i].level == d && ns[i].tag == Affinity(g, Run(lo, Size(infos[g], d)))
  }

  /** Node p stands for q runs of width w from bit lo on, and its children for one of them each. */
  ghost predicate RunsTile(ns: seq<Node>, p: nat, g: nat, lo: nat, w: nat, q: nat) {
    && p < |ns| && ns[p].last < |ns| && ns[p].last + 1 == ns[p].first + q && 0 < w && lo <= Edge(lo, w, q) <= 64
    && ns[p].tag == Affinity(g, Run(lo, Edge(lo, w, q) - lo)) && RunsFrom(ns, ns[p].level + 1, ns[p].first, ns[p].last, g, lo, w)
  }

  ghost predicate RunsFrom(ns: seq<Node>, level: int, a: nat, z: nat, g: nat, lo: nat, w: nat)
    requires z < |ns|
  {
    forall c: nat :: a <= c <= z ==> IsRunAt(ns, level, a, c, g, lo, w)
  }

  /** Node c stands for the run of width w that comes c - a widths after bit lo. */
  ghost predicate IsRunAt(ns: seq<Node>, level: int, a: nat, c: nat, g: nat, lo: nat, w: nat)
    requires a <= c < |ns|
  {
    Edge(lo, w, c - a) + w <= 64 && ns[c].level == level && ns[c].tag == Affinity(g, Run(Edge(lo, w, c - a), w))
  }

  lemma RegularSized(infos: seq<Info>, g: nat)
    requires Regular(infos) == true && g < |infos|
    ensures InfoOk(infos[g]) && Sized(infos[g]) && 0 < infos[g].groupWidth
  {
    assert RegularAt(infos, g);
  }

  lemma FamilyOfRun(ns: seq<Node>, cut: Cut, infos: seq<Info>, d: nat, p: nat, g: nat, lo: nat) returns (q: nat)
    requires Regular(infos) == true && SummaryOk(infos) == true && IsCut(cut, infos) == true
    requires GROUP <= d <= PCORE && IsRun(ns, infos, d, p, g, lo)
    requires FamilyOk(ns, cut, p, ns[p].first, ns[p].last + 1) == true
    ensures RunsTile(ns, p, g, lo, Size(infos[g], d + 1), q) == true
  {
    RegularSized(infos, g);
    q := Factor(infos[g], d, d + 1);
    FamilyTiles(ns, cut, infos, d, p, g, lo, q, ns[p].first, ns[p].last);
  }

  lemma FamilyTiles(ns: seq<Node>, cut: Cut, infos: seq<Info>, d: nat, p: nat, g: nat, lo: nat, q: nat, a: nat, z: nat)
    requires SummaryOk(infos) == true && IsCut(cut, infos) == true && GROUP <= d <= PCORE && IsRun(ns, infos, d, p, g, lo)
    requires FamilyOk(ns, cut, p, a, z + 1) == true && ns[p].first == a && ns[p].last == z
    requires Size(infos[g], d) == q * Size(infos[g], d + 1) && 0 < Size(infos[g], d + 1)
    ensures RunsTile(ns, p, g, lo, Size(infos[g], d + 1), q) == true
  {
    var w, l := Size(infos[g], d + 1), d + 1;
    EdgeIs(lo, w, q);
    FamilySize(ns, cut, infos, d, p, g, lo, q, a, z);
    forall c: nat | a <= c <= z ensures IsRunAt(ns, l, a, c, g, lo, w) {
      assert ChildOk(ns, cut, p, a, z + 1, c);
      FamilyChild(ns, cut, infos, d, p, g, lo, q, a, z + 1, c);
    }
    assert RunsFrom(ns, l, a, z, g, lo, w);
  }

  lemma FamilySize(ns: seq<Node>, cut: Cut, infos: seq<Info>, d: nat, p: nat, g: nat, lo: nat, q: nat, a: nat, z: nat)
    requires SummaryOk(infos) == true && IsCut(cut, infos) == true && GROUP <= d <= PCORE && IsRun(ns, infos, d, p, g, lo)
    requires z + 1 - a == cut.count(ns[p].level, ns[p].tag) && Size(infos[g], d) == q * Size(infos[g], d + 1)
    ensures z + 1 == a + q
  {
    assert Key(Shape, 0, 0);
    ChildrenOfRun(infos, d, g, lo, q);
  }

  lemma FamilyChild(ns: seq<Node>, cut: Cut, infos: seq<Info>, d: nat, p: nat, g: nat, lo: nat, q: nat, a: nat, b: nat, c: nat)
    requires SummaryOk(infos) && IsCut(cut, infos) == true && GROUP <= d <= PCORE && IsRun(ns, infos, d, p, g, lo)
    requires a <= c < b <= |ns| && c - a < q && Size(infos[g], d) == q * Size(infos[g], d + 1) && ChildOk(ns, cut, p, a, b, c)
    ensures IsRunAt(ns, d + 1, a, c, g, lo, Size(infos[g], d + 1))
  {
    assert Key(Shape, 0, 0);
    ChildRun(infos, d, g, lo, q, c - a);
  }

  /** The cut of the tree, and the families of one of its levels. */
  lemma TreeCut(ns: seq<Node>, infos: seq<Info>, starts: Levels, s: Levels, d: nat) returns (cut: Cut)
    requires SummaryOk(infos) == true && TreeOk(ns, infos, starts, s) == true && GROUP <= d <= PCORE
    ensures IsCut(cut, infos) == true && RangeOk(ns, cut, d, starts[d], s[d], starts[d + 1], s[d + 1])
  {
    TreeLevel(ns, infos, starts, s, d);
    cut := CutOf(infos);
  }

  /** Every node of a finished regular tree stands for a run of its level's size. */
  lemma {:induction false} NodesAreRuns(ns: seq<Node>, infos: seq<Info>, starts: Levels, s: Levels, d: nat, i: nat)
    returns (g: nat, lo: nat)
    requires Regular(infos) == true && SummaryOk(infos) == true && TreeOk(ns, infos, starts, s) == true
    requires GROUP <= d <= LCORE && starts[d] <= i < s[d]
    ensures IsRun(ns, infos, d, i, g, lo)
    decreases d
  {
    if d == GROUP {
      g, lo := GroupsAreRuns(ns, infos, starts, s, i);
    } else {
      var cut := TreeCut(ns, infos, starts, s, d - 1);
      var p := ParentIn(ns, cut, d - 1, starts[d - 1], s[d - 1], starts[d], s[d], i);
      g, lo := NodesAreRuns(ns, infos, starts, s, d - 1, p);
      var q := FamilyOfRun(ns, cut, infos, d - 1, p, g, lo);
      lo := ChildOfRun(ns, infos, d, p, g, lo, q, i);
    }
  }

  lemma GroupsAreRuns(ns: seq<Node>, infos: seq<Info>, starts: Levels, s: Levels, i: nat) returns (g: nat, lo: nat)
    requires Regular(infos) && TreeOk(ns, infos, starts, s) == true && starts[GROUP] <= i < s[GROUP]
    ensures IsRun(ns, infos, GROUP, i, g, lo)
  {
    TreeGroups(ns, infos, starts, s);
    assert ChildOk(ns, CutOf(infos), SELF, starts[GROUP], s[GROUP], i);
    g := i - starts[GROUP];
    assert RegularAt(infos, g);
    lo :| RegularInfo(infos[g], lo);
  }

  lemma ChildOfRun(ns: seq<Node>, infos: seq<Info>, d: nat, p: nat, g: nat, lo: nat, q: nat, c: nat) returns (lo': nat)
    requires GROUP < d <= LCORE && g < |infos| && RunsTile(ns, p, g, lo, Size(infos[g], d), q)
    requires ns[p].level == d - 1 && ns[p].first <= c <= ns[p].last
    ensures IsRun(ns, infos, d, c, g, lo')
  {
    assert IsRunAt(ns, d, ns[p].first, c, g, lo, Size(infos[g], d));
    lo' := Edge(lo, Size(infos[g], d), c - ns[p].first);
  }

  lemma RunsInside(ns: seq<Node>, p: nat, g: nat, lo: nat, w: nat, q: nat, c: nat)
    requires RunsTile(ns, p, g, lo, w, q) && ns[p].first <= c <= ns[p].last
    ensures ns[c].tag.Affinity? && ns[c].tag.group == g && ns[c].tag.mask <= ns[p].tag.mask
  {
    assert IsRunAt(ns, ns[p].level + 1, ns[p].first, c, g, lo, w);
    EdgeMono(lo, w, c - ns[p].first, q);
    RunWithin(Edge(lo, w, c - ns[p].first), w, lo, Edge(lo, w, q) - lo);
  }

  lemma RunsApart(ns: seq<Node>, p: nat, g: nat, lo: nat, w: nat, q: nat, c: nat, c': nat)
    requires RunsTile(ns, p, g, lo, w, q) && ns[p].first <= c < c' <= ns[p].last
    ensures ns[c].tag.Affinity? && ns[c'].tag.Affinity? && ns[c].tag.mask * ns[c'].tag.mask == {}
  {
    var a, l := ns[p].first, ns[p].level + 1;
    assert IsRunAt(ns, l, a, c, g, lo, w) && IsRunAt(ns, l, a, c', g, lo, w);
    EdgeMono(lo, w, c - a, c' - a);
    RunsDisjoint(Edge(lo, w, c - a), w, Edge(lo, w, c' - a), w);
  }

  lemma {:induction false} EdgeBefore(lo: nat, w: nat, q: nat, b: nat) returns (k: nat)
    requires lo <= b < Edge(lo, w, q)
    ensures k < q && Edge(lo, w, k) <= b < Edge(lo, w, k) + w
  {
    if Edge(lo, w, q - 1) <= b {
      k := q - 1;
    } else {
      k := EdgeBefore(lo, w, q - 1, b);
    }
  }

  predicate Covers(ns: seq<Node>, c: nat, b: nat)
    requires c < |ns| && ns[c].tag.Affinity?
  {
    b in ns[c].tag.mask
  }

  lemma RunsCover(ns: seq<Node>, p: nat, g: nat, lo: nat, w: nat, q: nat, b: nat) returns (c: nat)
    requires RunsTile(ns, p, g, lo, w, q) && b in ns[p].tag.mask
    ensures ns[p].first <= c <= ns[p].last && ns[c].tag.Affinity? && Covers(ns, c, b)
  {
    var k := EdgeBefore(lo, w, q, b);
    c := ns[p].first + k;
    assert IsRunAt(ns, ns[p].level + 1, ns[p].first, c, g, lo, w);
  }

  /** The masks of the children are parts of the mask of the node, which is their disjoint union. */
  ghost predicate MasksPartition(ns: seq<Node>, p: nat)
    requires p < |ns| && ns[p].tag.Affinity? && ns[p].last < |ns|
  {
    var a, z := ns[p].first, ns[p].last;
    && (forall c :: a <= c <= z ==> ns[c].tag.Affinity? && ns[c].tag.group == ns[p].tag.group && ns[c].tag.mask <= ns[p].tag.mask)
    && (forall c, c' :: a <= c < c' <= z ==> ns[c].tag.mask * ns[c'].tag.mask == {})
    && (forall b :: b in ns[p].tag.mask ==> exists c :: a <= c <= z && Covers(ns, c, b))
  }

  lemma RunsPartition(ns: seq<Node>, p: nat, g: nat, lo: nat, w: nat, q: nat)
    requires RunsTile(ns, p, g, lo, w, q) == true
    ensures p < |ns| && ns[p].tag.Affinity? && ns[p].last < |ns| && MasksPartition(ns, p)
  {
    var a, z := ns[p].first, ns[p].last;
    forall c: nat | a <= c <= z ensures ns[c].tag.Affinity? && ns[c].tag.group == g && ns[c].tag.mask <= ns[p].tag.mask {
      RunsInside(ns, p, g, lo, w, q, c);
    }
    forall c: nat, c': nat | a <= c < c' <= z ensures ns[c].tag.mask * ns[c'].tag.mask == {} {
      RunsApart(ns, p, g, lo, w, q, c, c');
    }
    forall b: nat | b in ns[p].tag.mask ensures exists c :: a <= c <= z && Covers(ns, c, b) {
      var c := RunsCover(ns, p, g, lo, w, q, b);
    }
  }

  /** In the finished tree of a regular machine every node's mask is cut into those of its children. */
  lemma RegularMasks(ns: seq<Node>, infos: seq<Info>, starts: Levels, s: Levels, d: nat, p: nat)
    requires Regular(infos) == true && SummaryOk(infos) == true && TreeOk(ns, infos, starts, s) == true
    requires GROUP <= d <= PCORE && starts[d] <= p < s[d]
    ensures p < |ns| && ns[p].tag.Affinity? && ns[p].last < |ns| && MasksPartition(ns, p)
  {
    var g, lo := NodesAreRuns(ns, infos, starts, s, d, p);
    var cut := TreeCut(ns, infos, starts, s, d);
    assert NodeOk(ns, cut, d, p, starts[d + 1], s[d + 1]);
    var q := FamilyOfRun(ns, cut, infos, d, p, g, lo);
    RunsPartition(ns, p, g, lo, Size(infos[g], d + 1), q);
  }
}
