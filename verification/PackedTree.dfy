/**
 A tree packed level by level into one array, each level in its own slice, filled depth
 first: the array layout that the hardware tree (hwtree.cpp) and the view of it (hwview.cpp)
 share, with the theorems about its shape. What the children of a node are is a parameter.
 */
module PackedTree {
  import opened HwMask
  import opened Sealing

  const NONE: nat := 0xFFFF_FFFF
  const WORLD: nat := 0

  // HWNODE_TYPE; the world node stands outside the levels.
  const MACHINE: nat := 0
  const GROUP: nat := 1
  const NUMA: nat := 2
  const PCORE: nat := 3
  const LCORE: nat := 4

  /** What a node stands for: processors of a group, a machine, or a node of another tree. */
  datatype Tag = Affinity(group: nat, mask: Mask) | HostId(host: int) | NodeId(id: nat)

  datatype Node = Node(
    level: int, parent: nat, first: nat, last: nat, next: nat, prev: nat, tag: Tag)

  /**
   What the children of a node are: how many, and what each stands for. Everything about the
   shape of the tree is stated and proved for any such cut.
   */
  datatype Cut = Cut(count: (int, Tag) -> nat, child: (int, Tag, nat) -> Tag)

  // ---- how many nodes a mask needs ---------------------------------------------------

  /** Nodes of level d below (and at) a node of this level with mask m. */
  ghost function Count(cut: Cut, x: Tag, level: nat, d: nat): nat
    requires level <= d
    decreases d - level, 1, 0
  {
    if d == level then 1 else CountUpTo(cut, x, level, d, cut.count(level, x))
  }

  /** Nodes of level d below the first k children. */
  ghost function CountUpTo(cut: Cut, x: Tag, level: nat, d: nat, k: nat): nat
    requires level < d
    decreases d - level, 0, k
  {
    if k == 0 then 0
    else CountUpTo(cut, x, level, d, k - 1) + Count(cut, cut.child(level, x, k - 1), level + 1, d)
  }

  lemma {:induction false} CountMono(cut: Cut, x: Tag, level: nat, d: nat, j: nat, k: nat)
    requires level < d && j <= k
    ensures CountUpTo(cut, x, level, d, j) <= CountUpTo(cut, x, level, d, k)
  {
    if j < k { CountMono(cut, x, level, d, j, k - 1); }
  }

  lemma {:induction false} CountChildren(cut: Cut, x: Tag, level: nat, k: nat)
    ensures CountUpTo(cut, x, level, level + 1, k) == k
  {
    if k > 0 { CountChildren(cut, x, level, k - 1); }
  }

  ghost predicate EachCounts(cut: Cut, x: Tag, level: nat, d: nat, k: nat, q: nat)
    requires level < d
  {
    forall j: nat :: j < k ==> ChildCounts(cut, x, level, d, j, q)
  }

  ghost predicate ChildCounts(cut: Cut, x: Tag, level: nat, d: nat, j: nat, q: nat)
    requires level < d
  {
    Count(cut, cut.child(level, x, j), level + 1, d) == q
  }

  lemma {:induction false} CountUniform(cut: Cut, x: Tag, level: nat, d: nat, k: nat, q: nat)
    requires level < d && EachCounts(cut, x, level, d, k, q)
    ensures CountUpTo(cut, x, level, d, k) == k * q
  {
    if k > 0 {
      CountUniform(cut, x, level, d, k - 1, q);
      assert ChildCounts(cut, x, level, d, k - 1, q);
      assert k * q == (k - 1) * q + q;
    }
  }

  // ---- the shape of the tree ---------------------------------------------------------

  /** Node c is the child of p number c - a, in a family packed into [a, b). */
  ghost predicate ChildOk(ns: seq<Node>, cut: Cut, p: nat, a: nat, b: nat, c: nat)
    requires p < |ns| && a <= c < b <= |ns|
  {
    && ns[c].level == ns[p].level + 1 && ns[c].parent == p && ns[c].tag == cut.child(ns[p].level, ns[p].tag, c - a)
    && ns[c].prev == (if c == a then NONE else c - 1)
    && ns[c].next == (if c == b - 1 then NONE else c + 1)
  }

  ghost predicate ChildrenOk(ns: seq<Node>, cut: Cut, p: nat, a: nat, b: nat) {
    p < a <= b <= |ns| && forall c: nat :: a <= c < b ==> ChildOk(ns, cut, p, a, b, c)
  }

  /** The children of p are exactly [a, b): all it is cut into, in order, linked up. */
  ghost predicate FamilyOk(ns: seq<Node>, cut: Cut, p: nat, a: nat, b: nat) {
    && ChildrenOk(ns, cut, p, a, b) && a < b
    && ns[p].first == a && ns[p].last == b - 1
    && b - a == cut.count(ns[p].level, ns[p].tag)
  }

  lemma ChildTag(ns: seq<Node>, cut: Cut, p: nat, a: nat, b: nat, k: nat)
    requires FamilyOk(ns, cut, p, a, b) == true
    ensures p < a < b <= |ns| && b - a == cut.count(ns[p].level, ns[p].tag)
    ensures k < b - a ==> ns[a + k].tag == cut.child(ns[p].level, ns[p].tag, k)
  {
    if k < b - a { assert ChildOk(ns, cut, p, a, b, a + k); }
  }

  /** Node i of a level has its family inside [lo, hi) of the next one. */
  ghost predicate NodeOk(ns: seq<Node>, cut: Cut, level: nat, i: nat, lo: nat, hi: nat)
    requires i < |ns|
  {
    && ns[i].level == level && lo <= ns[i].first && ns[i].last < hi
    && FamilyOk(ns, cut, i, ns[i].first, ns[i].last + 1)
  }

  /** The families of neighbours are neighbours. */
  ghost predicate Adjacent(ns: seq<Node>, i: nat) {
    i + 1 < |ns| && ns[i + 1].first == ns[i].last + 1
  }

  /** The families of the nodes [a, b) of one level tile [lo, hi) of the next. */
  ghost predicate RangeOk(ns: seq<Node>, cut: Cut, level: nat, a: nat, b: nat, lo: nat, hi: nat) {
    && a <= b <= lo <= hi <= |ns|
    && (a == b ==> lo == hi)
    && (a < b ==> ns[a].first == lo && ns[b - 1].last + 1 == hi)
    && (forall i: nat :: a <= i < b ==> NodeOk(ns, cut, level, i, lo, hi))
    && (forall i: nat :: a <= i < b - 1 ==> Adjacent(ns, i))
  }

  lemma RangeOne(ns: seq<Node>, cut: Cut, level: nat, i: nat, lo: nat, hi: nat)
    requires FamilyOk(ns, cut, i, lo, hi) == true && ns[i].level == level
    ensures RangeOk(ns, cut, level, i, i + 1, lo, hi) == true
  {
    assert ns[i].first == lo && ns[i].last + 1 == hi;
    assert NodeOk(ns, cut, level, i, lo, hi);
  }

  lemma RangeAppend(ns: seq<Node>, cut: Cut, level: nat, a: nat, b: nat, lo: nat, mid: nat, hi: nat)
    requires RangeOk(ns, cut, level, a, b, lo, mid) == true
    requires b < lo && FamilyOk(ns, cut, b, mid, hi) == true && ns[b].level == level
    ensures RangeOk(ns, cut, level, a, b + 1, lo, hi) == true
  {
    RangeOne(ns, cut, level, b, mid, hi);
    RangeJoin(ns, cut, level, a, b, b + 1, lo, mid, hi);
  }

  lemma RangeJoin(ns: seq<Node>, cut: Cut, level: nat, a: nat, b: nat, c: nat, lo: nat, mid: nat, hi: nat)
    requires RangeOk(ns, cut, level, a, b, lo, mid) == true && RangeOk(ns, cut, level, b, c, mid, hi) == true
    requires c <= lo
    ensures RangeOk(ns, cut, level, a, c, lo, hi) == true
  {
    forall i | a <= i < c ensures NodeOk(ns, cut, level, i, lo, hi) {
      if i < b { assert NodeOk(ns, cut, level, i, lo, mid); } else { assert NodeOk(ns, cut, level, i, mid, hi); }
    }
    forall i | a <= i < c - 1 ensures Adjacent(ns, i) {
      if i == b - 1 {
        assert ns[b].first == mid;
      }
    }
  }

  /** What a family says about its parent. */
  ghost predicate SameParent(x: Node, y: Node) {
    x.level == y.level && x.first == y.first && x.last == y.last && x.tag == y.tag
  }

  lemma FamilyStable(ns: seq<Node>, ns': seq<Node>, cut: Cut, p: nat, a: nat, b: nat)
    requires FamilyOk(ns, cut, p, a, b) == true && |ns'| == |ns|
    requires SameParent(ns[p], ns'[p]) && forall c :: a <= c < b ==> ns'[c] == ns[c]
    ensures FamilyOk(ns', cut, p, a, b) == true
  {
    forall c | a <= c < b ensures ChildOk(ns', cut, p, a, b, c) {
      assert ChildOk(ns, cut, p, a, b, c);
    }
  }

  lemma RangeStable(ns: seq<Node>, ns': seq<Node>, cut: Cut, level: nat, a: nat, b: nat, lo: nat, hi: nat)
    requires RangeOk(ns, cut, level, a, b, lo, hi) == true && |ns'| == |ns|
    requires forall i :: a <= i < b ==> SameParent(ns[i], ns'[i])
    requires forall c :: lo <= c < hi ==> ns'[c] == ns[c]
    ensures RangeOk(ns', cut, level, a, b, lo, hi) == true
  {
    forall i | a <= i < b ensures NodeOk(ns', cut, level, i, lo, hi) {
      assert NodeOk(ns, cut, level, i, lo, hi);
      FamilyStable(ns, ns', cut, i, ns[i].first, ns[i].last + 1);
    }
    forall i | a <= i < b - 1 ensures Adjacent(ns', i) {
      assert Adjacent(ns, i);
      assert SameParent(ns[i], ns'[i]) && SameParent(ns[i + 1], ns'[i + 1]);
    }
  }

  /** The tiles leave no gap: every node of the next level has its parent in this one. */
  lemma ParentIn(ns: seq<Node>, cut: Cut, level: nat, a: nat, b: nat, lo: nat, hi: nat, c: nat) returns (p: nat)
    requires RangeOk(ns, cut, level, a, b, lo, hi) && lo <= c < hi
    ensures a <= p < b && ns[p].first <= c <= ns[p].last && NodeOk(ns, cut, level, p, lo, hi)
  {
    p := a;
    while c > ns[p].last
      invariant a <= p < b && ns[p].first <= c
      decreases b - p
    {
      assert p != b - 1;
      assert Adjacent(ns, p);
      p := p + 1;
    }
    assert NodeOk(ns, cut, level, p, lo, hi);
  }

  // ---- the builder -------------------------------------------------------------------

  /** Five numbers, one per level. */
  type Levels = s: seq<nat> | |s| == 5 witness [0, 0, 0, 0, 0]

  /** The slices of the levels follow each other in the array. */
  ghost predicate Slices(starts: Levels, ends: Levels, n: nat) {
    && starts[MACHINE] == 1 && ends[LCORE] <= n <= NONE
    && starts[0] <= ends[0] == starts[1] <= ends[1] == starts[2]
    && starts[2] <= ends[2] == starts[3] <= ends[3] == starts[4] <= ends[4]
  }

  /** HwTreeInitializeNode, on the node array: node i becomes a child of `parent`, after `prev`. */
  function Linked(ns: seq<Node>, i: nat, level: int, parent: nat, prev: nat, tag: Tag): seq<Node>
  {
    if i < |ns| && parent < i && (prev == NONE || prev < i) then
      var ns1 := ns[i := Node(level, parent, NONE, NONE, NONE, prev, tag)];
      var ns2 := ns1[parent := ns1[parent].(last := i)];
      if prev == NONE || ns2[prev].parent != parent then ns2[parent := ns2[parent].(first := i)]
      else ns2[prev := ns2[prev].(next := i)]
    else ns
  }

  ghost predicate IsNode(ns: seq<Node>, i: nat, level: int, tag: Tag) {
    i < |ns| && ns[i].level == level && ns[i].tag == tag
  }

  ghost predicate SameAbove(s: Levels, s': Levels, level: nat)
    requires level < 5
  {
    forall d :: 0 <= d <= level ==> s'[d] == s[d]
  }

  /** The strides of the deeper levels have moved on by what the first k children need. */
  ghost predicate Grown(cut: Cut, x: Tag, level: nat, k: nat, s: Levels, s': Levels)
    requires level <= PCORE
  {
    forall d :: level < d < 5 ==> s'[d] == s[d] + CountUpTo(cut, x, level, d, k)
  }

  ghost predicate Overflows(cut: Cut, x: Tag, level: nat, k: nat, s: Levels, ends: Levels)
    requires level <= PCORE
  {
    exists d :: level < d < 5 && ends[d] < s[d] + CountUpTo(cut, x, level, d, k)
  }

  ghost predicate InSlice(i: nat, starts: Levels, s: Levels, d: nat)
    requires d < 5
  {
    starts[d] <= i < s[d]
  }

  /** Nodes that are in place already when the node at this level gets its children. */
  ghost predicate Settled(i: nat, starts: Levels, s: Levels, level: nat)
    requires level < 4
  {
    i < starts[level + 1] || exists d :: level < d < 5 && InSlice(i, starts, s, d)
  }

  ghost predicate Kept(ns: seq<Node>, ns': seq<Node>, starts: Levels, s: Levels, level: nat, p: nat)
    requires level < 4
  {
    && |ns'| == |ns| && p < |ns|
    && ns'[p] == ns[p].(first := ns'[p].first, last := ns'[p].last)
    && forall i :: 0 <= i < |ns| && i != p && Settled(i, starts, s, level) ==> ns'[i] == ns[i]
  }

  /** The nodes of level d that came in between the two stride tables have their families in between as well. */
  ghost predicate LevelOk(ns: seq<Node>, cut: Cut, d: nat, s: Levels, s': Levels)
    requires d < 4
  {
    RangeOk(ns, cut, d, s[d], s'[d], s[d + 1], s'[d + 1])
  }

  ghost predicate RangesOk(ns: seq<Node>, cut: Cut, level: nat, s: Levels, s': Levels)
  {
    forall d :: level < d < 4 ==> LevelOk(ns, cut, d, s, s')
  }

  /** The node at the stride of this level has its whole subtree. */
  ghost predicate Built(ns: seq<Node>, cut: Cut, level: nat, s: Levels, s': Levels)
    requires level < 4
  {
    FamilyOk(ns, cut, s[level], s[level + 1], s'[level + 1]) && RangesOk(ns, cut, level, s, s')
  }

  /** ... and here the subtrees of its first k children. */
  ghost predicate Growing(ns: seq<Node>, cut: Cut, level: nat, k: nat, s: Levels, s': Levels)
    requires level < 4
  {
    && s'[level + 1] == s[level + 1] + k
    && ChildrenOk(ns, cut, s[level], s[level + 1], s'[level + 1])
    && (k > 0 ==> ns[s[level]].first == s[level + 1] && ns[s[level]].last == s'[level + 1] - 1)
    && RangesOk(ns, cut, level, s, s')
  }

  /** One more child: its parent and its sibling know it, and nothing else that was in place has changed. */
  ghost predicate AddedKept(ns: seq<Node>, ns': seq<Node>, starts: Levels, s: Levels, level: nat, last: nat)
    requires level < 4
  {
    var p, c := s[level], s[level + 1];
    && |ns'| == |ns| && p < |ns| && (last == NONE || last < |ns|)
    && ns'[p] == ns[p].(last := c, first := if last == NONE then c else ns[p].first)
    && (last != NONE ==> ns'[last] == ns[last].(next := c))
    && forall i :: 0 <= i < |ns| && i != p && i != last && Settled(i, starts, s, level) ==> ns'[i] == ns[i]
  }

  ghost predicate AddedNodes(ns: seq<Node>, cut: Cut, level: nat, y: Tag, last: nat, s: Levels, s': Levels)
    requires level < 4
  {
    var p, c := s[level], s[level + 1];
    && IsNode(ns, c, level + 1, y) && ns[c].parent == p && ns[c].prev == last && ns[c].next == NONE
    && (level + 1 < 4 ==> Built(ns, cut, level + 1, s, s'))
  }

  ghost predicate AddedCount(cut: Cut, y: Tag, level: nat, s: Levels, s': Levels)
    requires level <= LCORE
  {
    && (forall d :: 0 <= d < level ==> s'[d] == s[d])
    && forall d :: level <= d < 5 ==> s'[d] == s[d] + Count(cut, y, level, d)
  }

  ghost predicate ChildOverflows(cut: Cut, y: Tag, level: nat, s: Levels, ends: Levels)
    requires level <= LCORE
  {
    exists d :: level <= d < 5 && ends[d] < s[d] + Count(cut, y, level, d)
  }

  lemma GrownStep(cut: Cut, x: Tag, level: nat, k: nat, s0: Levels, s1: Levels, s2: Levels)
    requires level <= PCORE
    requires SameAbove(s0, s1, level) && Grown(cut, x, level, k, s0, s1) == true
    requires AddedCount(cut, cut.child(level, x, k), level + 1, s1, s2) == true
    ensures SameAbove(s0, s2, level) && Grown(cut, x, level, k + 1, s0, s2) == true
  {
  }

  lemma StillOverflows(cut: Cut, x: Tag, level: nat, k: nat, s0: Levels, s1: Levels, ends: Levels)
    requires level <= PCORE && k < cut.count(level, x)
    requires Grown(cut, x, level, k, s0, s1) == true
    requires ChildOverflows(cut, cut.child(level, x, k), level + 1, s1, ends) == true
    ensures Overflows(cut, x, level, cut.count(level, x), s0, ends) == true
  {
    var y := cut.child(level, x, k);
    var d :| level + 1 <= d < 5 && ends[d] < s1[d] + Count(cut, y, level + 1, d);
    CountMono(cut, x, level, d, k + 1, cut.count(level, x));
    assert CountUpTo(cut, x, level, d, k + 1) == CountUpTo(cut, x, level, d, k) + Count(cut, y, level + 1, d);
  }

  lemma CountsAdded(cut: Cut, y: Tag, level: nat, s1: Levels, s2: Levels, s3: Levels)
    requires level <= LCORE && SameAbove(s1, s2, level)
    requires if level < LCORE then Grown(cut, y, level, cut.count(level, y), s1, s2) else s2 == s1
    requires s3 == s2[level := s2[level] + 1]
    ensures AddedCount(cut, y, level, s1, s3) == true
  {
  }

  lemma PassOverflow(cut: Cut, y: Tag, level: nat, s: Levels, ends: Levels)
    requires level < LCORE && Overflows(cut, y, level, cut.count(level, y), s, ends) == true
    ensures ChildOverflows(cut, y, level, s, ends) == true
  {
    var d :| level < d < 5 && ends[d] < s[d] + CountUpTo(cut, y, level, d, cut.count(level, y));
    assert Count(cut, y, level, d) == CountUpTo(cut, y, level, d, cut.count(level, y));
  }

  lemma FullLevel(cut: Cut, x: Tag, level: nat, k: nat, s0: Levels, s1: Levels, ends: Levels)
    requires level <= PCORE && k < cut.count(level, x)
    requires Grown(cut, x, level, k, s0, s1) == true && s1[level + 1] >= ends[level + 1]
    ensures Overflows(cut, x, level, cut.count(level, x), s0, ends) == true
  {
    CountChildren(cut, x, level, k);
    CountChildren(cut, x, level, cut.count(level, x));
    assert ends[level + 1] < s0[level + 1] + CountUpTo(cut, x, level, level + 1, cut.count(level, x));
  }

  lemma SettledGrows(i: nat, starts: Levels, s0: Levels, s1: Levels, level: nat)
    requires level < 4 && Settled(i, starts, s0, level) && forall d :: level < d < 5 ==> s0[d] <= s1[d]
    ensures Settled(i, starts, s1, level)
  {
    if !(i < starts[level + 1]) {
      var d :| level < d < 5 && InSlice(i, starts, s0, d);
      assert InSlice(i, starts, s1, d);
    }
  }

  /** The last child so far, if there is one. */
  ghost predicate LastChild(ns: seq<Node>, starts: Levels, s: Levels, level: nat, last: nat)
    requires level < 4
  {
    last != NONE ==> starts[level + 1] <= last < |ns| && last + 1 == s[level + 1] && ns[last].parent == s[level]
  }

  /** Everything the builder keeps about its two stride tables. */
  ghost predicate Bounded(starts: Levels, ends: Levels, s: Levels, n: nat) {
    Slices(starts, ends, n) && forall d :: 0 <= d < 5 ==> starts[d] <= s[d] <= ends[d]
  }

  lemma NotSettled(i: nat, starts: Levels, ends: Levels, s: Levels, level: nat, n: nat)
    requires level < 4 && Bounded(starts, ends, s, n) == true && s[level + 1] <= i < ends[level + 1]
    ensures !Settled(i, starts, s, level)
  {
    assert starts[level + 1] <= s[level + 1];
    forall d | level < d < 5 ensures !InSlice(i, starts, s, d) {
      if d > level + 1 { SliceOrder(starts, ends, level + 1, d, n); }
    }
  }

  lemma SliceOrder(starts: Levels, ends: Levels, d: nat, e: nat, n: nat)
    requires Slices(starts, ends, n) == true && d < e < 5
    ensures ends[d] <= starts[e]
  {
  }

  lemma KeptStep(ns0: seq<Node>, ns1: seq<Node>, ns2: seq<Node>, starts: Levels, ends: Levels, s0: Levels, s1: Levels,
                 level: nat, last: nat)
    requires level < 4 && s1[level] == s0[level] && Bounded(starts, ends, s0, |ns0|) == true && Bounded(starts, ends, s1, |ns0|) == true
    requires forall d :: level < d < 5 ==> s0[d] <= s1[d]
    requires Kept(ns0, ns1, starts, s0, level, s0[level]) == true
    requires AddedKept(ns1, ns2, starts, s1, level, last) == true
    requires last == NONE || s0[level + 1] <= last < ends[level + 1]
    ensures Kept(ns0, ns2, starts, s0, level, s0[level]) == true
  {
    if last != NONE { NotSettled(last, starts, ends, s0, level, |ns0|); }
    forall i | 0 <= i < |ns0| && i != s0[level] && Settled(i, starts, s0, level) ensures ns2[i] == ns0[i] {
      SettledGrows(i, starts, s0, s1, level);
    }
  }

  lemma SettledAt(i: nat, starts: Levels, s: Levels, level: nat, d: nat)
    requires level < d < 5 && starts[d] <= i < s[d]
    ensures Settled(i, starts, s, level)
  {
    assert InSlice(i, starts, s, d);
  }

  /** The family of p, one child longer. */
  lemma ChildrenStep(ns1: seq<Node>, ns2: seq<Node>, cut: Cut, level: nat, x: Tag, k: nat,
                     starts: Levels, s0: Levels, s1: Levels, s2: Levels, last: nat)
    requires level <= PCORE
    requires s1[level] == s0[level] && starts[level + 1] <= s0[level + 1] && s1[level + 1] < |ns1| <= NONE
    requires Growing(ns1, cut, level, k, s0, s1) == true && IsNode(ns1, s0[level], level, x)
    requires last == if k == 0 then NONE else s1[level + 1] - 1
    requires AddedKept(ns1, ns2, starts, s1, level, last) == true
    requires AddedNodes(ns2, cut, level, cut.child(level, x, k), last, s1, s2) == true
    ensures ChildrenOk(ns2, cut, s0[level], s0[level + 1], s1[level + 1] + 1) == true
  {
    var p, a, c := s0[level], s0[level + 1], s1[level + 1];
    var b := c + 1;
    forall i: nat | a <= i < b ensures ChildOk(ns2, cut, p, a, b, i) {
      if i < c {
        assert ChildOk(ns1, cut, p, a, c, i);
        SettledAt(i, starts, s1, level, level + 1);
      }
    }
  }

  /** The ranges below are untouched by the new child... */
  lemma RangesSettled(ns1: seq<Node>, ns2: seq<Node>, cut: Cut, level: nat, d: nat,
                      starts: Levels, ends: Levels, s0: Levels, s1: Levels, last: nat)
    requires level < d < 4
    requires Bounded(starts, ends, s0, |ns1|) == true && Bounded(starts, ends, s1, |ns1|) == true
    requires s1[level] < ends[level] && (last == NONE || starts[level + 1] <= last < s1[level + 1])
    requires RangeOk(ns1, cut, d, s0[d], s1[d], s0[d + 1], s1[d + 1]) == true
    requires AddedKept(ns1, ns2, starts, s1, level, last) == true
    ensures RangeOk(ns2, cut, d, s0[d], s1[d], s0[d + 1], s1[d + 1]) == true
  {
    SliceOrder(starts, ends, level, d, |ns1|);
    SliceOrder(starts, ends, level, d + 1, |ns1|);
    SliceOrder(starts, ends, level + 1, d + 1, |ns1|);
    forall i | s0[d] <= i < s1[d] ensures SameParent(ns1[i], ns2[i]) {
      SettledAt(i, starts, s1, level, d);
    }
    forall c | s0[d + 1] <= c < s1[d + 1] ensures ns2[c] == ns1[c] {
      SettledAt(c, starts, s1, level, d + 1);
    }
    RangeStable(ns1, ns2, cut, d, s0[d], s1[d], s0[d + 1], s1[d + 1]);
  }

  /** ... and grow by its subtree. */
  lemma RangesStep(ns1: seq<Node>, ns2: seq<Node>, cut: Cut, level: nat, d: nat,
                   starts: Levels, ends: Levels, s0: Levels, s1: Levels, s2: Levels, last: nat)
    requires level < d < 4
    requires Bounded(starts, ends, s0, |ns1|) == true && Bounded(starts, ends, s1, |ns1|) == true
    requires s1[level] == s0[level] < ends[level] && s1[level + 1] < ends[level + 1]
    requires last == NONE || starts[level + 1] <= last < s1[level + 1]
    requires RangeOk(ns1, cut, d, s0[d], s1[d], s0[d + 1], s1[d + 1]) == true
    requires AddedKept(ns1, ns2, starts, s1, level, last) == true
    requires if d == level + 1 then s2[d] == s1[d] + 1 && FamilyOk(ns2, cut, s1[d], s1[d + 1], s2[d + 1]) && ns2[s1[d]].level == d
             else s2[d] <= ends[d] && RangeOk(ns2, cut, d, s1[d], s2[d], s1[d + 1], s2[d + 1])
    ensures RangeOk(ns2, cut, d, s0[d], s2[d], s0[d + 1], s2[d + 1]) == true
  {
    RangesSettled(ns1, ns2, cut, level, d, starts, ends, s0, s1, last);
    SliceOrder(starts, ends, d, d + 1, |ns1|);
    var a, b, c, lo, mid, hi := s0[d], s1[d], s2[d], s0[d + 1], s1[d + 1], s2[d + 1];
    assert starts[d + 1] <= lo && c <= ends[d];
    if d == level + 1 {
      RangeAppend(ns2, cut, d, a, b, lo, mid, hi);
    } else {
      RangeJoin(ns2, cut, d, a, b, c, lo, mid, hi);
    }
  }

  lemma GrowingStep(ns1: seq<Node>, ns2: seq<Node>, cut: Cut, level: nat, x: Tag, k: nat,
                    starts: Levels, ends: Levels, s0: Levels, s1: Levels, s2: Levels, last: nat)
    requires level <= PCORE
    requires Bounded(starts, ends, s0, |ns1|) == true && Bounded(starts, ends, s1, |ns1|) == true && Bounded(starts, ends, s2, |ns1|) == true
    requires s1[level] == s0[level] < ends[level] && s2[level] == s1[level] && s2[level + 1] == s1[level + 1] + 1
    requires s1[level + 1] < ends[level + 1]
    requires Growing(ns1, cut, level, k, s0, s1) == true && IsNode(ns1, s0[level], level, x)
    requires last == if k == 0 then NONE else s1[level + 1] - 1
    requires AddedKept(ns1, ns2, starts, s1, level, last) == true
    requires AddedNodes(ns2, cut, level, cut.child(level, x, k), last, s1, s2) == true
    ensures Growing(ns2, cut, level, k + 1, s0, s2) == true
  {
    SliceOrder(starts, ends, level, level + 1, |ns1|);
    assert s1[level + 1] < |ns1| by {
      if level + 1 < 4 { SliceOrder(starts, ends, level + 1, 4, |ns1|); }
    }
    ChildrenStep(ns1, ns2, cut, level, x, k, starts, s0, s1, s2, last);
    forall d | level < d < 4 ensures LevelOk(ns2, cut, d, s0, s2) {
      assert LevelOk(ns1, cut, d, s0, s1);
      if d > level + 1 { assert LevelOk(ns2, cut, d, s1, s2); }
      RangesStep(ns1, ns2, cut, level, d, starts, ends, s0, s1, s2, last);
    }
  }

  /** Linking the new child in, and filling its own subtree, only adds. */
  lemma AddedKeeps(ns1: seq<Node>, ns2: seq<Node>, ns3: seq<Node>, starts: Levels, ends: Levels, s: Levels,
                   level: nat, y: Tag, last: nat)
    requires level <= PCORE && Bounded(starts, ends, s, |ns1|) == true && s[level] < ends[level] && s[level + 1] < ends[level + 1] <= |ns1|
    requires LastChild(ns1, starts, s, level, last) == true
    requires s[level] < s[level + 1] && ns2 == Linked(ns1, s[level + 1], level + 1, s[level], last, y)
    requires if level + 1 < 4 then Kept(ns2, ns3, starts, s, level + 1, s[level + 1]) else ns3 == ns2
    ensures AddedKept(ns1, ns3, starts, s, level, last) == true
    ensures var c := s[level + 1];
            ns3[c] == Node(level + 1, s[level], ns3[c].first, ns3[c].last, NONE, last, y)
  {
    var p, c := s[level], s[level + 1];
    NotSettled(c, starts, ends, s, level, |ns1|);
    SliceOrder(starts, ends, level, level + 1, |ns1|);
    forall i | 0 <= i < |ns1| && i != c && (i == p || i == last || Settled(i, starts, s, level)) ensures ns3[i] == ns2[i] {
      if level + 1 < 4 { SettledBelow(i, starts, ends, s, level, |ns1|); }
    }
  }

  lemma SettledBelow(i: nat, starts: Levels, ends: Levels, s: Levels, level: nat, n: nat)
    requires level + 1 < 4 && Bounded(starts, ends, s, n) == true && s[level] < ends[level] && s[level + 1] < ends[level + 1]
    requires i == s[level] || i + 1 == s[level + 1] || Settled(i, starts, s, level)
    ensures Settled(i, starts, s, level + 1)
  {
    SliceOrder(starts, ends, level, level + 1, n);
    SliceOrder(starts, ends, level + 1, level + 2, n);
    if !(i < starts[level + 2]) {
      var d :| level < d < 5 && InSlice(i, starts, s, d);
      assert d != level + 1;
    }
  }

  /** What the loop over the children has done after k rounds. */
  ghost predicate Progress(ns0: seq<Node>, ns: seq<Node>, cut: Cut, level: nat, x: Tag, k: nat,
                           starts: Levels, s0: Levels, s: Levels, last: nat)
    requires level <= PCORE
  {
    forall z: int :: Key(Goes, k, z) ==>
      && SameAbove(s0, s, level)
      && IsNode(ns, s0[level], level, x)
      && (if k == 0 then last == NONE else last + 1 == s[level + 1])
      && Grown(cut, x, level, k, s0, s)
      && Kept(ns0, ns, starts, s0, level, s0[level])
      && Growing(ns, cut, level, k, s0, s)
  }

  /** What one round adds. */
  ghost predicate Added(ns1: seq<Node>, ns2: seq<Node>, cut: Cut, level: nat, y: Tag,
                        starts: Levels, s1: Levels, s2: Levels, last: nat)
    requires level <= PCORE
  {
    && AddedKept(ns1, ns2, starts, s1, level, last)
    && AddedCount(cut, y, level + 1, s1, s2)
    && AddedNodes(ns2, cut, level, y, last, s1, s2)
  }

  lemma ProgressLast(ns0: seq<Node>, ns: seq<Node>, cut: Cut, level: nat, x: Tag, k: nat,
                     starts: Levels, ends: Levels, s0: Levels, s: Levels, last: nat)
    requires level <= PCORE && Bounded(starts, ends, s0, |ns|) == true && Bounded(starts, ends, s, |ns|) == true
    requires Progress(ns0, ns, cut, level, x, k, starts, s0, s, last) == true
    ensures LastChild(ns, starts, s, level, last) == true
    ensures forall d :: level < d < 5 ==> s0[d] <= s[d]
    ensures last == NONE || s0[level + 1] <= last < ends[level + 1]
  {
    assert Key(Goes, k, 0);
    CountChildren(cut, x, level, k);
    if k > 0 { assert ChildOk(ns, cut, s0[level], s0[level + 1], s[level + 1], last); }
  }

  lemma ProgressStep(ns0: seq<Node>, ns1: seq<Node>, ns2: seq<Node>, cut: Cut, level: nat, x: Tag, k: nat,
                     starts: Levels, ends: Levels, s0: Levels, s1: Levels, s2: Levels, last: nat)
    requires level <= PCORE && |ns0| == |ns1| == |ns2|
    requires Bounded(starts, ends, s0, |ns0|) == true && Bounded(starts, ends, s1, |ns0|) == true && Bounded(starts, ends, s2, |ns0|) == true
    requires s0[level] < ends[level] && s1[level + 1] < ends[level + 1]
    requires Progress(ns0, ns1, cut, level, x, k, starts, s0, s1, last) == true
    requires Added(ns1, ns2, cut, level, cut.child(level, x, k), starts, s1, s2, last) == true
    ensures Progress(ns0, ns2, cut, level, x, k + 1, starts, s0, s2, s2[level + 1] - 1) == true
  {
    assert Key(Goes, k, 0);
    ProgressLast(ns0, ns1, cut, level, x, k, starts, ends, s0, s1, last);
    GrownStep(cut, x, level, k, s0, s1, s2);
    KeptStep(ns0, ns1, ns2, starts, ends, s0, s1, level, last);
    assert s2[level + 1] == s1[level + 1] + 1;
    GrowingStep(ns1, ns2, cut, level, x, k, starts, ends, s0, s1, s2, last);
  }

  lemma ProgressBegins(ns: seq<Node>, cut: Cut, level: nat, x: Tag, starts: Levels, ends: Levels, s: Levels)
    requires level <= PCORE && Bounded(starts, ends, s, |ns|) == true && s[level] < ends[level]
    requires IsNode(ns, s[level], level, x)
    ensures Progress(ns, ns, cut, level, x, 0, starts, s, s, NONE) == true
  {
    SliceOrder(starts, ends, level, level + 1, |ns|);
    forall d | level < d < 4 ensures LevelOk(ns, cut, d, s, s) {
      SliceOrder(starts, ends, d, d + 1, |ns|);
      if d + 1 < 4 { SliceOrder(starts, ends, d + 1, 4, |ns|); }
    }
    if level + 1 < 4 { SliceOrder(starts, ends, level + 1, 4, |ns|); }
  }

  /**
   What a builder has done for the node at the stride of its level when it returns: all its
   children with their subtrees, or as much as fits when some deeper level has no room for
   them all. Nothing that was in place is touched, but for the links of that node itself.
   */
  ghost predicate Done(ns0: seq<Node>, ns: seq<Node>, cut: Cut, level: nat, x: Tag,
                       starts: Levels, ends: Levels, s0: Levels, s: Levels, ok: bool)
    requires level <= PCORE
  {
    forall z: int :: Key(Ends, level, z) ==>
      && SameAbove(s0, s, level) && Kept(ns0, ns, starts, s0, level, s0[level])
      && (if ok then Grown(cut, x, level, cut.count(level, x), s0, s)
          else Overflows(cut, x, level, cut.count(level, x), s0, ends))
      && (ok && cut.count(level, x) > 0 ==> Built(ns, cut, level, s0, s))
  }

  /** The node at the stride of this level has been linked in and filled; the lowest level has nothing to fill. */
  ghost predicate Filled(ns2: seq<Node>, ns3: seq<Node>, cut: Cut, level: nat, y: Tag,
                         starts: Levels, ends: Levels, s1: Levels, s2: Levels, ok: bool)
    requires level <= LCORE
  {
    if level < LCORE then
      cut.count(level, y) > 0 && Done(ns2, ns3, cut, level, y, starts, ends, s1, s2, ok)
    else ok && ns3 == ns2 && s2 == s1
  }

  lemma AddedAll(ns1: seq<Node>, ns2: seq<Node>, ns3: seq<Node>, cut: Cut, level: nat, y: Tag,
                 starts: Levels, ends: Levels, s1: Levels, s2: Levels, s3: Levels, last: nat)
    requires level <= PCORE && Bounded(starts, ends, s1, |ns1|) == true
    requires s1[level] < ends[level] && s1[level + 1] < ends[level + 1] <= |ns1|
    requires LastChild(ns1, starts, s1, level, last) == true
    requires s1[level] < s1[level + 1] && ns2 == Linked(ns1, s1[level + 1], level + 1, s1[level], last, y)
    requires Filled(ns2, ns3, cut, level + 1, y, starts, ends, s1, s2, true) == true
    requires s3 == s2[level + 1 := s2[level + 1] + 1]
    ensures Added(ns1, ns3, cut, level, y, starts, s1, s3, last) == true
  {
    assert Key(Ends, level + 1, 0);
    AddedKeeps(ns1, ns2, ns3, starts, ends, s1, level, y, last);
    CountsAdded(cut, y, level + 1, s1, s2, s3);
    if level + 1 < 4 {
      forall d | level + 1 < d < 4 ensures LevelOk(ns3, cut, d, s1, s3) {
        assert LevelOk(ns3, cut, d, s1, s2);
      }
    }
  }

  /** One round of the loop over the children: link, fill, advance. */
  ghost predicate Round(ns1: seq<Node>, ns2: seq<Node>, ns3: seq<Node>, cut: Cut, level: nat, y: Tag,
                        starts: Levels, ends: Levels, s1: Levels, s2: Levels, last: nat, ok: bool)
    requires level <= PCORE
  {
    && s1[level + 1] < ends[level + 1] <= |ns1|
    && s1[level] < s1[level + 1] && (last == NONE || last < s1[level + 1])
    && ns2 == Linked(ns1, s1[level + 1], level + 1, s1[level], last, y)
    && Filled(ns2, ns3, cut, level + 1, y, starts, ends, s1, s2, ok)
  }

  lemma RoundDone(ns0: seq<Node>, ns1: seq<Node>, ns2: seq<Node>, ns3: seq<Node>, cut: Cut, level: nat, x: Tag, k: nat,
                  starts: Levels, ends: Levels, s0: Levels, s1: Levels, s2: Levels, s3: Levels, last: nat)
    requires level <= PCORE && |ns0| == |ns1| == |ns2| == |ns3|
    requires Bounded(starts, ends, s0, |ns0|) == true && Bounded(starts, ends, s1, |ns0|) == true && Bounded(starts, ends, s3, |ns0|) == true
    requires s0[level] < ends[level] && Progress(ns0, ns1, cut, level, x, k, starts, s0, s1, last) == true
    requires Round(ns1, ns2, ns3, cut, level, cut.child(level, x, k), starts, ends, s1, s2, last, true) == true
    requires s3 == s2[level + 1 := s2[level + 1] + 1]
    ensures Progress(ns0, ns3, cut, level, x, k + 1, starts, s0, s3, s2[level + 1]) == true
  {
    assert Key(Goes, k, 0);
    ProgressLast(ns0, ns1, cut, level, x, k, starts, ends, s0, s1, last);
    AddedAll(ns1, ns2, ns3, cut, level, cut.child(level, x, k), starts, ends, s1, s2, s3, last);
    ProgressStep(ns0, ns1, ns3, cut, level, x, k, starts, ends, s0, s1, s3, last);
  }

  lemma RoundFails(ns0: seq<Node>, ns1: seq<Node>, ns2: seq<Node>, ns3: seq<Node>, cut: Cut, level: nat, x: Tag, k: nat,
                   starts: Levels, ends: Levels, s0: Levels, s1: Levels, s2: Levels, last: nat)
    requires level <= PCORE && |ns0| == |ns1| == |ns2| == |ns3| && k < cut.count(level, x)
    requires Bounded(starts, ends, s0, |ns0|) == true && Bounded(starts, ends, s1, |ns0|) == true
    requires s0[level] < ends[level] && Progress(ns0, ns1, cut, level, x, k, starts, s0, s1, last) == true
    requires Round(ns1, ns2, ns3, cut, level, cut.child(level, x, k), starts, ends, s1, s2, last, false) == true
    ensures Done(ns0, ns3, cut, level, x, starts, ends, s0, s2, false) == true
  {
    assert Key(Goes, k, 0);
    assert Key(Ends, level + 1, 0);
    var y := cut.child(level, x, k);
    ProgressLast(ns0, ns1, cut, level, x, k, starts, ends, s0, s1, last);
    AddedKeeps(ns1, ns2, ns3, starts, ends, s1, level, y, last);
    KeptStep(ns0, ns1, ns3, starts, ends, s0, s1, level, last);
    PassOverflow(cut, y, level + 1, s1, ends);
    StillOverflows(cut, x, level, k, s0, s1, ends);
  }

  lemma RoundIsFull(ns0: seq<Node>, ns1: seq<Node>, cut: Cut, level: nat, x: Tag, k: nat,
                    starts: Levels, ends: Levels, s0: Levels, s1: Levels, last: nat)
    requires level <= PCORE && k < cut.count(level, x) && s1[level + 1] >= ends[level + 1]
    requires Progress(ns0, ns1, cut, level, x, k, starts, s0, s1, last) == true
    ensures Done(ns0, ns1, cut, level, x, starts, ends, s0, s1, false) == true
  {
    assert Key(Goes, k, 0);
    FullLevel(cut, x, level, k, s0, s1, ends);
  }

  /** All children placed: the node's subtree is complete. */
  lemma ProgressEnds(ns0: seq<Node>, ns: seq<Node>, cut: Cut, level: nat, x: Tag,
                     starts: Levels, ends: Levels, s0: Levels, s: Levels, last: nat)
    requires level <= PCORE
    requires Progress(ns0, ns, cut, level, x, cut.count(level, x), starts, s0, s, last) == true
    ensures Done(ns0, ns, cut, level, x, starts, ends, s0, s, true) == true
  {
    assert Key(Goes, cut.count(level, x), 0);
  }

  /** Where the next child may go when there is room on its level. */
  lemma RoomFor(ns0: seq<Node>, ns1: seq<Node>, cut: Cut, level: nat, x: Tag, k: nat,
                starts: Levels, ends: Levels, s0: Levels, s1: Levels, last: nat)
    requires level <= PCORE && Bounded(starts, ends, s0, |ns1|) == true && Bounded(starts, ends, s1, |ns1|) == true
    requires s0[level] < ends[level] && s1[level + 1] < ends[level + 1]
    requires Progress(ns0, ns1, cut, level, x, k, starts, s0, s1, last) == true
    ensures s1[level] < s1[level + 1] < ends[level + 1] <= |ns1| && (last == NONE || last < s1[level + 1])
  {
    assert Key(Goes, k, 0);
    ProgressLast(ns0, ns1, cut, level, x, k, starts, ends, s0, s1, last);
    SliceOrder(starts, ends, level, level + 1, |ns1|);
    if level + 1 < 4 { SliceOrder(starts, ends, level + 1, 4, |ns1|); }
  }

  /** Where a builder stands: the nodes, the strides, and whether everything has fitted so far. */
  datatype Fill = Fill(ns: seq<Node>, s: Levels, ok: bool)

  /**
   Gives the node at the stride of `level`, which has k children already, the rest of them,
   each with everything below it.
   */
  ghost function Filling(cut: Cut, ends: Levels, level: nat, x: Tag, k: nat, last: nat, ns: seq<Node>, s: Levels): Fill
    requires level <= PCORE
    decreases LCORE - level, cut.count(level, x) - k
  {
    var l := level + 1;
    if k >= cut.count(level, x) then Fill(ns, s, true)
    else if s[l] >= ends[l] then Fill(ns, s, false)
    else
      var r := FillingChild(cut, ends, l, cut.child(level, x, k), Linked(ns, s[l], l, s[level], last, cut.child(level, x, k)), s);
      if r.ok then Filling(cut, ends, level, x, k + 1, r.s[l], r.ns, r.s[l := r.s[l] + 1]) else r
  }

  ghost function FillingChild(cut: Cut, ends: Levels, level: nat, y: Tag, ns: seq<Node>, s: Levels): Fill
    requires level <= LCORE
    decreases LCORE - level + 1, -1
  {
    if level < LCORE then Filling(cut, ends, level, y, 0, NONE, ns, s) else Fill(ns, s, true)
  }

  /** One round of it, as the builders make it. */
  lemma FillingNext(cut: Cut, ends: Levels, level: nat, x: Tag, k: nat, last: nat, ns: seq<Node>, s: Levels, y: Tag, c: Fill)
    requires level <= PCORE && k < cut.count(level, x) && y == cut.child(level, x, k) && s[level + 1] < ends[level + 1]
    requires c == FillingChild(cut, ends, level + 1, y, Linked(ns, s[level + 1], level + 1, s[level], last, y), s)
    ensures Filling(cut, ends, level, x, k, last, ns, s)
            == if c.ok then Filling(cut, ends, level, x, k + 1, c.s[level + 1], c.ns, c.s[level + 1 := c.s[level + 1] + 1]) else c
  {
  }

  // The builders only pass on how they are bound to end; the recursive function behind it is
  // unfolded in the lemmas below.

  ghost predicate FillsTo(cut: Cut, ends: Levels, level: nat, x: Tag, k: nat, last: nat, ns: seq<Node>, s: Levels, r: Fill)
    requires level <= PCORE
  {
    forall z: int :: Key(Fills, k, z) ==> r == Filling(cut, ends, level, x, k, last, ns, s)
  }

  ghost predicate ChildFillsTo(cut: Cut, ends: Levels, level: nat, y: Tag, ns: seq<Node>, s: Levels, r: Fill)
    requires level <= LCORE
  {
    forall z: int :: Key(FillsOne, level, z) ==> r == FillingChild(cut, ends, level, y, ns, s)
  }

  /** One more child: its place is linked in, its subtree filled, and its level moves on. */
  lemma FillsNext(cut: Cut, ends: Levels, level: nat, x: Tag, k: nat, last: nat, ns: seq<Node>, s: Levels, y: Tag, c: Fill, r: Fill)
    requires level <= PCORE && k < cut.count(level, x) && y == cut.child(level, x, k) && s[level + 1] < ends[level + 1]
    requires ChildFillsTo(cut, ends, level + 1, y, Linked(ns, s[level + 1], level + 1, s[level], last, y), s, c) == true
    requires FillsTo(cut, ends, level, x, k, last, ns, s, r) == true
    ensures c.ok ==> FillsTo(cut, ends, level, x, k + 1, c.s[level + 1], c.ns, c.s[level + 1 := c.s[level + 1] + 1], r) == true
    ensures !c.ok ==> r == c
  {
    assert Key(Fills, k, 0);
    assert Key(FillsOne, level + 1, 0);
    FillingNext(cut, ends, level, x, k, last, ns, s, y, c);
  }

  /** No room for one more child. */
  lemma FillsNot(cut: Cut, ends: Levels, level: nat, x: Tag, k: nat, last: nat, ns: seq<Node>, s: Levels, r: Fill)
    requires level <= PCORE && k < cut.count(level, x) && s[level + 1] >= ends[level + 1]
    requires FillsTo(cut, ends, level, x, k, last, ns, s, r) == true
    ensures r == Fill(ns, s, false)
  {
    assert Key(Fills, k, 0);
  }

  /** No more children. */
  lemma FillsAll(cut: Cut, ends: Levels, level: nat, x: Tag, k: nat, last: nat, ns: seq<Node>, s: Levels, r: Fill)
    requires level <= PCORE && k == cut.count(level, x)
    requires FillsTo(cut, ends, level, x, k, last, ns, s, r) == true
    ensures r == Fill(ns, s, true)
  {
    assert Key(Fills, k, 0);
  }

  /** Filling a child is filling below it, unless it is on the lowest level. */
  lemma FillsChild(cut: Cut, ends: Levels, level: nat, y: Tag, ns: seq<Node>, s: Levels, c: Fill)
    requires level <= LCORE
    ensures level < LCORE ==> (ChildFillsTo(cut, ends, level, y, ns, s, c) <==> FillsTo(cut, ends, level, y, 0, NONE, ns, s, c))
    ensures level == LCORE ==> (ChildFillsTo(cut, ends, level, y, ns, s, c) <==> c == Fill(ns, s, true))
  {
    assert Key(Fills, 0, 0);
    assert Key(FillsOne, level, 0);
  }

  /** Every node that may come up below this one and is not on the lowest level has a child. */
  ghost predicate Fertile(cut: Cut, level: nat, x: Tag)
    requires level <= LCORE
    decreases LCORE - level
  {
    level < LCORE ==> 0 < cut.count(level, x) && forall k: nat :: k < cut.count(level, x) ==> Fertile(cut, level + 1, cut.child(level, x, k))
  }

  /** What a round leaves, once its child has been filled. */
  lemma RoundEnds(ns0: seq<Node>, ns1: seq<Node>, ns2: seq<Node>, ns3: seq<Node>, cut: Cut, level: nat, x: Tag, k: nat,
                  starts: Levels, ends: Levels, s0: Levels, s1: Levels, s2: Levels, s3: Levels, last: nat)
    requires level <= PCORE && |ns0| == |ns1| == |ns3| && k < cut.count(level, x)
    requires Bounded(starts, ends, s0, |ns0|) == true && Bounded(starts, ends, s1, |ns0|) == true && s0[level] < ends[level]
    requires Progress(ns0, ns1, cut, level, x, k, starts, s0, s1, last) == true && s1[level + 1] < ends[level + 1]
    requires ns2 == Linked(ns1, s1[level + 1], level + 1, s1[level], last, cut.child(level, x, k))
    requires s2[level + 1] == s1[level + 1] && s3 == s2[level + 1 := s2[level + 1] + 1]
    requires Bounded(starts, ends, s2, |ns0|) == true
    requires Filled(ns2, ns3, cut, level + 1, cut.child(level, x, k), starts, ends, s1, s2, true) == true
    ensures Bounded(starts, ends, s3, |ns0|) == true && Progress(ns0, ns3, cut, level, x, k + 1, starts, s0, s3, s2[level + 1]) == true
  {
    RoomFor(ns0, ns1, cut, level, x, k, starts, ends, s0, s1, last);
    assert Bounded(starts, ends, s3, |ns0|);
    assert Round(ns1, ns2, ns3, cut, level, cut.child(level, x, k), starts, ends, s1, s2, last, true) == true;
    RoundDone(ns0, ns1, ns2, ns3, cut, level, x, k, starts, ends, s0, s1, s2, s3, last);
  }

  lemma RoundStops(ns0: seq<Node>, ns1: seq<Node>, ns2: seq<Node>, ns3: seq<Node>, cut: Cut, level: nat, x: Tag, k: nat,
                   starts: Levels, ends: Levels, s0: Levels, s1: Levels, s2: Levels, last: nat)
    requires level <= PCORE && |ns0| == |ns1| == |ns3| && k < cut.count(level, x)
    requires Bounded(starts, ends, s0, |ns0|) == true && Bounded(starts, ends, s1, |ns0|) == true && s0[level] < ends[level]
    requires Progress(ns0, ns1, cut, level, x, k, starts, s0, s1, last) == true && s1[level + 1] < ends[level + 1]
    requires ns2 == Linked(ns1, s1[level + 1], level + 1, s1[level], last, cut.child(level, x, k))
    requires Filled(ns2, ns3, cut, level + 1, cut.child(level, x, k), starts, ends, s1, s2, false) == true
    ensures Done(ns0, ns3, cut, level, x, starts, ends, s0, s2, false) == true
  {
    RoomFor(ns0, ns1, cut, level, x, k, starts, ends, s0, s1, last);
    assert Round(ns1, ns2, ns3, cut, level, cut.child(level, x, k), starts, ends, s1, s2, last, false) == true;
    RoundFails(ns0, ns1, ns2, ns3, cut, level, x, k, starts, ends, s0, s1, s2, last);
  }

  /** The child just linked in is the node at the stride of its level. */
  lemma LinkedIsNode(ns0: seq<Node>, ns1: seq<Node>, cut: Cut, level: nat, x: Tag, k: nat,
                     starts: Levels, ends: Levels, s0: Levels, s1: Levels, last: nat, y: Tag)
    requires level <= PCORE && |ns0| == |ns1|
    requires Bounded(starts, ends, s0, |ns0|) == true && Bounded(starts, ends, s1, |ns0|) == true && s0[level] < ends[level]
    requires Progress(ns0, ns1, cut, level, x, k, starts, s0, s1, last) == true && s1[level + 1] < ends[level + 1]
    ensures var ns2 := Linked(ns1, s1[level + 1], level + 1, s1[level], last, y);
            |ns2| == |ns1| && IsNode(ns2, s1[level + 1], level + 1, y)
  {
    RoomFor(ns0, ns1, cut, level, x, k, starts, ends, s0, s1, last);
  }

  lemma FillingRound(cut: Cut, starts: Levels, ends: Levels, level: nat, x: Tag, k: nat, last: nat,
                     ns0: seq<Node>, s0: Levels, ns: seq<Node>, s: Levels, r: Fill) returns (c: Fill)
    requires level <= PCORE && |ns| == |ns0| && k < cut.count(level, x) && Fertile(cut, level, x)
    requires Bounded(starts, ends, s0, |ns0|) == true && Bounded(starts, ends, s, |ns0|) == true && s0[level] < ends[level]
    requires Progress(ns0, ns, cut, level, x, k, starts, s0, s, last) == true && s[level + 1] < ends[level + 1]
    requires FillsTo(cut, ends, level, x, k, last, ns, s, r) == true
    ensures c.ok ==> FillsTo(cut, ends, level, x, k + 1, c.s[level + 1], c.ns, c.s[level + 1 := c.s[level + 1] + 1], r) == true
    ensures !c.ok ==> r == c
    ensures |c.ns| == |ns0| && Bounded(starts, ends, c.s, |ns0|) == true
    ensures c.ok ==> Bounded(starts, ends, c.s[level + 1 := c.s[level + 1] + 1], |ns0|) == true
    ensures c.ok ==> Progress(ns0, c.ns, cut, level, x, k + 1, starts, s0, c.s[level + 1 := c.s[level + 1] + 1], c.s[level + 1]) == true
    ensures !c.ok ==> Done(ns0, c.ns, cut, level, x, starts, ends, s0, c.s, false) == true
    decreases LCORE - level, cut.count(level, x) - k, 0
  {
    var l, y := level + 1, cut.child(level, x, k);
    var ns1 := Linked(ns, s[l], l, s[level], last, y);
    c := FillingChild(cut, ends, l, y, ns1, s);
    FillsNext(cut, ends, level, x, k, last, ns, s, y, c, r);
    LinkedIsNode(ns0, ns, cut, level, x, k, starts, ends, s0, s, last, y);
    FillingChildDone(cut, starts, ends, l, y, ns1, s, c);
    if c.ok {
      RoundEnds(ns0, ns, ns1, c.ns, cut, level, x, k, starts, ends, s0, s, c.s, c.s[l := c.s[l] + 1], last);
    } else {
      RoundStops(ns0, ns, ns1, c.ns, cut, level, x, k, starts, ends, s0, s, c.s, last);
    }
  }

  /**
   The main theorem about the builders: where they stand in the end, all the children of the
   node are there with their subtrees, or some level has no room for all of them.
   */
  lemma FillingDone(cut: Cut, starts: Levels, ends: Levels, level: nat, x: Tag, k: nat, last: nat,
                    ns0: seq<Node>, s0: Levels, ns: seq<Node>, s: Levels, r: Fill)
    requires level <= PCORE && |ns| == |ns0| && k <= cut.count(level, x) && Fertile(cut, level, x)
    requires Bounded(starts, ends, s0, |ns0|) == true && Bounded(starts, ends, s, |ns0|) == true && s0[level] < ends[level]
    requires Progress(ns0, ns, cut, level, x, k, starts, s0, s, last) == true
    requires FillsTo(cut, ends, level, x, k, last, ns, s, r) == true
    ensures |r.ns| == |ns0| && Bounded(starts, ends, r.s, |ns0|) == true
    ensures Done(ns0, r.ns, cut, level, x, starts, ends, s0, r.s, r.ok) == true
    decreases LCORE - level, cut.count(level, x) - k, 1
  {
    var l := level + 1;
    if k == cut.count(level, x) {
      FillsAll(cut, ends, level, x, k, last, ns, s, r);
      ProgressEnds(ns0, ns, cut, level, x, starts, ends, s0, s, last);
    } else if s[l] >= ends[l] {
      FillsNot(cut, ends, level, x, k, last, ns, s, r);
      RoundIsFull(ns0, ns, cut, level, x, k, starts, ends, s0, s, last);
    } else {
      var c := FillingRound(cut, starts, ends, level, x, k, last, ns0, s0, ns, s, r);
      if c.ok {
        FillingDone(cut, starts, ends, level, x, k + 1, c.s[l], ns0, s0, c.ns, c.s[l := c.s[l] + 1], r);
      }
    }
  }

  lemma FillingChildDone(cut: Cut, starts: Levels, ends: Levels, level: nat, y: Tag, ns: seq<Node>, s: Levels, r: Fill)
    requires level <= LCORE && Fertile(cut, level, y)
    requires Bounded(starts, ends, s, |ns|) == true && s[level] < ends[level] && IsNode(ns, s[level], level, y)
    requires ChildFillsTo(cut, ends, level, y, ns, s, r) == true
    ensures |r.ns| == |ns| && Bounded(starts, ends, r.s, |ns|) == true && r.s[level] == s[level]
    ensures Filled(ns, r.ns, cut, level, y, starts, ends, s, r.s, r.ok) == true
    decreases LCORE - level + 1, -1
  {
    FillsChild(cut, ends, level, y, ns, s, r);
    if level < LCORE {
      ProgressBegins(ns, cut, level, y, starts, ends, s);
      FillingDone(cut, starts, ends, level, y, 0, NONE, ns, s, ns, s, r);
      DoneKeepsAbove(ns, r.ns, cut, level, y, starts, ends, s, r.s, r.ok);
    }
  }

  lemma DoneKeepsAbove(ns0: seq<Node>, ns: seq<Node>, cut: Cut, level: nat, x: Tag,
                       starts: Levels, ends: Levels, s0: Levels, s: Levels, ok: bool)
    requires level <= PCORE && Done(ns0, ns, cut, level, x, starts, ends, s0, s, ok) == true
    ensures s[level] == s0[level]
  {
    assert Key(Ends, level, 0);
  }

  /** An array of nodes being filled: HWTREE and HWVIEW, with the running strides of their initializers. */
  class Builder {
    const nodes: array<Node>
    const starts: Levels
    const ends: Levels
    var strides: Levels
    var counts: Levels

    ghost predicate CountsOk()
      reads this
    {
      forall d :: 0 <= d < 5 ==> starts[d] + counts[d] == strides[d]
    }

    ghost predicate Valid()
      reads this
    {
      forall z: int :: Key(Holds, 0, z) ==> Bounded(starts, ends, strides, nodes.Length) && CountsOk()
    }

    constructor (nodes: array<Node>, starts: Levels, ends: Levels)
      requires Slices(starts, ends, nodes.Length)
      ensures Valid() == true && this.nodes == nodes && this.starts == starts && this.ends == ends && strides == starts
    {
      this.nodes, this.starts, this.ends := nodes, starts, ends;
      strides, counts := starts, [0, 0, 0, 0, 0];
    }

    lemma Inside(level: nat)
      requires Valid() == true && level < 5 && strides[level] < ends[level]
      ensures 0 < strides[level] < nodes.Length
    {
      assert Key(Holds, 0, 0);
    }

    /** With room on the next level, its stride is a place in the array, after this level's. */
    lemma Room(level: nat)
      requires Valid() == true && level < 4 && strides[level] < ends[level] && strides[level + 1] < ends[level + 1]
      ensures strides[level] < strides[level + 1] < nodes.Length <= NONE
    {
      assert Key(Holds, 0, 0);
    }

    /** HwTreeInitializeAffinityNode, HwTreeInitializeMachineNode and HwViewInitializeNode. */
    method InitializeNode(i: nat, level: int, parent: nat, prev: nat, tag: Tag)
      requires i < nodes.Length && parent < i && (prev == NONE || prev < i)
      modifies nodes
      ensures nodes[..] == Linked(old(nodes[..]), i, level, parent, prev, tag)
    {
      nodes[i] := Node(level, parent, NONE, NONE, NONE, prev, tag);
      nodes[parent] := nodes[parent].(last := i);
      if prev == NONE || nodes[prev].parent != parent {
        nodes[parent] := nodes[parent].(first := i);
      } else {
        nodes[prev] := nodes[prev].(next := i);
      }
    }

    /** The start of a round: a new child of the node at the stride of this level, if there is room for one. */
    method Open(level: nat, last: nat, tag: Tag) returns (ok: bool)
      requires Valid() == true && level < 4 && strides[level] < ends[level]
      requires last == NONE || last + 1 == strides[level + 1]
      modifies nodes
      ensures ok == (strides[level + 1] < ends[level + 1])
      ensures nodes[..] == if ok then Linked(old(nodes[..]), strides[level + 1], level + 1, strides[level], last, tag)
                           else old(nodes[..])
    {
      if strides[level + 1] >= ends[level + 1] {
        return false;
      }
      Room(level);
      InitializeNode(strides[level + 1], level + 1, strides[level], last, tag);
      ok := true;
    }

    method Advance(level: nat)
      requires Valid() == true && level < 5 && strides[level] < ends[level]
      modifies this`strides, this`counts
      ensures Valid() == true && strides == old(strides)[level := old(strides)[level] + 1]
      ensures nodes[..] == old(nodes[..])
    {
      assert Key(Holds, 0, 0);
      strides := strides[level := strides[level] + 1];
      counts := counts[level := counts[level] + 1];
    }
  }
}
