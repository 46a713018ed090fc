/**
 The view of a hardware tree: the same kind of tree, of those nodes only whose processors
 are active (hwview.cpp).
 */
module HwView {
  import opened HwMask
  import opened HwTree
  import opened PackedTree
  import opened Sealing
  import opened TreeSpans

  /** The node has an active processor. */
  predicate Active(tree: seq<Node>, infos: seq<Info>, t: nat) {
    && t < |tree| && tree[t].tag.Affinity? && tree[t].tag.group < |infos|
    && tree[t].tag.mask * infos[tree[t].tag.group].active != {}
  }

  // ---- the active nodes of an interval -----------------------------------------------

  /** How many of the nodes [a, z) are active. */
  ghost function ActiveCount(tree: seq<Node>, infos: seq<Info>, a: nat, z: nat): nat
    decreases z - a
  {
    if z <= a then 0 else ActiveCount(tree, infos, a, z - 1) + if Active(tree, infos, z - 1) then 1 else 0
  }

  /** The active node of [a, z) that has k of them before it. */
  ghost function NthActive(tree: seq<Node>, infos: seq<Info>, a: nat, z: nat, k: nat): nat
    decreases z - a
  {
    if z <= a then a
    else if Active(tree, infos, z - 1) && ActiveCount(tree, infos, a, z - 1) == k then z - 1
    else NthActive(tree, infos, a, z - 1, k)
  }

  lemma {:induction false} ActiveMono(tree: seq<Node>, infos: seq<Info>, a: nat, y: nat, z: nat)
    requires y <= z
    ensures ActiveCount(tree, infos, a, y) <= ActiveCount(tree, infos, a, z) <= ActiveCount(tree, infos, a, y) + (z - y)
    decreases z - y
  {
    if y < z { ActiveMono(tree, infos, a, y, z - 1); }
  }

  lemma {:induction false} NthIs(tree: seq<Node>, infos: seq<Info>, a: nat, z: nat, t: nat)
    requires a <= t < z && Active(tree, infos, t)
    ensures ActiveCount(tree, infos, a, t) < ActiveCount(tree, infos, a, z)
    ensures NthActive(tree, infos, a, z, ActiveCount(tree, infos, a, t)) == t
    decreases z
  {
    if t < z - 1 {
      NthIs(tree, infos, a, z - 1, t);
      ActiveMono(tree, infos, a, t + 1, z - 1);
    }
  }

  lemma {:induction false} NthFound(tree: seq<Node>, infos: seq<Info>, a: nat, z: nat, k: nat)
    requires k < ActiveCount(tree, infos, a, z)
    ensures var t := NthActive(tree, infos, a, z, k);
            a <= t < z && Active(tree, infos, t) && ActiveCount(tree, infos, a, t) == k
    decreases z
  {
    if !(Active(tree, infos, z - 1) && ActiveCount(tree, infos, a, z - 1) == k) {
      NthFound(tree, infos, a, z - 1, k);
    }
  }

  // ---- what the view is to hold ------------------------------------------------------

  ghost function ViewCount(tree: seq<Node>, infos: seq<Info>, x: Tag): nat {
    if x.NodeId? && x.id < |tree| then ActiveCount(tree, infos, tree[x.id].first, tree[x.id].last + 1) else 0
  }

  ghost function ViewChild(tree: seq<Node>, infos: seq<Info>, x: Tag, k: nat): Tag {
    if x.NodeId? && x.id < |tree| then NodeId(NthActive(tree, infos, tree[x.id].first, tree[x.id].last + 1, k)) else x
  }

  /** A node of the view stands for a node of the tree and has the active children of that node. */
  ghost function ViewCut(tree: seq<Node>, infos: seq<Info>): Cut {
    Cut((level: int, x: Tag) => ViewCount(tree, infos, x), (level: int, x: Tag, k: nat) => ViewChild(tree, infos, x, k))
  }

  ghost predicate IsViewCut(cut: Cut, tree: seq<Node>, infos: seq<Info>) {
    forall z: int :: Key(Shape, 0, z) ==> cut == ViewCut(tree, infos)
  }

  /** The tree that HwTreeInitialize leaves. */
  ghost predicate Given(tree: seq<Node>, infos: seq<Info>, ts: Levels, te: Levels) {
    SummaryOk(infos) && TreeOk(tree, infos, ts, te) == true && Tiled(tree, CutOf(infos), ts, te) == true
  }

  lemma TreeIsGiven(tree: seq<Node>, infos: seq<Info>, ts: Levels, te: Levels)
    requires SummaryOk(infos) && TreeOk(tree, infos, ts, te) == true
    ensures Given(tree, infos, ts, te)
  {
    assert Key(Whole, 0, 0);
    var cut := CutOf(infos);
    forall d | 0 <= d < 4 ensures LevelOk(tree, cut, d, ts, te) {
      if d == 0 { RangeOne(tree, cut, MACHINE, SELF, ts[GROUP], te[GROUP]); }
    }
  }

  // ---- room --------------------------------------------------------------------------

  /** How many nodes the tree has on level d below this one. */
  ghost function Span(tree: seq<Node>, p: nat, level: nat, d: nat): int
    requires level <= d
  {
    LastAt(tree, p, level, d) + 1 - FirstAt(tree, p, level, d)
  }

  /** The view never needs more nodes below a node than the tree has. */
  lemma {:induction false} CountInSpan(cut: Cut, tree: seq<Node>, infos: seq<Info>, ts: Levels, te: Levels, p: nat, level: nat, d: nat)
    requires Given(tree, infos, ts, te) == true && IsViewCut(cut, tree, infos) == true && level <= d < 5 && At(ts, te, level, p)
    ensures Count(cut, NodeId(p), level, d) <= Span(tree, p, level, d)
    decreases d - level, 1, 0
  {
    TiledIn(tree, CutOf(infos), ts, te, level, p);
    if level < d {
      TiledNode(tree, CutOf(infos), ts, te, level, p);
      CountUpToInSpan(cut, tree, infos, ts, te, p, level, d, tree[p].last + 1);
      ChildrenAre(cut, tree, infos, p, level);
    }
  }

  lemma ChildrenAre(cut: Cut, tree: seq<Node>, infos: seq<Info>, p: nat, level: nat)
    requires IsViewCut(cut, tree, infos) == true && p < |tree|
    ensures cut.count(level, NodeId(p)) == ActiveCount(tree, infos, tree[p].first, tree[p].last + 1)
  {
    assert Key(Shape, 0, 0);
  }

  lemma ChildIs(cut: Cut, tree: seq<Node>, infos: seq<Info>, p: nat, level: nat, c: nat)
    requires IsViewCut(cut, tree, infos) == true && p < |tree| && tree[p].first <= c <= tree[p].last && Active(tree, infos, c)
    ensures ActiveCount(tree, infos, tree[p].first, c) < cut.count(level, NodeId(p))
    ensures cut.child(level, NodeId(p), ActiveCount(tree, infos, tree[p].first, c)) == NodeId(c)
  {
    assert Key(Shape, 0, 0);
    NthIs(tree, infos, tree[p].first, tree[p].last + 1, c);
  }

  /** The active children before c need no more than there is before the descendants of c. */
  lemma {:induction false} CountUpToInSpan(cut: Cut, tree: seq<Node>, infos: seq<Info>, ts: Levels, te: Levels,
                                           p: nat, level: nat, d: nat, c: nat)
    requires Given(tree, infos, ts, te) == true && IsViewCut(cut, tree, infos) == true && level < d < 5 && At(ts, te, level, p)
    requires p < |tree| && tree[p].first <= c <= tree[p].last + 1
    ensures CountUpTo(cut, NodeId(p), level, d, ActiveCount(tree, infos, tree[p].first, c))
            <= (if c <= tree[p].last then FirstAt(tree, c, level + 1, d) else LastAt(tree, p, level, d) + 1) - FirstAt(tree, p, level, d)
    decreases d - level, 0, c
  {
    TiledNode(tree, CutOf(infos), ts, te, level, p);
    var l := level + 1;
    if c > tree[p].first {
      CountUpToInSpan(cut, tree, infos, ts, te, p, level, d, c - 1);
      CountInSpan(cut, tree, infos, ts, te, c - 1, l, d);
      CountOneMore(cut, tree, infos, p, level, d, c - 1);
      SpanAfter(tree, infos, ts, te, p, level, d, c);
    }
  }

  /** Where the descendants of the children before c end, those of c begin, or the node's own end. */
  lemma SpanAfter(tree: seq<Node>, infos: seq<Info>, ts: Levels, te: Levels, p: nat, level: nat, d: nat, c: nat)
    requires Given(tree, infos, ts, te) == true && level < d < 5 && At(ts, te, level, p)
    requires p < |tree| && tree[p].first < c <= tree[p].last + 1
    ensures Span(tree, c - 1, level + 1, d) == LastAt(tree, c - 1, level + 1, d) + 1 - FirstAt(tree, c - 1, level + 1, d)
    ensures LastAt(tree, c - 1, level + 1, d) + 1
         == if c <= tree[p].last then FirstAt(tree, c, level + 1, d) else LastAt(tree, p, level, d) + 1
  {
    TiledNode(tree, CutOf(infos), ts, te, level, p);
    SpanUp(tree, CutOf(infos), ts, te, c - 1, level + 1, d);
    if c <= tree[p].last {
      SpanNext(tree, CutOf(infos), ts, te, c - 1, level + 1, d);
    }
  }

  lemma CountOneMore(cut: Cut, tree: seq<Node>, infos: seq<Info>, p: nat, level: nat, d: nat, c: nat)
    requires IsViewCut(cut, tree, infos) == true && p < |tree| && tree[p].first <= c <= tree[p].last && level < d
    ensures var a := tree[p].first;
            CountUpTo(cut, NodeId(p), level, d, ActiveCount(tree, infos, a, c + 1))
            == CountUpTo(cut, NodeId(p), level, d, ActiveCount(tree, infos, a, c))
               + if Active(tree, infos, c) then Count(cut, NodeId(c), level + 1, d) else 0
  {
    if Active(tree, infos, c) { ChildIs(cut, tree, infos, p, level, c); }
  }

  /** On every level there is room for all that the tree has below this node. */
  ghost predicate Roomy(tree: seq<Node>, p: nat, level: nat, s: Levels, ends: Levels)
    requires level < 5
  {
    forall d :: level < d < 5 ==> s[d] + Span(tree, p, level, d) <= ends[d]
  }

  /** With the active children before c in place there is room for c and all below it. */
  lemma RoomAt(cut: Cut, tree: seq<Node>, infos: seq<Info>, ts: Levels, te: Levels, p: nat, level: nat, c: nat,
               s0: Levels, s: Levels, ends: Levels)
    requires Given(tree, infos, ts, te) == true && IsViewCut(cut, tree, infos) == true && level < 4 && At(ts, te, level, p)
    requires p < |tree| && tree[p].first <= c <= tree[p].last && Roomy(tree, p, level, s0, ends) == true
    requires Grown(cut, NodeId(p), level, ActiveCount(tree, infos, tree[p].first, c), s0, s) == true
    ensures s[level + 1] < ends[level + 1] && Roomy(tree, c, level + 1, s, ends) == true
  {
    var l, k := level + 1, ActiveCount(tree, infos, tree[p].first, c);
    TiledNode(tree, CutOf(infos), ts, te, level, p);
    forall d | l <= d < 5 ensures s[d] + Span(tree, c, l, d) <= ends[d] {
      CountUpToInSpan(cut, tree, infos, ts, te, p, level, d, c);
      SpanOrder(tree, CutOf(infos), ts, te, c, tree[p].last, l, d);
      SpanLast(tree, p, level, d);
      LastOrder(tree, infos, ts, te, c, tree[p].last, l, d);
    }
    assert Span(tree, c, l, l) == 1;
  }

  lemma SpanLast(tree: seq<Node>, p: nat, level: nat, d: nat)
    requires level < d && p < |tree|
    ensures LastAt(tree, p, level, d) == LastAt(tree, tree[p].last, level + 1, d)
  {
  }

  lemma LastOrder(tree: seq<Node>, infos: seq<Info>, ts: Levels, te: Levels, m: nat, n: nat, level: nat, d: nat)
    requires Given(tree, infos, ts, te) == true && level <= d < 5 && At(ts, te, level, m) && At(ts, te, level, n) && m <= n
    ensures LastAt(tree, m, level, d) <= LastAt(tree, n, level, d)
  {
    SpanOrder(tree, CutOf(infos), ts, te, m, n, level, d);
    SpanUp(tree, CutOf(infos), ts, te, n, level, d);
  }

  ghost predicate GrownFrom(cut: Cut, y: Tag, level: nat, s1: Levels, s2: Levels)
    requires level < 5
  {
    if level < LCORE then Grown(cut, y, level, cut.count(level, y), s1, s2) else s2 == s1
  }

  /** One active child more. */
  lemma GrownNext(cut: Cut, tree: seq<Node>, infos: seq<Info>, p: nat, level: nat, c: nat,
                  s0: Levels, s1: Levels, s2: Levels, s3: Levels)
    requires IsViewCut(cut, tree, infos) == true && level < 4 && p < |tree| && tree[p].first <= c <= tree[p].last
    requires Active(tree, infos, c) && SameAbove(s0, s1, level) == true && SameAbove(s1, s2, level + 1) == true
    requires Grown(cut, NodeId(p), level, ActiveCount(tree, infos, tree[p].first, c), s0, s1) == true
    requires GrownFrom(cut, NodeId(c), level + 1, s1, s2) == true
    requires s3 == s2[level + 1 := s2[level + 1] + 1]
    ensures Grown(cut, NodeId(p), level, ActiveCount(tree, infos, tree[p].first, c + 1), s0, s3) == true
  {
    ChildIs(cut, tree, infos, p, level, c);
    CountsAdded(cut, NodeId(c), level + 1, s1, s2, s3);
    GrownStep(cut, NodeId(p), level, ActiveCount(tree, infos, tree[p].first, c), s0, s1, s3);
  }

  // ---- HwViewInitialize --------------------------------------------------------------

  /**
   HwViewInitializeSubTree: the node at the current stride of its level gets its children,
   for the active children of the tree node it stands for. It never runs out of room.
   */
  method InitializeSubTree(b: Builder, tree: seq<Node>, infos: seq<Info>, parent: nat,
                           ghost cut: Cut, ghost level: nat, ghost ts: Levels, ghost te: Levels, ghost r: Fill) returns (ok: bool)
    requires b.Valid() == true && Given(tree, infos, ts, te) == true && IsViewCut(cut, tree, infos) == true
    requires level < 4 && At(ts, te, level, parent) && b.strides[level] < b.ends[level]
    requires Roomy(tree, parent, level, b.strides, b.ends) == true
    requires FillsTo(cut, b.ends, level, NodeId(parent), 0, NONE, b.nodes[..], b.strides, r) == true
    modifies b`strides, b`counts, b.nodes
    ensures ok && r == Fill(b.nodes[..], b.strides, true)
    ensures b.Valid() == true && SameAbove(old(b.strides), b.strides, level) == true
    ensures Grown(cut, NodeId(parent), level, cut.count(level, NodeId(parent)), old(b.strides), b.strides) == true
    decreases LCORE - level, 2
  {
    TiledNode(tree, CutOf(infos), ts, te, level, parent);
    TiledIn(tree, CutOf(infos), ts, te, level + 1, tree[parent].first);
    ghost var s0 := b.strides;
    var last, current, end := NONE, tree[parent].first, tree[parent].last;
    var depth: nat := tree[current].level;
    while current <= end
      invariant tree[parent].first <= current <= end + 1
      invariant InSubTree(b, tree, infos, parent, level, current, last, cut, s0, r) == true
    {
      ok, last := Visit(b, tree, infos, parent, current, depth, last, cut, ts, te, s0, r);
      if !ok {
        assert false;
        return false;
      }
      current := current + 1;
    }
    ChildrenAre(cut, tree, infos, parent, level);
    FillsAll(cut, b.ends, level, NodeId(parent), ActiveCount(tree, infos, tree[parent].first, current), last, b.nodes[..], b.strides, r);
    ok := true;
  }

  /** The active children before `current` are in place. */
  ghost predicate InSubTree(b: Builder, tree: seq<Node>, infos: seq<Info>, parent: nat, level: nat, current: nat, last: nat,
                            cut: Cut, s0: Levels, r: Fill)
    requires level < 4
    reads b, b.nodes
  {
    && parent < |tree| && b.Valid() && SameAbove(s0, b.strides, level) && (last == NONE || last + 1 == b.strides[level + 1])
    && Grown(cut, NodeId(parent), level, ActiveCount(tree, infos, tree[parent].first, current), s0, b.strides)
    && FillsTo(cut, b.ends, level, NodeId(parent), ActiveCount(tree, infos, tree[parent].first, current), last,
               b.nodes[..], b.strides, r)
  }

  /** One child of the tree node: it is placed if it is active. */
  method Visit(b: Builder, tree: seq<Node>, infos: seq<Info>, parent: nat, current: nat, depth: nat, last: nat,
               ghost cut: Cut, ghost ts: Levels, ghost te: Levels, ghost s0: Levels, ghost r: Fill)
    returns (ok: bool, last': nat)
    requires Given(tree, infos, ts, te) == true && IsViewCut(cut, tree, infos) == true
    requires 0 < depth < 5 && At(ts, te, depth - 1, parent) && At(ts, te, depth, current) && parent < |tree|
    requires tree[parent].first <= current <= tree[parent].last && s0[depth - 1] < b.ends[depth - 1]
    requires Roomy(tree, parent, depth - 1, s0, b.ends) == true
    requires InSubTree(b, tree, infos, parent, depth - 1, current, last, cut, s0, r) == true
    modifies b`strides, b`counts, b.nodes
    ensures ok && InSubTree(b, tree, infos, parent, depth - 1, current + 1, last', cut, s0, r) == true
    decreases LCORE - depth + 1, 1
  {
    RoomAt(cut, tree, infos, ts, te, parent, depth - 1, current, s0, b.strides, b.ends);
    if b.strides[depth] >= b.ends[depth] {
      assert false;
      return false, last;
    }
    ok, last' := true, last;
    if Active(tree, infos, current) {
      ok := PlaceNode(b, tree, infos, parent, current, depth, last, cut, ts, te, s0, r);
      last' := b.strides[depth] - 1;
    }
  }

  /** The loop's body for an active node. */
  method PlaceNode(b: Builder, tree: seq<Node>, infos: seq<Info>, parent: nat, current: nat, depth: nat, last: nat,
                   ghost cut: Cut, ghost ts: Levels, ghost te: Levels, ghost s0: Levels, ghost r: Fill) returns (ok: bool)
    requires b.Valid() == true && Given(tree, infos, ts, te) == true && IsViewCut(cut, tree, infos) == true
    requires 0 < depth < 5 && At(ts, te, depth - 1, parent) && At(ts, te, depth, current) && parent < |tree|
    requires tree[parent].first <= current <= tree[parent].last && Active(tree, infos, current)
    requires b.strides[depth - 1] < b.ends[depth - 1] && b.strides[depth] < b.ends[depth]
    requires Roomy(tree, current, depth, b.strides, b.ends) == true && (last == NONE || last + 1 == b.strides[depth])
    requires SameAbove(s0, b.strides, depth - 1) == true
    requires Grown(cut, NodeId(parent), depth - 1, ActiveCount(tree, infos, tree[parent].first, current), s0, b.strides) == true
    requires FillsTo(cut, b.ends, depth - 1, NodeId(parent), ActiveCount(tree, infos, tree[parent].first, current), last,
                     b.nodes[..], b.strides, r) == true
    modifies b`strides, b`counts, b.nodes
    ensures ok && b.Valid() == true && SameAbove(s0, b.strides, depth - 1) == true && b.strides[depth] > 0
    ensures Grown(cut, NodeId(parent), depth - 1, ActiveCount(tree, infos, tree[parent].first, current + 1), s0, b.strides) == true
    ensures FillsTo(cut, b.ends, depth - 1, NodeId(parent), ActiveCount(tree, infos, tree[parent].first, current + 1),
                    b.strides[depth] - 1, b.nodes[..], b.strides, r) == true
    decreases LCORE - depth + 1, 0
  {
    ghost var level, x, y, k := depth - 1, NodeId(parent), NodeId(current), ActiveCount(tree, infos, tree[parent].first, current);
    ghost var ns, s1 := b.nodes[..], b.strides;
    ok := Plant(b, tree, infos, current, depth, last, cut, ts, te);
    ghost var c := Fill(b.nodes[..], b.strides, true);
    ghost var s2 := b.strides;
    ChildIs(cut, tree, infos, parent, level, current);
    FillsNext(cut, b.ends, level, x, k, last, ns, s1, y, c, r);
    b.Advance(depth);
    GrownNext(cut, tree, infos, parent, level, current, s0, s1, s2, b.strides);
  }

  /** A new node at the stride of its level, and all that goes below it. */
  method Plant(b: Builder, tree: seq<Node>, infos: seq<Info>, current: nat, depth: nat, last: nat,
               ghost cut: Cut, ghost ts: Levels, ghost te: Levels) returns (ok: bool)
    requires b.Valid() == true && Given(tree, infos, ts, te) == true && IsViewCut(cut, tree, infos) == true
    requires 0 < depth < 5 && At(ts, te, depth, current)
    requires b.strides[depth - 1] < b.ends[depth - 1] && b.strides[depth] < b.ends[depth]
    requires Roomy(tree, current, depth, b.strides, b.ends) == true && (last == NONE || last + 1 == b.strides[depth])
    modifies b`strides, b`counts, b.nodes
    ensures ok && b.Valid() == true && SameAbove(old(b.strides), b.strides, depth) == true
    ensures GrownFrom(cut, NodeId(current), depth, old(b.strides), b.strides) == true
    ensures ChildFillsTo(cut, b.ends, depth, NodeId(current),
                         Linked(old(b.nodes[..]), old(b.strides)[depth], depth, old(b.strides)[depth - 1], last, NodeId(current)),
                         old(b.strides), Fill(b.nodes[..], b.strides, true)) == true
    decreases LCORE - depth, 4
  {
    ok := b.Open(depth - 1, last, NodeId(current));
    ok := FillNode(b, tree, infos, current, depth, cut, ts, te);
  }

  /** What stands below an active node, unless it is on the lowest level. */
  method FillNode(b: Builder, tree: seq<Node>, infos: seq<Info>, current: nat, depth: nat,
                  ghost cut: Cut, ghost ts: Levels, ghost te: Levels) returns (ok: bool)
    requires b.Valid() == true && Given(tree, infos, ts, te) == true && IsViewCut(cut, tree, infos) == true
    requires 0 < depth < 5 && At(ts, te, depth, current) && b.strides[depth] < b.ends[depth]
    requires Roomy(tree, current, depth, b.strides, b.ends) == true
    modifies b`strides, b`counts, b.nodes
    ensures ok && b.Valid() == true && SameAbove(old(b.strides), b.strides, depth) == true
    ensures GrownFrom(cut, NodeId(current), depth, old(b.strides), b.strides) == true
    ensures ChildFillsTo(cut, b.ends, depth, NodeId(current), old(b.nodes[..]), old(b.strides), Fill(b.nodes[..], b.strides, true)) == true
    decreases LCORE - depth, 3
  {
    ghost var c := FillingChild(cut, b.ends, depth, NodeId(current), b.nodes[..], b.strides);
    FillsChild(cut, b.ends, depth, NodeId(current), b.nodes[..], b.strides, c);
    ok := true;
    if depth < LCORE {
      ok := InitializeSubTree(b, tree, infos, current, cut, depth, ts, te, c);
    }
  }

  const VIEW_HEADER_BYTES: nat := 52
  const VIEW_NODES_OFFSET: nat := 48
  const VIEW_NODE_BYTES: nat := 28

  function ViewCapacity(cb: nat): nat {
    if cb < VIEW_NODES_OFFSET then 0 else (cb - VIEW_NODES_OFFSET) / VIEW_NODE_BYTES
  }

  /** How many nodes the tree really has on each level. */
  ghost function Sizes(ts: Levels, te: Levels): Levels
    requires forall d :: 0 <= d < 5 ==> ts[d] <= te[d]
  {
    [te[0] - ts[0], te[1] - ts[1], te[2] - ts[2], te[3] - ts[3], te[4] - ts[4]]
  }

  lemma GivenSizes(tree: seq<Node>, infos: seq<Info>, ts: Levels, te: Levels)
    requires Given(tree, infos, ts, te) == true
    ensures forall d :: 0 <= d < 5 ==> ts[d] < te[d] <= |tree|
    ensures forall d :: 0 <= d < 5 ==> Span(tree, SELF, MACHINE, d) == te[d] - ts[d]
    ensures ts[0] == SELF && te[0] == SELF + 1 && Sizes(ts, te)[0] == 1 && |tree| <= NONE
    ensures te[0] <= ts[1] && te[1] <= ts[2] && te[2] <= ts[3] && te[3] <= ts[4]
  {
    var cut := CutOf(infos);
    TiledMachine(tree, cut, ts, te);
    TiledEnds(tree, cut, ts, te, 0);
    TiledEnds(tree, cut, ts, te, 1);
    TiledEnds(tree, cut, ts, te, 2);
    TiledEnds(tree, cut, ts, te, 3);
    forall d | 0 <= d < 5 ensures Span(tree, SELF, MACHINE, d) == te[d] - ts[d] {
      SpanEnds(tree, cut, ts, te, MACHINE, d);
    }
  }

  /** HwViewCalculateCountNodes: the chains of first and of last children measure the levels. */
  method CalculateCountNodes(tree: seq<Node>, ghost infos: seq<Info>, ghost ts: Levels, ghost te: Levels)
    returns (counts: Levels, total: nat)
    requires Given(tree, infos, ts, te) == true && SELF < |tree|
    ensures (forall d :: 0 <= d < 5 ==> ts[d] <= te[d]) && counts == Sizes(ts, te)
    ensures total == EndsOf(counts)[LCORE] <= |tree|
  {
    counts := [0, 0, 0, 0, 0];
    var first, last, depth := tree[SELF].first, tree[SELF].last, GROUP;
    MachineChain(tree, infos, ts, te, MACHINE);
    while depth < 5
      invariant GROUP <= depth <= 5
      invariant depth < 5 ==> first == FirstAt(tree, SELF, MACHINE, depth) && last == LastAt(tree, SELF, MACHINE, depth)
      invariant forall d :: GROUP <= d < depth ==> counts[d] + ts[d] == te[d]
    {
      MachineChain(tree, infos, ts, te, depth);
      counts := counts[depth := last + 1 - first];
      first, last := tree[first].first, tree[last].last;
      depth := depth + 1;
    }
    counts := counts[MACHINE := 1];
    SizesAre(tree, infos, ts, te, counts);
    total := 1 + counts[0] + counts[1] + counts[2] + counts[3] + counts[4];
  }

  lemma SizesAre(tree: seq<Node>, infos: seq<Info>, ts: Levels, te: Levels, counts: Levels)
    requires Given(tree, infos, ts, te) == true && counts[MACHINE] == 1
    requires forall d :: GROUP <= d < 5 ==> counts[d] + ts[d] == te[d]
    ensures (forall d :: 0 <= d < 5 ==> ts[d] <= te[d]) && counts == Sizes(ts, te)
    ensures 1 + counts[0] + counts[1] + counts[2] + counts[3] + counts[4] == EndsOf(counts)[LCORE] <= |tree|
  {
    GivenSizes(tree, infos, ts, te);
  }

  lemma MachineChain(tree: seq<Node>, infos: seq<Info>, ts: Levels, te: Levels, d: nat)
    requires Given(tree, infos, ts, te) == true && d < 5
    ensures var f, l := FirstAt(tree, SELF, MACHINE, d), LastAt(tree, SELF, MACHINE, d);
            f <= l < |tree| && ts[d] + l + 1 - f == te[d]
            && (d < 4 ==> tree[f].first == FirstAt(tree, SELF, MACHINE, d + 1) && tree[l].last == LastAt(tree, SELF, MACHINE, d + 1))
  {
    var cut := CutOf(infos);
    GivenSizes(tree, infos, ts, te);
    SpanIn(tree, cut, ts, te, SELF, MACHINE, d);
    SpanEnds(tree, cut, ts, te, MACHINE, d);
    if d < 4 { SpanStep(tree, cut, ts, te, SELF, MACHINE, d + 1); }
  }

  ghost predicate AnyActive(tree: seq<Node>, infos: seq<Info>, ts: Levels, te: Levels) {
    exists t :: At(ts, te, GROUP, t) && Active(tree, infos, t)
  }

  /** The finished view, whose nodes on level d are those from vs[d] up to ve[d]. */
  ghost predicate ViewOk(view: seq<Node>, tree: seq<Node>, infos: seq<Info>, vs: Levels, ve: Levels) {
    && Tiled(view, ViewCut(tree, infos), vs, ve) == true
    && SELF < |view| && view[SELF] == Node(MACHINE, WORLD, view[SELF].first, view[SELF].last, NONE, NONE, NodeId(SELF))
  }

  /** An active node above the lowest level has an active child, for its pieces cover its mask. */
  lemma ActiveHasChild(tree: seq<Node>, infos: seq<Info>, ts: Levels, te: Levels, d: nat, p: nat) returns (c: nat)
    requires Given(tree, infos, ts, te) == true && GROUP <= d <= PCORE && At(ts, te, d, p) && Active(tree, infos, p)
    ensures tree[p].first <= c <= tree[p].last && Active(tree, infos, c) && At(ts, te, d + 1, c)
  {
    var cut := CutOf(infos);
    TiledNode(tree, cut, ts, te, d, p);
    var g, m := tree[p].tag.group, tree[p].tag.mask;
    var b :| b in m * infos[g].active;
    c := FamilyCovers(tree, cut, infos, d, p, g, m, b);
    assert b in tree[c].tag.mask * infos[g].active;
  }

  lemma SomeActiveChild(tree: seq<Node>, infos: seq<Info>, ts: Levels, te: Levels, d: nat, p: nat) returns (c: nat)
    requires Given(tree, infos, ts, te) == true && d < LCORE && At(ts, te, d, p)
    requires if d == MACHINE then AnyActive(tree, infos, ts, te) else Active(tree, infos, p)
    ensures p < |tree| && tree[p].first <= c <= tree[p].last < |tree| && Active(tree, infos, c)
  {
    TiledNode(tree, CutOf(infos), ts, te, d, p);
    if d == MACHINE {
      GroupsBelow(tree, infos, ts, te, p);
      c :| At(ts, te, GROUP, c) && Active(tree, infos, c);
    } else {
      c := ActiveHasChild(tree, infos, ts, te, d, p);
    }
  }

  lemma ViewChildren(tree: seq<Node>, infos: seq<Info>, ts: Levels, te: Levels, d: nat, p: nat)
    requires Given(tree, infos, ts, te) == true && d < LCORE && At(ts, te, d, p)
    requires if d == MACHINE then AnyActive(tree, infos, ts, te) else Active(tree, infos, p)
    ensures p < |tree| && 0 < ActiveCount(tree, infos, tree[p].first, tree[p].last + 1)
  {
    var c := SomeActiveChild(tree, infos, ts, te, d, p);
    NthIs(tree, infos, tree[p].first, tree[p].last + 1, c);
  }

  lemma {:induction false} ViewFertile(tree: seq<Node>, infos: seq<Info>, ts: Levels, te: Levels, d: nat, p: nat)
    requires Given(tree, infos, ts, te) == true && d <= LCORE && At(ts, te, d, p)
    requires if d == MACHINE then AnyActive(tree, infos, ts, te) else Active(tree, infos, p)
    ensures Fertile(ViewCut(tree, infos), d, NodeId(p))
    decreases LCORE - d
  {
    if d < LCORE {
      var cut := ViewCut(tree, infos);
      ViewChildren(tree, infos, ts, te, d, p);
      forall k: nat | k < cut.count(d, NodeId(p)) ensures Fertile(cut, d + 1, cut.child(d, NodeId(p), k)) {
        var c := ViewChildAt(tree, infos, ts, te, d, p, k);
        ViewFertile(tree, infos, ts, te, d + 1, c);
      }
    }
  }

  lemma ViewChildAt(tree: seq<Node>, infos: seq<Info>, ts: Levels, te: Levels, d: nat, p: nat, k: nat) returns (c: nat)
    requires Given(tree, infos, ts, te) == true && d < LCORE && At(ts, te, d, p)
    requires k < ViewCut(tree, infos).count(d, NodeId(p))
    ensures p < |tree| && tree[p].first <= c <= tree[p].last && At(ts, te, d + 1, c) && Active(tree, infos, c)
    ensures ViewCut(tree, infos).child(d, NodeId(p), k) == NodeId(c) && ActiveCount(tree, infos, tree[p].first, c) == k
  {
    TiledNode(tree, CutOf(infos), ts, te, d, p);
    NthFound(tree, infos, tree[p].first, tree[p].last + 1, k);
    c := NthActive(tree, infos, tree[p].first, tree[p].last + 1, k);
  }

  lemma GroupsBelow(tree: seq<Node>, infos: seq<Info>, ts: Levels, te: Levels, p: nat)
    requires Given(tree, infos, ts, te) == true && At(ts, te, MACHINE, p)
    ensures p == SELF < |tree| && tree[SELF].first == ts[GROUP] && tree[SELF].last + 1 == te[GROUP]
  {
    TiledMachine(tree, CutOf(infos), ts, te);
    TiledEnds(tree, CutOf(infos), ts, te, MACHINE);
  }

  lemma ViewSlices(tree: seq<Node>, infos: seq<Info>, ts: Levels, te: Levels, n: nat)
    requires Given(tree, infos, ts, te) == true && (forall d :: 0 <= d < 5 ==> ts[d] <= te[d])
    requires EndsOf(Sizes(ts, te))[LCORE] <= n <= NONE
    ensures var sizes := Sizes(ts, te);
            && Bounded(StartsOf(sizes), EndsOf(sizes), StartsOf(sizes), n) == true
            && Roomy(tree, SELF, MACHINE, StartsOf(sizes), EndsOf(sizes)) == true
            && StartsOf(sizes)[MACHINE] == SELF && EndsOf(sizes)[MACHINE] == SELF + 1
  {
    GivenSizes(tree, infos, ts, te);
  }

  /** The machine alone, as it stands before it gets its children. */
  ghost predicate Bare(ns: seq<Node>) {
    SELF < |ns| <= NONE && ns[SELF] == Node(MACHINE, WORLD, NONE, NONE, NONE, NONE, NodeId(SELF))
  }

  lemma FilledView(tree: seq<Node>, infos: seq<Info>, ts: Levels, te: Levels, ns: seq<Node>, vs: Levels, ve: Levels, r: Fill)
    requires Given(tree, infos, ts, te) == true && AnyActive(tree, infos, ts, te) && Bare(ns)
    requires Bounded(vs, ve, vs, |ns|) == true && vs[MACHINE] == SELF < ve[MACHINE]
    requires ChildFillsTo(ViewCut(tree, infos), ve, MACHINE, NodeId(SELF), ns, vs, r) == true && r.ok
    ensures ViewOk(r.ns, tree, infos, vs, r.s[MACHINE := r.s[MACHINE] + 1])
  {
    var cut := ViewCut(tree, infos);
    GroupsBelowAt(tree, infos, ts, te);
    ViewFertile(tree, infos, ts, te, MACHINE, SELF);
    FillingChildDone(cut, vs, ve, MACHINE, NodeId(SELF), ns, vs, r);
    FilledTiles(cut, ns, vs, ve, r);
  }

  lemma GroupsBelowAt(tree: seq<Node>, infos: seq<Info>, ts: Levels, te: Levels)
    requires Given(tree, infos, ts, te) == true
    ensures At(ts, te, MACHINE, SELF)
  {
    TiledMachine(tree, CutOf(infos), ts, te);
  }

  lemma FilledTiles(cut: Cut, ns: seq<Node>, vs: Levels, ve: Levels, r: Fill)
    requires Bare(ns) && vs[MACHINE] == SELF && |r.ns| == |ns| && 0 < cut.count(MACHINE, NodeId(SELF))
    requires Filled(ns, r.ns, cut, MACHINE, NodeId(SELF), vs, ve, vs, r.s, true) == true
    ensures Tiled(r.ns, cut, vs, r.s[MACHINE := r.s[MACHINE] + 1]) == true
    ensures r.ns[SELF] == Node(MACHINE, WORLD, r.ns[SELF].first, r.ns[SELF].last, NONE, NONE, NodeId(SELF))
  {
    assert Key(Ends, MACHINE, 0);
    var s' := r.s[MACHINE := r.s[MACHINE] + 1];
    RangesMoved(r.ns, cut, vs, r.s, s');
    forall d | 0 <= d < 4 ensures LevelOk(r.ns, cut, d, vs, s') {
      if d == 0 { RangeOne(r.ns, cut, MACHINE, SELF, vs[GROUP], s'[GROUP]); }
    }
  }

  /** With nothing active there is nothing below the machine. */
  lemma NoneActive(tree: seq<Node>, infos: seq<Info>, ts: Levels, te: Levels, ns: seq<Node>, vs: Levels, ve: Levels, r: Fill)
    requires Given(tree, infos, ts, te) == true && !AnyActive(tree, infos, ts, te)
    requires ChildFillsTo(ViewCut(tree, infos), ve, MACHINE, NodeId(SELF), ns, vs, r) == true
    ensures r == Fill(ns, vs, true)
  {
    var cut := ViewCut(tree, infos);
    GroupsBelowAt(tree, infos, ts, te);
    GroupsBelow(tree, infos, ts, te, SELF);
    if 0 < cut.count(MACHINE, NodeId(SELF)) {
      NthFound(tree, infos, ts[GROUP], te[GROUP], 0);
      assert At(ts, te, GROUP, NthActive(tree, infos, ts[GROUP], te[GROUP], 0));
      assert false;
    }
    FillsChild(cut, ve, MACHINE, NodeId(SELF), ns, vs, r);
    FillsAll(cut, ve, MACHINE, NodeId(SELF), 0, NONE, ns, vs, r);
  }

  /**
   HwViewInitialize, for a buffer of cb bytes that holds `nodes`. It fails only for lack of
   bytes, and then says how many it needs.
   */
  method Initialize(tree: seq<Node>, infos: seq<Info>, cb: nat, nodes: array<Node>, ghost ts: Levels, ghost te: Levels)
    returns (hr: Result, used: nat, b: Builder?)
    requires Given(tree, infos, ts, te) == true && nodes.Length == ViewCapacity(cb) < NONE
    requires (forall d :: 0 <= d < 5 ==> ts[d] <= te[d]) && SELF < |tree|
    modifies nodes
    ensures used == VIEW_HEADER_BYTES + VIEW_NODE_BYTES * EndsOf(Sizes(ts, te))[LCORE]
    ensures hr == if cb < used then BufferTooSmall else Success
    ensures hr == BufferTooSmall ==> nodes[..] == old(nodes[..])
    ensures hr == Success ==> b != null && fresh(b) && b.nodes == nodes && b.Valid() == true && b.starts == StartsOf(Sizes(ts, te))
    ensures hr == Success && AnyActive(tree, infos, ts, te) ==> ViewOk(nodes[..], tree, infos, b.starts, b.strides) == true
    ensures hr == Success && !AnyActive(tree, infos, ts, te) ==> Bare(nodes[..]) && b.strides == b.starts[MACHINE := SELF + 1]
  {
    var counts, total := CalculateCountNodes(tree, infos, ts, te);
    used := VIEW_HEADER_BYTES + VIEW_NODE_BYTES * total;
    if cb < used {
      return BufferTooSmall, used, null;
    }
    ViewSlices(tree, infos, ts, te, nodes.Length);
    b := new Builder(nodes, StartsOf(counts), EndsOf(counts));
    Build(b, tree, infos, ts, te);
    hr := Success;
  }

  method Build(b: Builder, tree: seq<Node>, infos: seq<Info>, ghost ts: Levels, ghost te: Levels)
    requires b.Valid() == true && Given(tree, infos, ts, te) == true && b.strides == b.starts && b.nodes.Length <= NONE
    requires b.starts[MACHINE] == SELF && b.ends[MACHINE] == SELF + 1 && SELF < |tree|
    requires Bounded(b.starts, b.ends, b.starts, b.nodes.Length) == true && Roomy(tree, SELF, MACHINE, b.starts, b.ends) == true
    modifies b`strides, b`counts, b.nodes
    ensures b.Valid() == true
    ensures AnyActive(tree, infos, ts, te) ==> ViewOk(b.nodes[..], tree, infos, b.starts, b.strides) == true
    ensures !AnyActive(tree, infos, ts, te) ==> Bare(b.nodes[..]) && b.strides == b.starts[MACHINE := SELF + 1]
  {
    ghost var cut := ViewCut(tree, infos);
    b.Inside(MACHINE);
    b.nodes[WORLD] := Node(-1, NONE, NONE, NONE, NONE, NONE, NodeId(0));
    b.InitializeNode(b.strides[MACHINE], MACHINE, WORLD, NONE, NodeId(SELF));
    ghost var ns := b.nodes[..];
    ghost var r := FillingChild(cut, b.ends, MACHINE, NodeId(SELF), ns, b.strides);
    FillsChild(cut, b.ends, MACHINE, NodeId(SELF), ns, b.strides, r);
    GroupsBelowAt(tree, infos, ts, te);
    var ok := InitializeSubTree(b, tree, infos, SELF, cut, MACHINE, ts, te, r);
    if AnyActive(tree, infos, ts, te) {
      FilledView(tree, infos, ts, te, ns, b.starts, b.ends, r);
    } else {
      NoneActive(tree, infos, ts, te, ns, b.starts, b.ends, r);
    }
    b.Advance(MACHINE);
  }
}
