/**
 The levels of a packed tree as intervals: following first children and last children down
 from a node gives the two ends of the interval of its descendants on a deeper level. The
 view and the layout walk trees in this way (hwview.cpp, hwlayout.cpp).
 */
module TreeSpans {
  import opened PackedTree
  import opened Sealing

  /** A tree below one machine whose families tile every level. */
  ghost predicate Tiled(ns: seq<Node>, cut: Cut, ts: Levels, te: Levels) {
    forall z: int :: Key(Whole, 1, z) ==>
      && ts[MACHINE] == 1 && te[MACHINE] == 2 && |ns| <= NONE && 1 < |ns| && ns[1].level == MACHINE
      && forall d :: 0 <= d < 4 ==> LevelOk(ns, cut, d, ts, te)
  }

  predicate At(ts: Levels, te: Levels, d: nat, n: nat)
    requires d < 5
  {
    ts[d] <= n < te[d]
  }

  lemma TiledMachine(ns: seq<Node>, cut: Cut, ts: Levels, te: Levels)
    requires Tiled(ns, cut, ts, te) == true
    ensures ts[MACHINE] == 1 && te[MACHINE] == 2 && 1 < |ns| <= NONE
  {
    assert Key(Whole, 1, 0);
  }

  /** What the tiling says about one node above the lowest level. */
  lemma TiledNode(ns: seq<Node>, cut: Cut, ts: Levels, te: Levels, d: nat, n: nat)
    requires Tiled(ns, cut, ts, te) == true && d < 4 && At(ts, te, d, n)
    ensures n < |ns| && NodeOk(ns, cut, d, n, ts[d + 1], te[d + 1]) && n < ts[d + 1]
    ensures At(ts, te, d + 1, ns[n].first) && At(ts, te, d + 1, ns[n].last) && ns[n].first <= ns[n].last
  {
    assert Key(Whole, 1, 0);
    assert LevelOk(ns, cut, d, ts, te);
    assert NodeOk(ns, cut, d, n, ts[d + 1], te[d + 1]);
  }

  lemma TiledNext(ns: seq<Node>, cut: Cut, ts: Levels, te: Levels, d: nat, n: nat)
    requires Tiled(ns, cut, ts, te) == true && d < 4 && At(ts, te, d, n) && At(ts, te, d, n + 1)
    ensures n + 1 < |ns| && ns[n + 1].first == ns[n].last + 1
  {
    assert Key(Whole, 1, 0);
    assert LevelOk(ns, cut, d, ts, te);
    assert Adjacent(ns, n);
  }

  lemma TiledEnds(ns: seq<Node>, cut: Cut, ts: Levels, te: Levels, d: nat)
    requires Tiled(ns, cut, ts, te) == true && d < 4
    ensures ts[d] < te[d] <= ts[d + 1] < te[d + 1] <= |ns|
    ensures ns[ts[d]].first == ts[d + 1] && ns[te[d] - 1].last == te[d + 1] - 1
    decreases d
  {
    if d > 0 { TiledEnds(ns, cut, ts, te, d - 1); }
    assert Key(Whole, 1, 0);
    assert LevelOk(ns, cut, d, ts, te);
    assert NodeOk(ns, cut, d, ts[d], ts[d + 1], te[d + 1]);
  }

  lemma TiledIn(ns: seq<Node>, cut: Cut, ts: Levels, te: Levels, d: nat, n: nat)
    requires Tiled(ns, cut, ts, te) == true && d < 5 && At(ts, te, d, n)
    ensures n < |ns| <= NONE && ns[n].level == d
  {
    assert Key(Whole, 1, 0);
    if d < 4 {
      TiledNode(ns, cut, ts, te, d, n);
    } else {
      var p := TiledParent(ns, cut, ts, te, 3, n);
    }
  }

  /** The parent field of a node names the one node of the level above whose family it is in. */
  lemma TiledParent(ns: seq<Node>, cut: Cut, ts: Levels, te: Levels, d: nat, c: nat) returns (p: nat)
    requires Tiled(ns, cut, ts, te) == true && d < 4 && At(ts, te, d + 1, c)
    ensures At(ts, te, d, p) && p < c < |ns| && ns[c].parent == p && ns[p].last < |ns| && ns[p].first <= c <= ns[p].last
    ensures ChildOk(ns, cut, p, ns[p].first, ns[p].last + 1, c) && ns[p].level == d
  {
    assert Key(Whole, 1, 0);
    assert LevelOk(ns, cut, d, ts, te);
    p := ParentIn(ns, cut, d, ts[d], te[d], ts[d + 1], te[d + 1], c);
    assert ChildOk(ns, cut, p, ns[p].first, ns[p].last + 1, c);
  }

  /** The first and the last descendant of a node on a deeper level. */
  ghost function FirstAt(ns: seq<Node>, n: nat, level: nat, d: nat): nat
    requires level <= d
    decreases d - level
  {
    if level < d && n < |ns| then FirstAt(ns, ns[n].first, level + 1, d) else n
  }

  ghost function LastAt(ns: seq<Node>, n: nat, level: nat, d: nat): nat
    requires level <= d
    decreases d - level
  {
    if level < d && n < |ns| then LastAt(ns, ns[n].last, level + 1, d) else n
  }

  /** The ancestor of a node on a level above. */
  ghost function Ancestor(ns: seq<Node>, n: nat, d: nat, level: nat): nat
    requires level <= d
    decreases d
  {
    if level < d && n < |ns| then Ancestor(ns, ns[n].parent, d - 1, level) else n
  }

  lemma {:induction false} SpanIn(ns: seq<Node>, cut: Cut, ts: Levels, te: Levels, n: nat, level: nat, d: nat)
    requires Tiled(ns, cut, ts, te) == true && level <= d < 5 && At(ts, te, level, n)
    ensures ts[d] <= FirstAt(ns, n, level, d) <= LastAt(ns, n, level, d) < te[d]
    decreases d - level
  {
    TiledIn(ns, cut, ts, te, level, n);
    if level < d {
      TiledNode(ns, cut, ts, te, level, n);
      SpanIn(ns, cut, ts, te, ns[n].first, level + 1, d);
      SpanIn(ns, cut, ts, te, ns[n].last, level + 1, d);
      SpanOrder(ns, cut, ts, te, ns[n].first, ns[n].last, level + 1, d);
    }
  }

  /** The spans of neighbours are neighbours... */
  lemma {:induction false} SpanNext(ns: seq<Node>, cut: Cut, ts: Levels, te: Levels, n: nat, level: nat, d: nat)
    requires Tiled(ns, cut, ts, te) == true && level <= d < 5 && At(ts, te, level, n) && At(ts, te, level, n + 1)
    ensures FirstAt(ns, n + 1, level, d) == LastAt(ns, n, level, d) + 1
    decreases d - level, 0
  {
    TiledIn(ns, cut, ts, te, level, n);
    TiledIn(ns, cut, ts, te, level, n + 1);
    if level < d {
      TiledNode(ns, cut, ts, te, level, n);
      TiledNode(ns, cut, ts, te, level, n + 1);
      TiledNext(ns, cut, ts, te, level, n);
      SpanNext(ns, cut, ts, te, ns[n].last, level + 1, d);
    }
  }

  /** ... so first descendants come in the order of their ancestors. */
  lemma {:induction false} SpanOrder(ns: seq<Node>, cut: Cut, ts: Levels, te: Levels, m: nat, n: nat, level: nat, d: nat)
    requires Tiled(ns, cut, ts, te) == true && level <= d < 5 && At(ts, te, level, m) && At(ts, te, level, n) && m <= n
    ensures FirstAt(ns, m, level, d) <= LastAt(ns, n, level, d) && FirstAt(ns, m, level, d) <= FirstAt(ns, n, level, d)
    ensures m < n ==> LastAt(ns, m, level, d) < FirstAt(ns, n, level, d)
    decreases d - level, 1, n - m
  {
    if m == n {
      SpanUp(ns, cut, ts, te, n, level, d);
    } else {
      SpanOrder(ns, cut, ts, te, m, n - 1, level, d);
      SpanNext(ns, cut, ts, te, n - 1, level, d);
      SpanUp(ns, cut, ts, te, n, level, d);
      SpanUp(ns, cut, ts, te, n - 1, level, d);
    }
  }

  lemma {:induction false} SpanUp(ns: seq<Node>, cut: Cut, ts: Levels, te: Levels, n: nat, level: nat, d: nat)
    requires Tiled(ns, cut, ts, te) == true && level <= d < 5 && At(ts, te, level, n)
    ensures FirstAt(ns, n, level, d) <= LastAt(ns, n, level, d)
    decreases d - level, 0
  {
    TiledIn(ns, cut, ts, te, level, n);
    if level < d {
      TiledNode(ns, cut, ts, te, level, n);
      SpanOrder(ns, cut, ts, te, ns[n].first, ns[n].last, level + 1, d);
    }
  }

  /** The span of the machine is the whole level. */
  lemma {:induction false} SpanEnds(ns: seq<Node>, cut: Cut, ts: Levels, te: Levels, level: nat, d: nat)
    requires Tiled(ns, cut, ts, te) == true && level <= d < 5
    ensures ts[level] < te[level] && ts[d] < te[d]
    ensures FirstAt(ns, ts[level], level, d) == ts[d] && LastAt(ns, te[level] - 1, level, d) + 1 == te[d]
    decreases d - level
  {
    if level < 4 { TiledEnds(ns, cut, ts, te, level); } else { TiledEnds(ns, cut, ts, te, 3); }
    if level < d {
      TiledEnds(ns, cut, ts, te, level);
      SpanEnds(ns, cut, ts, te, level + 1, d);
    }
  }

  lemma OneDown(ns: seq<Node>, cut: Cut, ts: Levels, te: Levels, d: nat, n: nat)
    requires Tiled(ns, cut, ts, te) == true && d < 4 && At(ts, te, d, n)
    ensures n < |ns| && FirstAt(ns, n, d, d + 1) == ns[n].first <= ns[n].last == LastAt(ns, n, d, d + 1)
  {
    TiledNode(ns, cut, ts, te, d, n);
  }

  /** The span of a node is exactly the nodes it is the ancestor of. */
  lemma {:induction false} SpanIsDescendants(ns: seq<Node>, cut: Cut, ts: Levels, te: Levels, n: nat, level: nat, d: nat, c: nat)
    requires Tiled(ns, cut, ts, te) == true && level <= d < 5 && At(ts, te, level, n) && At(ts, te, d, c)
    ensures FirstAt(ns, n, level, d) <= c <= LastAt(ns, n, level, d) <==> Ancestor(ns, c, d, level) == n
    decreases d - level
  {
    if level < d {
      var p := TiledParent(ns, cut, ts, te, d - 1, c);
      SpanIsDescendants(ns, cut, ts, te, n, level, d - 1, p);
      SpanIn(ns, cut, ts, te, n, level, d - 1);
      var f, l := FirstAt(ns, n, level, d - 1), LastAt(ns, n, level, d - 1);
      SpanStep(ns, cut, ts, te, n, level, d);
      OneDown(ns, cut, ts, te, d - 1, p);
      OneDown(ns, cut, ts, te, d - 1, f);
      OneDown(ns, cut, ts, te, d - 1, l);
      if p < f { SpanOrder(ns, cut, ts, te, p, f, d - 1, d); }
      if l < p { SpanOrder(ns, cut, ts, te, l, p, d - 1, d); }
      if f < p { SpanOrder(ns, cut, ts, te, f, p, d - 1, d); }
      if p < l { SpanOrder(ns, cut, ts, te, p, l, d - 1, d); }
    }
  }

  /** One level further down: the first child of the first, the last child of the last. */
  lemma {:induction false} SpanStep(ns: seq<Node>, cut: Cut, ts: Levels, te: Levels, n: nat, level: nat, d: nat)
    requires Tiled(ns, cut, ts, te) == true && level < d < 5 && At(ts, te, level, n)
    ensures var f, l := FirstAt(ns, n, level, d - 1), LastAt(ns, n, level, d - 1);
            At(ts, te, d - 1, f) && At(ts, te, d - 1, l) && f < |ns| && l < |ns|
            && FirstAt(ns, n, level, d) == ns[f].first && LastAt(ns, n, level, d) == ns[l].last
    decreases d - level
  {
    TiledIn(ns, cut, ts, te, level, n);
    if level + 1 < d {
      TiledNode(ns, cut, ts, te, level, n);
      SpanStep(ns, cut, ts, te, ns[n].first, level + 1, d);
      SpanStep(ns, cut, ts, te, ns[n].last, level + 1, d);
    } else {
      TiledNode(ns, cut, ts, te, level, n);
    }
  }
}
