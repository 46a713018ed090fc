/**
 What the finished view holds: level by level and in order, exactly the nodes of the tree
 that are visible, with the view's parent links matching the tree's.
 */
module HwViewTheorems {
  import opened HwMask
  import opened HwRegular
  import opened HwTree
  import opened HwView
  import opened PackedTree
  import opened Sealing
  import opened TreeSpans

  /** Node v of the view stands for node t of the tree. */
  predicate StandsFor(view: seq<Node>, v: nat, t: nat) {
    v < |view| && view[v].tag == NodeId(t)
  }

  /** Active, and so are all nodes above it up to the group. */
  ghost predicate Visible(tree: seq<Node>, infos: seq<Info>, d: nat, t: nat)
    decreases d
  {
    d == MACHINE || (Active(tree, infos, t) && t < |tree| && Visible(tree, infos, d - 1, tree[t].parent))
  }

  ghost predicate Finished(view: seq<Node>, tree: seq<Node>, infos: seq<Info>, ts: Levels, te: Levels, vs: Levels, ve: Levels) {
    && Given(tree, infos, ts, te) == true
    && ViewOk(view, tree, infos, vs, ve) == true
  }

  lemma MachineStands(view: seq<Node>, tree: seq<Node>, infos: seq<Info>, ts: Levels, te: Levels, vs: Levels, ve: Levels, v: nat)
    requires Finished(view, tree, infos, ts, te, vs, ve) == true && At(vs, ve, MACHINE, v)
    ensures v == SELF && StandsFor(view, SELF, SELF) && At(ts, te, MACHINE, SELF)
  {
    TiledMachine(view, ViewCut(tree, infos), vs, ve);
    TiledMachine(tree, CutOf(infos), ts, te);
  }

  lemma ParentIs(ns: seq<Node>, cut: Cut, ts: Levels, te: Levels, d: nat, p: nat, c: nat)
    requires Tiled(ns, cut, ts, te) == true && d < 4 && At(ts, te, d, p) && p < |ns| && ns[p].first <= c <= ns[p].last
    ensures c < |ns| && ns[c].parent == p
  {
    TiledNode(ns, cut, ts, te, d, p);
    assert ChildOk(ns, cut, p, ns[p].first, ns[p].last + 1, c);
  }

  /** A node of the view below the machine: the next active node of its parent's tree node. */
  lemma ViewFamily(view: seq<Node>, tree: seq<Node>, infos: seq<Info>, ts: Levels, te: Levels, vs: Levels, ve: Levels,
                   d: nat, p: nat, tp: nat, v: nat) returns (t: nat)
    requires Finished(view, tree, infos, ts, te, vs, ve) == true && d < LCORE && At(vs, ve, d, p) && At(ts, te, d, tp)
    requires StandsFor(view, p, tp) && p < |view| && view[p].first <= v <= view[p].last && view[p].level == d
    requires FamilyOk(view, ViewCut(tree, infos), p, view[p].first, view[p].last + 1) == true
    ensures StandsFor(view, v, t) && At(ts, te, d + 1, t) && Active(tree, infos, t) && tree[t].parent == tp
    ensures tp < |tree| && tree[tp].first <= t <= tree[tp].last && ActiveCount(tree, infos, tree[tp].first, t) == v - view[p].first
  {
    ChildTag(view, ViewCut(tree, infos), p, view[p].first, view[p].last + 1, v - view[p].first);
    t := ViewChildAt(tree, infos, ts, te, d, tp, v - view[p].first);
    ParentIs(tree, CutOf(infos), ts, te, d, tp, t);
  }

  /** Every node of the view stands for a visible node of its level, and so does its parent, for the parent of that. */
  lemma {:induction false} ViewStands(view: seq<Node>, tree: seq<Node>, infos: seq<Info>, ts: Levels, te: Levels,
                                      vs: Levels, ve: Levels, d: nat, v: nat) returns (t: nat)
    requires Finished(view, tree, infos, ts, te, vs, ve) == true && d < 5 && At(vs, ve, d, v)
    ensures StandsFor(view, v, t) && At(ts, te, d, t) && Visible(tree, infos, d, t)
    ensures 0 < d ==> t < |tree| && At(vs, ve, d - 1, view[v].parent) && StandsFor(view, view[v].parent, tree[t].parent)
    decreases d
  {
    if d == MACHINE {
      MachineStands(view, tree, infos, ts, te, vs, ve, v);
      t := SELF;
    } else {
      var cut := ViewCut(tree, infos);
      var p := TiledParent(view, cut, vs, ve, d - 1, v);
      var tp := ViewStands(view, tree, infos, ts, te, vs, ve, d - 1, p);
      TiledNode(view, cut, vs, ve, d - 1, p);
      t := ViewFamily(view, tree, infos, ts, te, vs, ve, d - 1, p, tp, v);
    }
  }

  lemma ActiveOrder(tree: seq<Node>, infos: seq<Info>, a: nat, t: nat, t': nat)
    requires ActiveCount(tree, infos, a, t) < ActiveCount(tree, infos, a, t')
    ensures t < t'
  {
    if t' <= t { ActiveMono(tree, infos, a, t', t); }
  }

  /** Later nodes of a level of the view stand for later nodes of the tree. */
  lemma {:induction false} ViewInOrder(view: seq<Node>, tree: seq<Node>, infos: seq<Info>, ts: Levels, te: Levels,
                                       vs: Levels, ve: Levels, d: nat, v: nat, v': nat, t: nat, t': nat)
    requires Finished(view, tree, infos, ts, te, vs, ve) == true && d < 5 && At(vs, ve, d, v) && At(vs, ve, d, v') && v < v'
    requires StandsFor(view, v, t) && StandsFor(view, v', t')
    ensures t < t'
    decreases d
  {
    if d == MACHINE {
      MachineStands(view, tree, infos, ts, te, vs, ve, v);
      MachineStands(view, tree, infos, ts, te, vs, ve, v');
    } else {
      var cut := ViewCut(tree, infos);
      var p := TiledParent(view, cut, vs, ve, d - 1, v);
      var p' := TiledParent(view, cut, vs, ve, d - 1, v');
      TiledNode(view, cut, vs, ve, d - 1, p);
      TiledNode(view, cut, vs, ve, d - 1, p');
      var tp := ViewStands(view, tree, infos, ts, te, vs, ve, d - 1, p);
      var tp' := ViewStands(view, tree, infos, ts, te, vs, ve, d - 1, p');
      var u := ViewFamily(view, tree, infos, ts, te, vs, ve, d - 1, p, tp, v);
      var u' := ViewFamily(view, tree, infos, ts, te, vs, ve, d - 1, p', tp', v');
      if p == p' {
        ActiveOrder(tree, infos, tree[tp].first, t, t');
      } else {
        FamilyOrder(view, cut, vs, ve, d - 1, p, p', v, v');
        ViewInOrder(view, tree, infos, ts, te, vs, ve, d - 1, p, p', tp, tp');
        FamiliesApart(tree, CutOf(infos), ts, te, d - 1, tp, tp');
      }
    }
  }

  lemma FamiliesApart(ns: seq<Node>, cut: Cut, ts: Levels, te: Levels, d: nat, p: nat, p': nat)
    requires Tiled(ns, cut, ts, te) == true && d < 4 && At(ts, te, d, p) && At(ts, te, d, p') && p < p'
    ensures p' < |ns| && ns[p].last < ns[p'].first
  {
    SpanOrder(ns, cut, ts, te, p, p', d, d + 1);
    OneDown(ns, cut, ts, te, d, p);
    OneDown(ns, cut, ts, te, d, p');
  }

  lemma FamilyOrder(ns: seq<Node>, cut: Cut, ts: Levels, te: Levels, d: nat, p: nat, p': nat, c: nat, c': nat)
    requires Tiled(ns, cut, ts, te) == true && d < 4 && At(ts, te, d, p) && At(ts, te, d, p') && p != p' && c < c'
    requires p < |ns| && p' < |ns| && ns[p].first <= c <= ns[p].last && ns[p'].first <= c' <= ns[p'].last
    ensures p < p'
  {
    if p' < p { FamiliesApart(ns, cut, ts, te, d, p', p); }
  }

  /** Every visible node of the tree is in the view. */
  lemma {:induction false} ViewHasAll(view: seq<Node>, tree: seq<Node>, infos: seq<Info>, ts: Levels, te: Levels,
                                      vs: Levels, ve: Levels, d: nat, t: nat) returns (v: nat)
    requires Finished(view, tree, infos, ts, te, vs, ve) == true && d < 5 && At(ts, te, d, t) && Visible(tree, infos, d, t)
    ensures At(vs, ve, d, v) && StandsFor(view, v, t)
    decreases d
  {
    if d == MACHINE {
      TiledMachine(view, ViewCut(tree, infos), vs, ve);
      TiledMachine(tree, CutOf(infos), ts, te);
      MachineStands(view, tree, infos, ts, te, vs, ve, SELF);
      v := SELF;
    } else {
      var cut := ViewCut(tree, infos);
      var tp := TiledParent(tree, CutOf(infos), ts, te, d - 1, t);
      var p := ViewHasAll(view, tree, infos, ts, te, vs, ve, d - 1, tp);
      TiledNode(view, cut, vs, ve, d - 1, p);
      NthIs(tree, infos, tree[tp].first, tree[tp].last + 1, t);
      v := view[p].first + ActiveCount(tree, infos, tree[tp].first, t);
      ChildTag(view, cut, p, view[p].first, view[p].last + 1, v - view[p].first);
    }
  }

  /** On a regular machine a node is visible as soon as it is active. */
  lemma {:induction false} RegularVisible(tree: seq<Node>, infos: seq<Info>, ts: Levels, te: Levels, d: nat, t: nat)
    requires Given(tree, infos, ts, te) == true && Regular(infos) && GROUP <= d < 5 && At(ts, te, d, t)
    ensures Visible(tree, infos, d, t) <==> Active(tree, infos, t)
    decreases d
  {
    TiledIn(tree, CutOf(infos), ts, te, d, t);
    if GROUP < d && Active(tree, infos, t) {
      var p := TiledParent(tree, CutOf(infos), ts, te, d - 1, t);
      RegularMasks(tree, infos, ts, te, d - 1, p);
      assert tree[t].tag.mask <= tree[p].tag.mask;
      RegularVisible(tree, infos, ts, te, d - 1, p);
    }
  }
}
