/**
 Where the rows of a pass stand, told from the fields of the layout: what the expressions of an
 enumerator amount to, which nodes it stands on turn by turn, and what the target of a call is.
 */
module HwLayoutRows {
  import opened HwLayout
  import opened HwLayoutTheorems
  import opened Modular
  import opened PackedTree
  import opened TreeSpans

  // ---- expressions -------------------------------------------------------------------

  /** A constant, or how many nodes of a level there are below where the enumerators stand. */
  ghost function Amount(sc: Scene, at: seq<nat>, value: nat, known: bool): nat
    requires LayoutOk(sc.layout) == true && |at| < |sc.layout.enums| && (known ==> value <= LCORE)
  {
    if known then |NodesInScope(sc, at, value)| else value
  }

  /** The one amount, or the quotient of the two. */
  ghost predicate Means(sc: Scene, at: seq<nat>, e: Expr, n: nat)
    requires LayoutOk(sc.layout) == true && |at| < |sc.layout.enums| && ExprOk(e, LCORE)
  {
    var left := Amount(sc, at, e.left, e.leftKnown);
    if !e.divide then n == left
    else
      var right := Amount(sc, at, e.right, e.rightKnown);
      right != 0 && n == left / right
  }

  /** The same, but at least 1. */
  ghost predicate MeansSome(sc: Scene, at: seq<nat>, e: Expr, n: nat)
    requires LayoutOk(sc.layout) == true && |at| < |sc.layout.enums| && ExprOk(e, LCORE)
  {
    if n == 1 then Means(sc, at, e, 0) || Means(sc, at, e, 1) else 1 < n && Means(sc, at, e, n)
  }

  lemma AmountIs(sc: Scene, cut: Cut, at: seq<nat>, value: nat, known: bool)
    requires Ready(sc, cut, at) == true && (known ==> value <= LevelOf(sc, |at|))
    ensures Operand(sc, cut, at, value, known) == Amount(sc, at, value, known)
  {
    if known {
      KnownCounts(sc, cut, at, value);
    }
  }

  lemma ValueMeans(sc: Scene, cut: Cut, at: seq<nat>, e: Expr)
    requires Ready(sc, cut, at) == true && ExprOk(e, LevelOf(sc, |at|))
    ensures Means(sc, at, e, Value(sc, cut, at, e))
  {
    AmountIs(sc, cut, at, e.left, e.leftKnown);
    if e.divide {
      AmountIs(sc, cut, at, e.right, e.rightKnown);
      Divides(Operand(sc, cut, at, e.left, e.leftKnown), Operand(sc, cut, at, e.right, e.rightKnown));
    }
  }

  /** The steps are what the fields of the enumerator say. */
  ghost predicate Prescribed(sc: Scene, at: seq<nat>, p: Steps)
    requires LayoutOk(sc.layout) == true && |at| < |sc.layout.enums|
    requires EnumOk(sc.layout.enums[|at|])
  {
    var e := sc.layout.enums[|at|];
    && p.start == FirstIn(sc, at) && p.start + p.size == LastIn(sc, at) + 1
    && Means(sc, at, e.offset, p.offset) && MeansSome(sc, at, e.count, p.count) && MeansSome(sc, at, e.stride, p.stride)
    && MeansSome(sc, at, e.repeatCount, p.repeatCount) && Means(sc, at, e.repeatOffset, p.repeatOffset)
  }

  lemma StepsPrescribed(sc: Scene, cut: Cut, at: seq<nat>)
    requires Ready(sc, cut, at) == true
    ensures EnumOk(sc.layout.enums[|at|]) && Prescribed(sc, at, StepsAt(sc, cut, at)) == true
  {
    LevelsDeepen(sc, |at|, |at|);
    var e := sc.layout.enums[|at|];
    ValueMeans(sc, cut, at, e.offset);
    ValueMeans(sc, cut, at, e.count);
    ValueMeans(sc, cut, at, e.stride);
    ValueMeans(sc, cut, at, e.repeatCount);
    ValueMeans(sc, cut, at, e.repeatOffset);
  }

  // ---- the nodes of a pass -----------------------------------------------------------

  predicate InWindow(p: Steps, n: nat) { p.start <= n < p.start + p.size }

  /** One list of nodes for each repeat, one node for each turn. */
  ghost predicate IsGrid(p: Steps, grid: seq<seq<nat>>) {
    forall j :: 0 <= j < |grid| ==> |grid[j]| == p.count && forall k :: 0 <= k < p.count ==> InWindow(p, grid[j][k])
  }

  /** So many nodes on around the window, the sum in 32 bits. */
  predicate IsOn(p: Steps, from: nat, n: nat, to: nat)
    requires 0 < p.size
  {
    p.start <= from && to == p.start + (from - p.start + n) % 0x1_0000_0000 % p.size
  }

  /** Each turn is a stride on from the one before; each repeat begins an offset on from where a further turn would be. */
  ghost predicate GoesOn(p: Steps, grid: seq<seq<nat>>)
    requires 0 < p.size && 0 < p.count && IsGrid(p, grid)
  {
    && (forall j, k :: 0 <= j < |grid| && 0 <= k && k + 1 < p.count ==> IsOn(p, grid[j][k], p.stride, grid[j][k + 1]))
    && (forall j :: 0 <= j && j + 1 < |grid| ==> RepeatsOn(p, grid[j][p.count - 1], grid[j + 1][0]))
  }

  ghost predicate RepeatsOn(p: Steps, last: nat, next: nat)
    requires 0 < p.size
  {
    exists further :: IsOn(p, last, p.stride, further) && IsOn(p, further, p.repeatOffset, next)
  }

  ghost function AllRows(sc: Scene, cut: Cut, at: seq<nat>, grid: seq<seq<nat>>): seq<Row>
    requires Ready(sc, cut, at) == true
    requires IsGrid(StepsAt(sc, cut, at), grid)
  {
    if grid == [] then [] else RowsAt(sc, cut, at, grid[0]) + AllRows(sc, cut, at, grid[1..])
  }

  ghost function NextRepeat(p: Steps, cur: nat): (r: nat)
    requires 0 < p.size && InWindow(p, cur)
    ensures InWindow(p, r)
  {
    Step(p, StepMany(p, cur, p.stride, p.count), p.repeatOffset)
  }

  ghost function Grid(p: Steps, cur: nat, n: nat): (grid: seq<seq<nat>>)
    requires 0 < p.size && InWindow(p, cur)
    ensures |grid| == n && IsGrid(p, grid)
    decreases n
  {
    if n == 0 then [] else [Order(p, cur, p.count)] + Grid(p, NextRepeat(p, cur), n - 1)
  }

  lemma {:induction false} RepeatsAre(sc: Scene, cut: Cut, at: seq<nat>, p: Steps, cur: nat, n: nat)
    requires Ready(sc, cut, at) == true && p == StepsAt(sc, cut, at) && InWindow(p, cur)
    ensures Repeats(sc, cut, at, cur, n) == AllRows(sc, cut, at, Grid(p, cur, n))
    decreases n
  {
    if n > 0 {
      var next := NextRepeat(p, cur);
      TurnsAre(sc, cut, at, p, cur, p.count);
      RepeatsAre(sc, cut, at, p, next, n - 1);
      assert Grid(p, cur, n)[1..] == Grid(p, next, n - 1);
    }
  }

  lemma StepIsOn(p: Steps, cur: nat, n: nat)
    requires 0 < p.size && InWindow(p, cur)
    ensures IsOn(p, cur, n, Step(p, cur, n))
  {
    Divides(Wrap(cur - p.start + n), p.size);
  }

  /** k turns lead one stride further than k - 1. */
  lemma {:induction false} OneMoreStep(p: Steps, cur: nat, k: nat)
    requires 0 < p.size && InWindow(p, cur)
    ensures StepMany(p, cur, p.stride, k + 1) == Step(p, StepMany(p, cur, p.stride, k), p.stride)
    decreases k
  {
    if k > 0 {
      OneMoreStep(p, Step(p, cur, p.stride), k - 1);
    }
  }

  lemma OrderGoesOn(p: Steps, cur: nat, k: nat)
    requires 0 < p.size && InWindow(p, cur) && k < p.count
    ensures var order := Order(p, cur, p.count);
            && order[0] == cur
            && (k + 1 < p.count ==> IsOn(p, order[k], p.stride, order[k + 1]))
            && (k + 1 == p.count ==> RepeatsOn(p, order[k], NextRepeat(p, cur)))
  {
    OrderIs(p, cur, p.count, k);
    OneMoreStep(p, cur, k);
    var last := StepMany(p, cur, p.stride, k);
    var further := StepMany(p, cur, p.stride, k + 1);
    StepIsOn(p, last, p.stride);
    if k + 1 < p.count {
      OrderIs(p, cur, p.count, k + 1);
    } else {
      StepIsOn(p, further, p.repeatOffset);
    }
  }

  lemma {:induction false} GridGoesOn(p: Steps, cur: nat, n: nat)
    requires 0 < p.size && 0 < p.count && InWindow(p, cur)
    ensures 0 < n ==> Grid(p, cur, n)[0][0] == cur
    ensures GoesOn(p, Grid(p, cur, n))
    decreases n
  {
    if n > 0 {
      var next := NextRepeat(p, cur);
      GridGoesOn(p, next, n - 1);
      forall k | 0 <= k < p.count {
        OrderGoesOn(p, cur, k);
      }
      OrderGoesOn(p, cur, p.count - 1);
      GridFirst(p, Order(p, cur, p.count), Grid(p, next, n - 1), next);
    }
  }

  lemma GridFirst(p: Steps, order: seq<nat>, more: seq<seq<nat>>, next: nat)
    requires 0 < p.size && 0 < p.count && IsGrid(p, more) && |order| == p.count
    requires forall k :: 0 <= k < p.count ==> InWindow(p, order[k])
    requires GoesOn(p, more) && (more != [] ==> more[0][0] == next) && RepeatsOn(p, order[p.count - 1], next)
    requires forall k :: 0 <= k && k + 1 < p.count ==> IsOn(p, order[k], p.stride, order[k + 1])
    ensures IsGrid(p, [order] + more) == true && GoesOn(p, [order] + more) == true
  {
    var grid := [order] + more;
    assert forall j :: 0 < j < |grid| ==> grid[j] == more[j - 1];
  }

  // ---- without wrapping --------------------------------------------------------------

  /** The sums of the steps stay within 32 bits. */
  predicate NoWrap(p: Steps) { p.size + p.stride <= 0x1_0000_0000 && p.size + p.repeatOffset <= 0x1_0000_0000 }

  /** How far turn k of repeat j is from the start of the window, before going around it. */
  function Far(p: Steps, first: nat, j: nat, k: nat): nat {
    first + j * Whole(p) + k * p.stride
  }

  /** How far a whole repeat goes. */
  function Whole(p: Steps): nat { p.count * p.stride + p.repeatOffset }

  lemma SameStep(p: Steps, cur: nat, n: nat)
    requires 0 < p.size && InWindow(p, cur) && p.size + n <= 0x1_0000_0000
    ensures Same(Step(p, cur, n) - p.start, cur - p.start + n, p.size)
  {
    var x := cur - p.start + n;
    assert Wrap(x) == x;
    SameMod(x, p.size);
    SameBack(x, Mod(x, p.size), p.size);
  }

  lemma SameRepeat(p: Steps, cur: nat)
    requires 0 < p.size && InWindow(p, cur) && NoWrap(p)
    ensures Same(NextRepeat(p, cur) - p.start, cur - p.start + Whole(p), p.size)
  {
    var end := StepMany(p, cur, p.stride, p.count);
    StepsPlace(p, cur, p.count);
    SameStep(p, end, p.repeatOffset);
    SameFurther(NextRepeat(p, cur) - p.start, end - p.start, cur - p.start + p.count * p.stride, p.repeatOffset, p.size);
  }

  lemma {:induction false} GridPlaces(p: Steps, cur: nat, first: nat, n: nat, j: nat, k: nat)
    requires 0 < p.size && InWindow(p, cur) && NoWrap(p) && j < n && k < p.count
    requires Same(cur - p.start, first, p.size)
    ensures Same(Grid(p, cur, n)[j][k] - p.start, Far(p, first, j, k), p.size)
    decreases j
  {
    if j == 0 {
      FirstPlaces(p, cur, first, n, k);
    } else {
      var next, further := NextRepeat(p, cur), first + Whole(p);
      SameRepeat(p, cur);
      SameFurther(next - p.start, cur - p.start, first, Whole(p), p.size);
      GridPlaces(p, next, further, n - 1, j - 1, k);
      FarNext(p, first, j, k);
    }
  }

  lemma FirstPlaces(p: Steps, cur: nat, first: nat, n: nat, k: nat)
    requires 0 < p.size && InWindow(p, cur) && NoWrap(p) && 0 < n && k < p.count
    requires Same(cur - p.start, first, p.size)
    ensures Same(Grid(p, cur, n)[0][k] - p.start, Far(p, first, 0, k), p.size)
  {
    OrderIs(p, cur, p.count, k);
    StepsPlace(p, cur, k);
    SameFurther(Grid(p, cur, n)[0][k] - p.start, cur - p.start, first, k * p.stride, p.size);
  }

  lemma FarNext(p: Steps, first: nat, j: nat, k: nat)
    requires 0 < j
    ensures Far(p, first + Whole(p), j - 1, k) == Far(p, first, j, k)
  {
    Next(j, Whole(p));
  }

  lemma PlaceIs(p: Steps, node: nat, far: nat)
    requires 0 < p.size && InWindow(p, node) && Same(node - p.start, far, p.size)
    ensures node == p.start + far % p.size
  {
    SameMod(far, p.size);
    SameSum(node - p.start, far, Mod(far, p.size), p.size);
    SameEqual(node - p.start, Mod(far, p.size), p.size);
    Divides(far, p.size);
  }

  ghost predicate Places(p: Steps, grid: seq<seq<nat>>)
    requires 0 < p.size && IsGrid(p, grid)
  {
    forall j, k :: 0 <= j < |grid| && 0 <= k < p.count ==> grid[j][k] == p.start + Far(p, p.offset, j, k) % p.size
  }

  lemma GridIsPlaced(p: Steps)
    requires 0 < p.size && NoWrap(p)
    ensures Places(p, Grid(p, p.start + Mod(p.offset, p.size), p.repeatCount))
  {
    var cur := p.start + Mod(p.offset, p.size);
    SameMod(p.offset, p.size);
    SameBack(p.offset, Mod(p.offset, p.size), p.size);
    var grid := Grid(p, cur, p.repeatCount);
    forall j, k | 0 <= j < |grid| && 0 <= k < p.count ensures grid[j][k] == p.start + Far(p, p.offset, j, k) % p.size {
      GridPlaces(p, cur, p.offset, p.repeatCount, j, k);
      PlaceIs(p, grid[j][k], Far(p, p.offset, j, k));
    }
  }

  lemma PassGrid(p: Steps) returns (grid: seq<seq<nat>>)
    requires 0 < p.size && 0 < p.count && 0 < p.repeatCount
    ensures grid == Grid(p, p.start + Mod(p.offset, p.size), p.repeatCount)
    ensures IsGrid(p, grid) == true && GoesOn(p, grid) == true
    ensures |grid| == p.repeatCount && grid[0][0] == p.start + p.offset % p.size
    ensures NoWrap(p) ==> Places(p, grid) == true
  {
    var cur := p.start + Mod(p.offset, p.size);
    Divides(p.offset, p.size);
    grid := Grid(p, cur, p.repeatCount);
    GridGoesOn(p, cur, p.repeatCount);
    if NoWrap(p) {
      GridIsPlaced(p);
    }
  }

  /**
   The rows of one pass over an enumerator: below each node of the grid in turn, which begins at the
   offset and goes on by the stride and the repeat offset of the layout. As long as no sum wraps,
   turn k of repeat j stands at offset + j * (count * stride + repeat offset) + k * stride, taken
   around the window.
   */
  lemma PassRows(sc: Scene, cut: Cut, at: seq<nat>) returns (p: Steps, grid: seq<seq<nat>>)
    requires Ready(sc, cut, at) == true
    ensures EnumOk(sc.layout.enums[|at|]) && Prescribed(sc, at, p) == true && p == StepsAt(sc, cut, at)
    ensures IsGrid(p, grid) == true && GoesOn(p, grid) == true
    ensures |grid| == p.repeatCount && grid[0][0] == p.start + p.offset % p.size
    ensures Below(sc, cut, at) == AllRows(sc, cut, at, grid)
    ensures NoWrap(p) ==> Places(p, grid) == true
  {
    StepsPrescribed(sc, cut, at);
    p := BelowIs(sc, cut, at);
    grid := PassGrid(p);
    RepeatsAre(sc, cut, at, p, p.start + Mod(p.offset, p.size), p.repeatCount);
  }

  // ---- the target --------------------------------------------------------------------

  /** The target is the node of the target's level, or of the last enumerator's when that is higher, that this stands on or below. */
  lemma TargetIs(sc: Scene, cut: Cut, at: seq<nat>)
    requires SceneOk(sc, cut) == true && LayoutOk(sc.layout) == true && InScope(sc, at) == true && |at| == |sc.layout.enums|
    ensures at != []
    ensures var l := LevelOf(sc, |at| - 1);
            var t := if sc.layout.targetLevel < l then sc.layout.targetLevel else l;
            && At(sc.strides, Ends(sc), t, Location(sc, at))
            && FirstAt(sc.view, Location(sc, at), t, l) <= at[|at| - 1] <= LastAt(sc.view, Location(sc, at), t, l)
  {
    LayoutGiven(sc);
    var n, l := at[|at| - 1], LevelOf(sc, |at| - 1);
    ScopeIsAt(sc, cut, at);
    if sc.layout.targetLevel < l {
      var t := sc.layout.targetLevel;
      AncestorAt(sc.view, cut, sc.strides, Ends(sc), n, l, t);
      SpanIsDescendants(sc.view, cut, sc.strides, Ends(sc), Location(sc, at), t, l, n);
    }
  }
}
