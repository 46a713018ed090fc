/**
 The layout of processes over a view: nested enumerators, each stepping through the window of
 nodes below the current node of the enumerator before it (hwlayout.cpp).
 */
module HwLayout {
  import opened Modular
  import opened PackedTree
  import opened Sealing
  import opened TreeSpans

  /** HWENUM_EXPR, with its flags as booleans. */
  datatype Expr = Expr(left: nat, right: nat, leftKnown: bool, divide: bool, rightKnown: bool)

  datatype Enum = Enum(level: nat, offset: Expr, count: Expr, stride: Expr, repeatCount: Expr, repeatOffset: Expr)

  datatype Layout = Layout(targetLevel: nat, targetCount: nat, enums: seq<Enum>)

  /** HWVIEW, and for the proofs what its nodes stand for. */
  datatype Scene = Scene(layout: Layout, view: seq<Node>, strides: Levels, counts: Levels)

  /** Well-known sizes are of levels no deeper than the enumerator's own, and constant divisors are not zero. */
  predicate ExprOk(e: Expr, level: nat) {
    && (e.leftKnown ==> e.left <= level)
    && (e.divide ==> if e.rightKnown then e.right <= level else e.right != 0)
  }

  predicate EnumOk(e: Enum) {
    && e.level <= LCORE && ExprOk(e.offset, e.level) && ExprOk(e.count, e.level) && ExprOk(e.stride, e.level)
    && ExprOk(e.repeatCount, e.level) && ExprOk(e.repeatOffset, e.level)
  }

  /** Enumerators go strictly deeper, from the machine on. */
  ghost predicate LayoutOk(layout: Layout) {
    forall z: int :: Key(Laid, 0, z) ==>
      && 0 < |layout.enums| && layout.enums[0].level == MACHINE && 0 < layout.targetCount
      && (forall i :: 0 <= i < |layout.enums| ==> EnumOk(layout.enums[i]))
      && (forall i, j :: 0 <= i < j < |layout.enums| ==> layout.enums[i].level < layout.enums[j].level)
  }

  function Ends(sc: Scene): Levels {
    [sc.strides[0] + sc.counts[0], sc.strides[1] + sc.counts[1], sc.strides[2] + sc.counts[2],
     sc.strides[3] + sc.counts[3], sc.strides[4] + sc.counts[4]]
  }

  ghost predicate SceneOk(sc: Scene, cut: Cut) {
    LayoutOk(sc.layout) && Tiled(sc.view, cut, sc.strides, Ends(sc)) == true
  }

  // ---- windows -----------------------------------------------------------------------

  function LevelOf(sc: Scene, i: nat): (l: nat)
    requires LayoutOk(sc.layout) == true && i < |sc.layout.enums|
    ensures l <= LCORE
  {
    assert Key(Laid, 0, 0);
    assert EnumOk(sc.layout.enums[i]);
    sc.layout.enums[i].level
  }

  lemma LevelsDeepen(sc: Scene, i: nat, j: nat)
    requires LayoutOk(sc.layout) == true && i <= j < |sc.layout.enums|
    ensures LevelOf(sc, i) <= LevelOf(sc, j) && (i < j ==> LevelOf(sc, i) < LevelOf(sc, j))
    ensures i == 0 ==> LevelOf(sc, i) == MACHINE
    ensures EnumOk(sc.layout.enums[i])
  {
    assert Key(Laid, 0, 0);
  }

  lemma LayoutGiven(sc: Scene)
    requires LayoutOk(sc.layout) == true
    ensures 0 < |sc.layout.enums| && 0 < sc.layout.targetCount && LevelOf(sc, 0) == MACHINE
  {
    assert Key(Laid, 0, 0);
  }

  /** The first and the last node an enumerator may stand on, given where the enumerators before it stand. */
  ghost function FirstIn(sc: Scene, at: seq<nat>): nat
    requires LayoutOk(sc.layout) == true && |at| < |sc.layout.enums|
  {
    if at == [] then sc.strides[MACHINE]
    else
      LevelsDeepen(sc, |at| - 1, |at|);
      FirstAt(sc.view, at[|at| - 1], LevelOf(sc, |at| - 1), LevelOf(sc, |at|))
  }

  ghost function LastIn(sc: Scene, at: seq<nat>): int
    requires LayoutOk(sc.layout) == true && |at| < |sc.layout.enums|
  {
    if at == [] then Ends(sc)[MACHINE] - 1
    else
      LevelsDeepen(sc, |at| - 1, |at|);
      LastAt(sc.view, at[|at| - 1], LevelOf(sc, |at| - 1), LevelOf(sc, |at|))
  }

  /** Every enumerator stands inside its window. */
  ghost predicate InScope(sc: Scene, at: seq<nat>)
    requires LayoutOk(sc.layout) == true
  {
    at == [] || (|at| <= |sc.layout.enums| && InScope(sc, at[..|at| - 1])
                 && FirstIn(sc, at[..|at| - 1]) <= at[|at| - 1] <= LastIn(sc, at[..|at| - 1]))
  }

  /** The enumerators before the |at|-th stand in their windows, and there is one more. */
  ghost predicate Ready(sc: Scene, cut: Cut, at: seq<nat>) {
    SceneOk(sc, cut) == true && LayoutOk(sc.layout) && InScope(sc, at) && |at| < |sc.layout.enums|
  }

  lemma {:induction false} ScopeIsAt(sc: Scene, cut: Cut, at: seq<nat>)
    requires SceneOk(sc, cut) == true && LayoutOk(sc.layout) == true && InScope(sc, at) == true && at != []
    ensures |at| <= |sc.layout.enums| && At(sc.strides, Ends(sc), LevelOf(sc, |at| - 1), at[|at| - 1])
  {
    var n := |at| - 1;
    TiledMachine(sc.view, cut, sc.strides, Ends(sc));
    LayoutGiven(sc);
    if n > 0 {
      LevelsDeepen(sc, n - 1, n);
      ScopeIsAt(sc, cut, at[..n]);
      SpanIn(sc.view, cut, sc.strides, Ends(sc), at[n - 1], LevelOf(sc, n - 1), LevelOf(sc, n));
    }
  }

  /** Node c is below the node that the enumerator before stands on. */
  ghost predicate Follows(sc: Scene, at: seq<nat>, c: nat)
    requires LayoutOk(sc.layout) == true && |at| < |sc.layout.enums|
  {
    if at == [] then true
    else
      LevelsDeepen(sc, |at| - 1, |at|);
      Ancestor(sc.view, c, LevelOf(sc, |at|), LevelOf(sc, |at| - 1)) == at[|at| - 1]
  }

  /** A window is never empty, and holds exactly the descendants of the node the enumerator before stands on. */
  lemma WindowIs(sc: Scene, cut: Cut, at: seq<nat>, c: nat)
    requires Ready(sc, cut, at) == true
    ensures FirstIn(sc, at) <= LastIn(sc, at)
    ensures At(sc.strides, Ends(sc), LevelOf(sc, |at|), c) ==>
              (FirstIn(sc, at) <= c <= LastIn(sc, at) <==> Follows(sc, at, c))
  {
    TiledMachine(sc.view, cut, sc.strides, Ends(sc));
    LayoutGiven(sc);
    if at != [] {
      var n := |at|;
      LevelsDeepen(sc, n - 1, n);
      ScopeIsAt(sc, cut, at);
      SpanIn(sc.view, cut, sc.strides, Ends(sc), at[n - 1], LevelOf(sc, n - 1), LevelOf(sc, n));
      if At(sc.strides, Ends(sc), LevelOf(sc, n), c) {
        SpanIsDescendants(sc.view, cut, sc.strides, Ends(sc), at[n - 1], LevelOf(sc, n - 1), LevelOf(sc, n), c);
      }
    }
  }

  // ---- the values of expressions -----------------------------------------------------

  /** UINT32 arithmetic. */
  function Wrap(n: nat): nat { n % 0x1_0000_0000 }

  /** The deepest of the first i enumerators that is above the level. */
  function Above(sc: Scene, i: nat, level: nat): (p: nat)
    requires LayoutOk(sc.layout) == true && i <= |sc.layout.enums|
    ensures (p < i && LevelOf(sc, p) < level) || p == i
    ensures p < i ==> forall j :: p < j < i ==> level <= LevelOf(sc, j)
    ensures p == i ==> forall j :: 0 <= j < i ==> level <= LevelOf(sc, j)
  {
    if i == 0 then 0
    else if LevelOf(sc, i - 1) < level then i - 1
    else
      var p := Above(sc, i - 1, level);
      if p == i - 1 then i else p
  }

  /** How many nodes of a level are in scope: below where the deepest enumerator above that level stands. */
  ghost function Known(sc: Scene, at: seq<nat>, level: nat): int
    requires LayoutOk(sc.layout) == true && |at| < |sc.layout.enums| && level <= LCORE
  {
    var p := Above(sc, |at|, level);
    if p == |at| then Ends(sc)[MACHINE] - sc.strides[MACHINE]
    else LastAt(sc.view, at[p], LevelOf(sc, p), level) + 1 - FirstAt(sc.view, at[p], LevelOf(sc, p), level)
  }

  lemma {:induction false} PrefixInScope(sc: Scene, at: seq<nat>, n: nat)
    requires LayoutOk(sc.layout) == true && InScope(sc, at) == true && n <= |at|
    ensures InScope(sc, at[..n])
  {
    if n < |at| {
      assert at[..|at| - 1][..n] == at[..n];
      PrefixInScope(sc, at[..|at| - 1], n);
    } else {
      assert at[..n] == at;
    }
  }

  /** There is always something in scope. */
  lemma KnownPositive(sc: Scene, cut: Cut, at: seq<nat>, level: nat)
    requires Ready(sc, cut, at) == true && level <= LCORE
    ensures 0 < Known(sc, at, level)
  {
    TiledMachine(sc.view, cut, sc.strides, Ends(sc));
    var p := Above(sc, |at|, level);
    if p < |at| {
      PrefixInScope(sc, at, p + 1);
      ScopeIsAt(sc, cut, at[..p + 1]);
      SpanIn(sc.view, cut, sc.strides, Ends(sc), at[p], LevelOf(sc, p), level);
    }
  }

  ghost function Operand(sc: Scene, cut: Cut, at: seq<nat>, value: nat, known: bool): (n: nat)
    requires Ready(sc, cut, at) == true
    requires known ==> value <= LCORE
    ensures known ==> 0 < n
  {
    if known then
      KnownPositive(sc, cut, at, value);
      Known(sc, at, value)
    else value
  }

  ghost function Value(sc: Scene, cut: Cut, at: seq<nat>, e: Expr): nat
    requires Ready(sc, cut, at) == true
    requires ExprOk(e, LevelOf(sc, |at|))
  {
    var left := Operand(sc, cut, at, e.left, e.leftKnown);
    if e.divide then Quotient(left, Operand(sc, cut, at, e.right, e.rightKnown)) else left
  }

  function RoundUp(n: nat): (r: nat)
    ensures 0 < r
  {
    if n == 0 then 1 else n
  }

  // ---- the runs of the enumerators ---------------------------------------------------

  /** The resolved window and steps of an enumerator. */
  datatype Steps = Steps(start: nat, size: nat, offset: nat, count: nat, stride: nat, repeatCount: nat, repeatOffset: nat)

  ghost function StepsAt(sc: Scene, cut: Cut, at: seq<nat>): (p: Steps)
    requires Ready(sc, cut, at) == true
    ensures p.start == FirstIn(sc, at) && p.start + p.size == LastIn(sc, at) + 1 && 0 < p.size
    ensures 0 < p.count && 0 < p.stride && 0 < p.repeatCount
  {
    WindowIs(sc, cut, at, 0);
    LevelsDeepen(sc, |at|, |at|);
    var e := sc.layout.enums[|at|];
    Steps(FirstIn(sc, at), LastIn(sc, at) + 1 - FirstIn(sc, at), Value(sc, cut, at, e.offset),
          RoundUp(Value(sc, cut, at, e.count)), RoundUp(Value(sc, cut, at, e.stride)),
          RoundUp(Value(sc, cut, at, e.repeatCount)), Value(sc, cut, at, e.repeatOffset))
  }

  /** A step around the window, from the node cur. */
  ghost function Step(p: Steps, cur: nat, n: nat): (r: nat)
    requires 0 < p.size && p.start <= cur
    ensures p.start <= r < p.start + p.size
  {
    p.start + Mod(Wrap(cur - p.start + n), p.size)
  }

  ghost function StepMany(p: Steps, cur: nat, n: nat, times: nat): (r: nat)
    requires 0 < p.size && p.start <= cur < p.start + p.size
    ensures p.start <= r < p.start + p.size
    decreases times
  {
    if times == 0 then cur else StepMany(p, Step(p, cur, n), n, times - 1)
  }

  lemma ScopeGrows(sc: Scene, cut: Cut, at: seq<nat>, cur: nat)
    requires Ready(sc, cut, at) == true
    requires FirstIn(sc, at) <= cur <= LastIn(sc, at)
    ensures InScope(sc, at + [cur])
  {
    assert (at + [cur])[..|at|] == at;
  }

  /** One call of the callback: where all the enumerators stand, and the target. */
  datatype Row = Row(at: seq<nat>, location: nat)

  /** The target: the node the last enumerator stands on, or the node above it of the target's level. */
  ghost function Location(sc: Scene, at: seq<nat>): nat
    requires LayoutOk(sc.layout) == true && |at| == |sc.layout.enums|
  {
    LayoutGiven(sc);
    var l := LevelOf(sc, |at| - 1);
    if sc.layout.targetLevel < l then Ancestor(sc.view, at[|at| - 1], l, sc.layout.targetLevel) else at[|at| - 1]
  }

  /** The calls that one pass over the enumerators from the |at|-th on makes, in order. */
  ghost function Below(sc: Scene, cut: Cut, at: seq<nat>): (rows: seq<Row>)
    requires SceneOk(sc, cut) == true && LayoutOk(sc.layout) == true && InScope(sc, at) == true && |at| <= |sc.layout.enums|
    ensures 0 < |rows|
    decreases |sc.layout.enums| - |at|, 0, 0
  {
    if |at| == |sc.layout.enums| then [Row(at, Location(sc, at))]
    else
      var p := StepsAt(sc, cut, at);
      Repeats(sc, cut, at, p.start + Mod(p.offset, p.size), p.repeatCount)
  }

  ghost function Repeats(sc: Scene, cut: Cut, at: seq<nat>, cur: nat, n: nat): (rows: seq<Row>)
    requires Ready(sc, cut, at) == true
    requires FirstIn(sc, at) <= cur <= LastIn(sc, at)
    ensures 0 < n ==> 0 < |rows|
    decreases |sc.layout.enums| - |at| - 1, 2, n
  {
    var p := StepsAt(sc, cut, at);
    if n == 0 then []
    else Turns(sc, cut, at, cur, p.count)
         + Repeats(sc, cut, at, Step(p, StepMany(p, cur, p.stride, p.count), p.repeatOffset), n - 1)
  }

  ghost function Turns(sc: Scene, cut: Cut, at: seq<nat>, cur: nat, n: nat): (rows: seq<Row>)
    requires Ready(sc, cut, at) == true
    requires FirstIn(sc, at) <= cur <= LastIn(sc, at)
    ensures 0 < n ==> 0 < |rows|
    decreases |sc.layout.enums| - |at| - 1, 1, n
  {
    var p := StepsAt(sc, cut, at);
    if n == 0 then []
    else
      ScopeGrows(sc, cut, at, cur);
      Below(sc, cut, at + [cur]) + Turns(sc, cut, at, Step(p, cur, p.stride), n - 1)
  }

  lemma {:induction false} AncestorAt(ns: seq<Node>, cut: Cut, ts: Levels, te: Levels, c: nat, d: nat, level: nat)
    requires Tiled(ns, cut, ts, te) == true && level <= d < 5 && At(ts, te, d, c)
    ensures At(ts, te, level, Ancestor(ns, c, d, level))
    decreases d
  {
    if level < d {
      var p := TiledParent(ns, cut, ts, te, d - 1, c);
      AncestorAt(ns, cut, ts, te, p, d - 1, level);
    }
  }

  // ---- the passes themselves ---------------------------------------------------------

  datatype Hr = Ok | False | Failed

  /** What the callback returns: how many processes it has created, and whether to go on. */
  datatype Answer = Answer(hr: Hr, count: nat)

  /** The callback creates no more than it is asked for, and something whenever it is to go on. */
  ghost predicate Keeps(fn: (nat, nat, nat) -> Answer) {
    forall n: nat, location: nat, c: nat :: 0 < c ==> fn(n, location, c).count <= c && (fn(n, location, c).hr == Ok ==> 0 < fn(n, location, c).count)
  }

  datatype EnumState = EnumState(start: nat, size: nat, current: nat)

  ghost predicate IsWindow(sc: Scene, at: seq<nat>, e: EnumState)
    requires LayoutOk(sc.layout) == true && |at| < |sc.layout.enums|
  {
    e.start == FirstIn(sc, at) && e.start + e.size == LastIn(sc, at) + 1
  }

  /** The first enumerators stand at `at`, each in its window. */
  ghost predicate Stands(sc: Scene, enums: seq<EnumState>, at: seq<nat>)
    requires LayoutOk(sc.layout) == true
  {
    |enums| == |sc.layout.enums| && |at| <= |enums|
    && forall j :: 0 <= j < |at| ==> enums[j].current == at[j] && IsWindow(sc, at[..j], enums[j])
  }

  /** The calls made: all of them, or, when the pass was cut short, the first of them. */
  ghost predicate Ran(hr: Hr, r0: seq<Row>, r1: seq<Row>, all: seq<Row>) {
    if hr == Ok then r1 == r0 + all else exists m :: 0 < m <= |all| && r1 == r0 + all[..m]
  }

  lemma RanFirst(hr: Hr, r0: seq<Row>, r1: seq<Row>, all: seq<Row>, more: seq<Row>)
    requires Ran(hr, r0, r1, all) == true && hr != Ok
    ensures Ran(hr, r0, r1, all + more) == true
  {
    var m :| 0 < m <= |all| && r1 == r0 + all[..m];
    assert (all + more)[..m] == all[..m];
  }

  lemma RanThen(hr: Hr, r0: seq<Row>, r1: seq<Row>, r2: seq<Row>, done: seq<Row>, all: seq<Row>)
    requires r1 == r0 + done && Ran(hr, r1, r2, all) == true
    ensures Ran(hr, r0, r2, done + all) == true
  {
    if hr == Ok {
      assert r0 + (done + all) == r0 + done + all;
    } else {
      var m :| 0 < m <= |all| && r2 == r1 + all[..m];
      assert (done + all)[..|done| + m] == done + all[..m];
      assert r0 + (done + all[..m]) == r0 + done + all[..m];
    }
  }

  /** HWLAYOUT_STATE */
  class State {
    const minProc: nat
    const maxProc: nat
    var procCount: nat
    var enums: seq<EnumState>
    ghost var rows: seq<Row>
    ghost var refused: bool

    constructor (minProc: nat, maxProc: nat, n: nat)
      ensures this.minProc == minProc && this.maxProc == maxProc && procCount == 0
      ensures enums == seq(n, _ => EnumState(0, 0, 0)) && rows == [] && !refused
    {
      this.minProc, this.maxProc := minProc, maxProc;
      procCount, enums, rows, refused := 0, seq(n, _ => EnumState(0, 0, 0)), [], false;
    }

    /** There may be more processes. */
    predicate Open()
      reads this
    {
      maxProc != 0 ==> procCount < maxProc
    }

    /** What a pass does to the count of processes. */
    twostate predicate Counted(hr: Hr)
      reads this
    {
      && (maxProc != 0 ==> procCount <= maxProc)
      && (hr == Ok ==> old(procCount) < procCount && Open() && !refused)
      && (hr == False ==> refused || (maxProc != 0 && procCount == maxProc))
    }
  }

  /** The target of the current iteration. */
  method Climb(sc: Scene, ghost cut: Cut, current: nat, ghost at: seq<nat>) returns (location: nat)
    requires SceneOk(sc, cut) == true && LayoutOk(sc.layout) == true && InScope(sc, at) == true && |at| == |sc.layout.enums|
    requires at != [] && current == at[|at| - 1]
    ensures location == Location(sc, at) && WORLD < location < |sc.view| && sc.view[location].level <= sc.layout.targetLevel
  {
    ghost var d: nat := LevelOf(sc, |at| - 1);
    ghost var ts, te, target := sc.strides, Ends(sc), sc.layout.targetLevel;
    location := current;
    ScopeIsAt(sc, cut, at);
    TiledIn(sc.view, cut, ts, te, d, location);
    while sc.view[location].level > sc.layout.targetLevel
      invariant d <= LCORE && At(ts, te, d, location) && location < |sc.view| && sc.view[location].level == d
      invariant target < d ==> Ancestor(sc.view, location, d, target) == Location(sc, at)
      invariant d <= target ==> location == Location(sc, at)
      decreases d
    {
      ghost var p := TiledParent(sc.view, cut, ts, te, d - 1, location);
      location := sc.view[location].parent;
      d := d - 1;
      TiledIn(sc.view, cut, ts, te, d, location);
    }
    NotWorld(sc.view, cut, ts, te, d, location);
  }

  lemma NotWorld(ns: seq<Node>, cut: Cut, ts: Levels, te: Levels, d: nat, n: nat)
    requires Tiled(ns, cut, ts, te) == true && d < 5 && At(ts, te, d, n)
    ensures WORLD < n
    decreases d
  {
    TiledMachine(ns, cut, ts, te);
    if d > 0 { var p := TiledParent(ns, cut, ts, te, d - 1, n); }
  }

  /** The callback is called, and what it has taken is counted. */
  method Call(st: State, fn: (nat, nat, nat) -> Answer, location: nat, count: nat, ghost at: seq<nat>) returns (hr: Hr)
    requires Keeps(fn) && st.Open() && !st.refused && 0 < count && (st.maxProc != 0 ==> st.procCount + count <= st.maxProc)
    modifies st`procCount, st`rows, st`refused
    ensures st.rows == old(st.rows) + [Row(at, location)] && st.Counted(hr)
    ensures var answer := fn(old(st.procCount), location, count);
            && st.procCount == old(st.procCount) + (if answer.hr == Failed then 0 else answer.count)
            && (answer.hr != Ok ==> hr == answer.hr)
  {
    var answer := fn(st.procCount, location, count);
    hr := answer.hr;
    st.rows := st.rows + [Row(at, location)];
    if hr == Failed {
      return;
    }
    st.procCount := st.procCount + answer.count;
    if hr == False {
      st.refused := true;
      return;
    }
    if st.maxProc != 0 && st.procCount >= st.maxProc {
      return False;
    }
  }

  /** HwLayoutProcessTarget */
  method ProcessTarget(st: State, sc: Scene, ghost cut: Cut, fn: (nat, nat, nat) -> Answer, ghost at: seq<nat>) returns (hr: Hr)
    requires SceneOk(sc, cut) == true && LayoutOk(sc.layout) == true && InScope(sc, at) == true && |at| == |sc.layout.enums| && Keeps(fn)
    requires Stands(sc, st.enums, at) && st.Open() && !st.refused
    modifies st
    ensures st.enums == old(st.enums) && st.rows == old(st.rows) + [Row(at, Location(sc, at))]
    ensures st.Counted(hr)
    ensures var c := if st.maxProc != 0 && st.maxProc - old(st.procCount) < sc.layout.targetCount
                     then st.maxProc - old(st.procCount) else sc.layout.targetCount;
            var answer := fn(old(st.procCount), Location(sc, at), c);
            && st.procCount == old(st.procCount) + (if answer.hr == Failed then 0 else answer.count)
            && (answer.hr != Ok ==> hr == answer.hr)
  {
    var count := sc.layout.targetCount;
    if st.maxProc != 0 && st.maxProc - st.procCount < count {
      count := st.maxProc - st.procCount;
    }
    LayoutGiven(sc);
    var location := Climb(sc, cut, st.enums[|sc.layout.enums| - 1].current, at);
    hr := Call(st, fn, location, count, at);
  }

  // ---- resolving expressions ---------------------------------------------------------

  lemma StandsAt(sc: Scene, enums: seq<EnumState>, at: seq<nat>, j: nat)
    requires LayoutOk(sc.layout) == true && Stands(sc, enums, at) == true && j < |at|
    ensures |at| <= |enums| == |sc.layout.enums| && enums[j].current == at[j] && IsWindow(sc, at[..j], enums[j])
  {
  }

  /** The window of an enumerator is what is in scope of its level. */
  lemma KnownIsSize(sc: Scene, cut: Cut, at: seq<nat>, e: nat, w: EnumState)
    requires SceneOk(sc, cut) == true && LayoutOk(sc.layout) == true && InScope(sc, at) == true && e <= |at| < |sc.layout.enums|
    requires IsWindow(sc, at[..e], w)
    ensures Known(sc, at, LevelOf(sc, e)) == w.size
  {
    var l := LevelOf(sc, e);
    LayoutGiven(sc);
    LevelsDeepen(sc, 0, e);
    if 0 < e { LevelsDeepen(sc, e - 1, e); }
    AboveIs(sc, |at|, l, if e == 0 then |at| else e - 1);
    if 0 < e { assert at[..e][e - 1] == at[e - 1]; }
  }

  lemma AboveIs(sc: Scene, i: nat, level: nat, p: nat)
    requires LayoutOk(sc.layout) == true && i <= |sc.layout.enums| && p <= i
    requires p < i ==> LevelOf(sc, p) < level && (p + 1 < i ==> level <= LevelOf(sc, p + 1))
    requires p == i ==> i == 0 || level <= LevelOf(sc, 0)
    ensures Above(sc, i, level) == p
  {
    var q := Above(sc, i, level);
    if p < q && p + 1 < i { LevelsDeepen(sc, p + 1, if q == i then p + 1 else q); }
    if q == i && 0 < i { LevelsDeepen(sc, 0, if p < i then p else 0); }
    if p == i && q < i { LevelsDeepen(sc, 0, q); }
  }

  /** HwLayoutResolveWellknownExpression */
  method ResolveWellknown(st: State, sc: Scene, ghost cut: Cut, i: nat, level: nat, ghost at: seq<nat>) returns (n: nat)
    requires Ready(sc, cut, at) == true && |at| == i
    requires Stands(sc, st.enums, at) == true && i < |st.enums| && IsWindow(sc, at, st.enums[i]) && level <= LevelOf(sc, i)
    ensures n == Known(sc, at, level) && 0 < n
  {
    KnownPositive(sc, cut, at, level);
    var e := FindScope(sc, i, level);
    ScopeKnown(sc, cut, st.enums, at, e, level);
    if LevelOf(sc, e) == level {
      return st.enums[e].size;
    }
    n := WalkSpan(sc, cut, st.enums[e].current, LevelOf(sc, e), level, at, e);
  }

  /** The enumerator that gives the scope of a well-known size. */
  method FindScope(sc: Scene, i: nat, level: nat) returns (e: nat)
    requires LayoutOk(sc.layout) == true && i < |sc.layout.enums|
    ensures e <= i && LevelOf(sc, e) <= level && (e < i ==> level < LevelOf(sc, e + 1))
  {
    e := i;
    LayoutGiven(sc);
    while e > 0 && LevelOf(sc, e) > level
      invariant e <= i && (e < i ==> level < LevelOf(sc, e + 1))
    {
      e := e - 1;
    }
  }

  lemma ScopeKnown(sc: Scene, cut: Cut, enums: seq<EnumState>, at: seq<nat>, e: nat, level: nat)
    requires SceneOk(sc, cut) == true && LayoutOk(sc.layout) == true && InScope(sc, at) == true && e <= |at| < |sc.layout.enums|
    requires Stands(sc, enums, at) == true && |at| < |enums| && IsWindow(sc, at, enums[|at|]) && level <= LevelOf(sc, |at|)
    requires LevelOf(sc, e) <= level && (e < |at| ==> level < LevelOf(sc, e + 1))
    ensures LevelOf(sc, e) == level ==> Known(sc, at, level) == enums[e].size
    ensures LevelOf(sc, e) < level ==>
              e < |at| && enums[e].current == at[e]
              && Known(sc, at, level) == LastAt(sc.view, at[e], LevelOf(sc, e), level) + 1 - FirstAt(sc.view, at[e], LevelOf(sc, e), level)
  {
    if LevelOf(sc, e) == level {
      if e == |at| { assert at[..e] == at; } else { StandsAt(sc, enums, at, e); }
      KnownIsSize(sc, cut, at, e, enums[e]);
    } else {
      StandsAt(sc, enums, at, e);
      AboveIs(sc, |at|, level, e);
    }
  }

  /** Walking the span of a node down to a level. */
  method WalkSpan(sc: Scene, ghost cut: Cut, current: nat, ghost from: nat, level: nat, ghost at: seq<nat>, ghost e: nat) returns (n: nat)
    requires SceneOk(sc, cut) == true && LayoutOk(sc.layout) == true && InScope(sc, at) == true && e < |at| <= |sc.layout.enums|
    requires from == LevelOf(sc, e) < level <= LCORE && current == at[e]
    ensures n == LastAt(sc.view, current, from, level) + 1 - FirstAt(sc.view, current, from, level)
  {
    ghost var ts, te := sc.strides, Ends(sc);
    PrefixInScope(sc, at, e + 1);
    ScopeIsAt(sc, cut, at[..e + 1]);
    var start, end := current, current;
    ghost var d := from + 1;
    WalkStep(sc, cut, current, from, d);
    start, end := sc.view[start].first, sc.view[end].last;
    while sc.view[start].level < level
      invariant from < d <= level && start == FirstAt(sc.view, current, from, d) && end == LastAt(sc.view, current, from, d)
      invariant start <= end < |sc.view| && sc.view[start].level == d
      decreases level - d
    {
      d := d + 1;
      WalkStep(sc, cut, current, from, d);
      start, end := sc.view[start].first, sc.view[end].last;
    }
    n := end - start + 1;
  }

  lemma WalkStep(sc: Scene, cut: Cut, n: nat, from: nat, d: nat)
    requires SceneOk(sc, cut) == true && from < d < 5 && At(sc.strides, Ends(sc), from, n)
    ensures var f, l := FirstAt(sc.view, n, from, d - 1), LastAt(sc.view, n, from, d - 1);
            f < |sc.view| && l < |sc.view| && FirstAt(sc.view, n, from, d) == sc.view[f].first && LastAt(sc.view, n, from, d) == sc.view[l].last
    ensures FirstAt(sc.view, n, from, d) <= LastAt(sc.view, n, from, d) < |sc.view|
    ensures sc.view[FirstAt(sc.view, n, from, d)].level == d
  {
    var ts, te := sc.strides, Ends(sc);
    SpanStep(sc.view, cut, ts, te, n, from, d);
    SpanIn(sc.view, cut, ts, te, n, from, d);
    TiledIn(sc.view, cut, ts, te, d, FirstAt(sc.view, n, from, d));
    TiledIn(sc.view, cut, ts, te, d, LastAt(sc.view, n, from, d));
  }

  /** HwLayoutResolveExpression: the divisor is never zero. */
  method Resolve(st: State, sc: Scene, ghost cut: Cut, i: nat, e: Expr, ghost at: seq<nat>) returns (n: nat)
    requires Ready(sc, cut, at) == true && |at| == i
    requires Stands(sc, st.enums, at) == true && i < |st.enums| && IsWindow(sc, at, st.enums[i]) && ExprOk(e, LevelOf(sc, i))
    ensures n == Value(sc, cut, at, e)
  {
    var left, right := e.left, e.right;
    if e.leftKnown {
      left := ResolveWellknown(st, sc, cut, i, e.left, at);
    }
    if !e.divide {
      return left;
    }
    if e.rightKnown {
      right := ResolveWellknown(st, sc, cut, i, e.right, at);
    }
    Divides(left, right);
    n := left / right;
  }

  // ---- the enumeration ---------------------------------------------------------------

  lemma StandsMore(sc: Scene, enums: seq<EnumState>, at: seq<nat>)
    requires LayoutOk(sc.layout) == true && Stands(sc, enums, at) && |at| < |sc.layout.enums| && IsWindow(sc, at, enums[|at|])
    ensures Stands(sc, enums, at + [enums[|at|].current]) == true
  {
    var more := at + [enums[|at|].current];
    forall j | 0 <= j < |more| ensures enums[j].current == more[j] && IsWindow(sc, more[..j], enums[j]) {
      assert more[..j] == at[..j];
      if j == |at| { assert at[..j] == at; }
    }
  }

  lemma StandsLess(sc: Scene, enums: seq<EnumState>, at: seq<nat>, cur: nat)
    requires LayoutOk(sc.layout) == true && Stands(sc, enums, at + [cur])
    ensures Stands(sc, enums, at) == true && |at| < |enums| && enums[|at|].current == cur && IsWindow(sc, at, enums[|at|])
  {
    var more := at + [cur];
    forall j | 0 <= j < |at| ensures enums[j].current == at[j] && IsWindow(sc, at[..j], enums[j]) {
      assert more[..j] == at[..j] && more[j] == at[j];
    }
    assert more[..|at|] == at && more[|at|] == cur;
  }

  lemma StandsStill(sc: Scene, enums: seq<EnumState>, at: seq<nat>, e: EnumState)
    requires LayoutOk(sc.layout) == true && Stands(sc, enums, at) == true && |at| < |enums|
    ensures Stands(sc, enums[|at| := e], at) == true
  {
  }

  /** Start and size of the window: down from where the enumerator before stands. */
  method FindWindow(st: State, sc: Scene, ghost cut: Cut, i: nat, ghost at: seq<nat>) returns (start: nat, size: nat)
    requires Ready(sc, cut, at) == true && |at| == i
    requires Stands(sc, st.enums, at) == true
    ensures start == FirstIn(sc, at) && start + size == LastIn(sc, at) + 1 && 0 < size
  {
    WindowIs(sc, cut, at, 0);
    if i == 0 {
      return sc.strides[MACHINE], sc.counts[MACHINE];
    }
    StandsAt(sc, st.enums, at, i - 1);
    var end := st.enums[i - 1].current;
    start := end;
    ghost var current, from, d: nat := end, LevelOf(sc, i - 1), LevelOf(sc, i - 1);
    ScopeIsAt(sc, cut, at);
    TiledIn(sc.view, cut, sc.strides, Ends(sc), from, current);
    LevelsDeepen(sc, i - 1, i);
    while sc.view[end].level != LevelOf(sc, i)
      invariant from <= d <= LevelOf(sc, i) && start == FirstAt(sc.view, current, from, d) && end == LastAt(sc.view, current, from, d)
      invariant start < |sc.view| && end < |sc.view| && sc.view[end].level == d
      decreases LevelOf(sc, i) - d
    {
      d := d + 1;
      WalkStep(sc, cut, current, from, d);
      WalkLast(sc, cut, current, from, d);
      start, end := sc.view[start].first, sc.view[end].last;
    }
    size := end - start + 1;
  }

  lemma WalkLast(sc: Scene, cut: Cut, n: nat, from: nat, d: nat)
    requires SceneOk(sc, cut) == true && from < d < 5 && At(sc.strides, Ends(sc), from, n)
    ensures LastAt(sc.view, n, from, d) < |sc.view| && sc.view[LastAt(sc.view, n, from, d)].level == d
  {
    SpanIn(sc.view, cut, sc.strides, Ends(sc), n, from, d);
    TiledIn(sc.view, cut, sc.strides, Ends(sc), d, LastAt(sc.view, n, from, d));
  }

  /** The enumerator after `at` stands on cur, in its window. */
  ghost predicate Poised(sc: Scene, at: seq<nat>, enums: seq<EnumState>, cur: nat)
    requires LayoutOk(sc.layout) == true
  {
    forall z: int :: Key(Poise, |at|, z) ==>
      && |at| < |sc.layout.enums| && InScope(sc, at) && Stands(sc, enums, at) && IsWindow(sc, at, enums[|at|])
      && enums[|at|].current == cur && FirstIn(sc, at) <= cur <= LastIn(sc, at)
  }

  lemma PoisedIn(sc: Scene, cut: Cut, at: seq<nat>, enums: seq<EnumState>, cur: nat)
    requires SceneOk(sc, cut) == true && LayoutOk(sc.layout) == true && Poised(sc, at, enums, cur) == true && |at| < |sc.layout.enums|
    ensures InScope(sc, at + [cur]) && Stands(sc, enums, at + [cur]) == true
    ensures |at| < |enums| && FirstIn(sc, at) <= cur <= LastIn(sc, at)
  {
    assert Key(Poise, |at|, 0);
    ScopeGrows(sc, cut, at, cur);
    StandsMore(sc, enums, at);
  }

  lemma PoisedAgain(sc: Scene, at: seq<nat>, enums: seq<EnumState>, cur: nat)
    requires LayoutOk(sc.layout) == true && |at| < |sc.layout.enums| && InScope(sc, at) == true && FirstIn(sc, at) <= cur <= LastIn(sc, at)
    requires Stands(sc, enums, at + [cur]) == true
    ensures Poised(sc, at, enums, cur) == true && |at| < |enums|
  {
    StandsLess(sc, enums, at, cur);
  }

  /** An enumerator moves on by n nodes, around its window. */
  method Move(st: State, sc: Scene, ghost cut: Cut, i: nat, n: nat, ghost at: seq<nat>, ghost cur: nat)
    requires Ready(sc, cut, at) == true && LayoutOk(sc.layout) == true && |at| == i && Poised(sc, at, st.enums, cur) == true
    modifies st`enums
    ensures StepsAt(sc, cut, at).start <= cur
    ensures Poised(sc, at, st.enums, Step(StepsAt(sc, cut, at), cur, n)) == true
  {
    PoisedMoves(sc, cut, at, st.enums, cur, n);
    var e := st.enums[i];
    st.enums := st.enums[i := EnumState(e.start, e.size, e.start + Wrap(e.current - e.start + n) % e.size)];
  }

  lemma PoisedMoves(sc: Scene, cut: Cut, at: seq<nat>, enums: seq<EnumState>, cur: nat, n: nat)
    requires Ready(sc, cut, at) == true && LayoutOk(sc.layout) == true && Poised(sc, at, enums, cur) == true
    ensures |at| < |enums| && 0 < enums[|at|].size && enums[|at|].start <= enums[|at|].current == cur
    ensures StepsAt(sc, cut, at).start <= cur
    ensures var e, r := enums[|at|], Step(StepsAt(sc, cut, at), cur, n);
            r == e.start + Wrap(cur - e.start + n) % e.size && Poised(sc, at, enums[|at| := EnumState(e.start, e.size, r)], r) == true
  {
    assert Key(Poise, |at|, 0);
    WindowIs(sc, cut, at, 0);
    var e, r := enums[|at|], Step(StepsAt(sc, cut, at), cur, n);
    Divides(Wrap(cur - e.start + n), e.size);
    StandsStill(sc, enums, at, EnumState(e.start, e.size, r));
  }

  lemma PoisedStands(sc: Scene, at: seq<nat>, enums: seq<EnumState>, cur: nat)
    requires LayoutOk(sc.layout) == true && |at| < |sc.layout.enums| && Poised(sc, at, enums, cur) == true
    ensures Stands(sc, enums, at) == true && FirstIn(sc, at) <= cur <= LastIn(sc, at)
  {
    assert Key(Poise, |at|, 0);
  }

  /** With n turns left from cur on, `done` of the rows of `all` are done, and the last turn will lead to `end`. */
  ghost predicate TurnsLeft(sc: Scene, cut: Cut, at: seq<nat>, cur: nat, n: nat, all: seq<Row>, done: seq<Row>, end: nat)
    requires Ready(sc, cut, at) == true
  {
    forall z: int :: Key(Turning, n, z) ==>
      && FirstIn(sc, at) <= cur <= LastIn(sc, at) && all == done + Turns(sc, cut, at, cur, n)
      && end == StepMany(StepsAt(sc, cut, at), cur, StepsAt(sc, cut, at).stride, n)
  }

  lemma TurnsNext(sc: Scene, cut: Cut, at: seq<nat>, cur: nat, n: nat, all: seq<Row>, done: seq<Row>, end: nat)
    requires Ready(sc, cut, at) == true && InScope(sc, at + [cur]) == true
    requires TurnsLeft(sc, cut, at, cur, n, all, done, end) == true && 0 < n && StepsAt(sc, cut, at).start <= cur
    ensures var p := StepsAt(sc, cut, at);
            TurnsLeft(sc, cut, at, Step(p, cur, p.stride), n - 1, all, done + Below(sc, cut, at + [cur]), end) == true
  {
    assert Key(Turning, n, 0);
    var p := StepsAt(sc, cut, at);
    var below, rest := Below(sc, cut, at + [cur]), Turns(sc, cut, at, Step(p, cur, p.stride), n - 1);
    assert done + (below + rest) == done + below + rest;
  }

  lemma TurnsStop(sc: Scene, cut: Cut, at: seq<nat>, cur: nat, n: nat, all: seq<Row>, done: seq<Row>, end: nat,
                  hr: Hr, r0: seq<Row>, r1: seq<Row>, r2: seq<Row>)
    requires Ready(sc, cut, at) == true && InScope(sc, at + [cur]) == true
    requires TurnsLeft(sc, cut, at, cur, n, all, done, end) == true && 0 < n && hr != Ok
    requires r1 == r0 + done && Ran(hr, r1, r2, Below(sc, cut, at + [cur])) == true
    ensures Ran(hr, r0, r2, all) == true
  {
    assert Key(Turning, n, 0);
    var p := StepsAt(sc, cut, at);
    var below, rest := Below(sc, cut, at + [cur]), Turns(sc, cut, at, Step(p, cur, p.stride), n - 1);
    RanFirst(hr, r1, r2, below, rest);
    RanThen(hr, r0, r1, r2, done, below + rest);
  }

  lemma TurnsDone(sc: Scene, cut: Cut, at: seq<nat>, cur: nat, all: seq<Row>, done: seq<Row>, end: nat)
    requires Ready(sc, cut, at) == true
    requires TurnsLeft(sc, cut, at, cur, 0, all, done, end) == true
    ensures all == done && end == cur
  {
    assert Key(Turning, 0, 0);
  }

  lemma TurnsBegin(sc: Scene, cut: Cut, at: seq<nat>, cur: nat, n: nat)
    requires Ready(sc, cut, at) == true
    requires FirstIn(sc, at) <= cur <= LastIn(sc, at)
    ensures TurnsLeft(sc, cut, at, cur, n, Turns(sc, cut, at, cur, n), [],
                      StepMany(StepsAt(sc, cut, at), cur, StepsAt(sc, cut, at).stride, n)) == true
  {
  }

  ghost predicate RepeatsLeft(sc: Scene, cut: Cut, at: seq<nat>, cur: nat, n: nat, all: seq<Row>, done: seq<Row>)
    requires Ready(sc, cut, at) == true
  {
    forall z: int :: Key(Repeating, n, z) ==>
      FirstIn(sc, at) <= cur <= LastIn(sc, at) && all == done + Repeats(sc, cut, at, cur, n)
  }

  lemma RepeatsNext(sc: Scene, cut: Cut, at: seq<nat>, cur: nat, n: nat, all: seq<Row>, done: seq<Row>)
    requires Ready(sc, cut, at) == true
    requires RepeatsLeft(sc, cut, at, cur, n, all, done) == true && 0 < n && FirstIn(sc, at) <= cur <= LastIn(sc, at)
    ensures var p := StepsAt(sc, cut, at);
            RepeatsLeft(sc, cut, at, Step(p, StepMany(p, cur, p.stride, p.count), p.repeatOffset), n - 1, all,
                        done + Turns(sc, cut, at, cur, p.count)) == true
  {
    assert Key(Repeating, n, 0);
    var p := StepsAt(sc, cut, at);
    var turns, rest := Turns(sc, cut, at, cur, p.count),
                       Repeats(sc, cut, at, Step(p, StepMany(p, cur, p.stride, p.count), p.repeatOffset), n - 1);
    assert done + (turns + rest) == done + turns + rest;
  }

  lemma RepeatsStop(sc: Scene, cut: Cut, at: seq<nat>, cur: nat, n: nat, all: seq<Row>, done: seq<Row>,
                    hr: Hr, r0: seq<Row>, r1: seq<Row>, r2: seq<Row>)
    requires Ready(sc, cut, at) == true
    requires RepeatsLeft(sc, cut, at, cur, n, all, done) == true && 0 < n && hr != Ok && FirstIn(sc, at) <= cur <= LastIn(sc, at)
    requires r1 == r0 + done && Ran(hr, r1, r2, Turns(sc, cut, at, cur, StepsAt(sc, cut, at).count)) == true
    ensures Ran(hr, r0, r2, all) == true
  {
    assert Key(Repeating, n, 0);
    var p := StepsAt(sc, cut, at);
    var turns, rest := Turns(sc, cut, at, cur, p.count),
                       Repeats(sc, cut, at, Step(p, StepMany(p, cur, p.stride, p.count), p.repeatOffset), n - 1);
    RanFirst(hr, r1, r2, turns, rest);
    RanThen(hr, r0, r1, r2, done, turns + rest);
  }

  lemma RepeatsDone(sc: Scene, cut: Cut, at: seq<nat>, cur: nat, all: seq<Row>, done: seq<Row>)
    requires Ready(sc, cut, at) == true
    requires RepeatsLeft(sc, cut, at, cur, 0, all, done) == true
    ensures all == done
  {
    assert Key(Repeating, 0, 0);
  }

  /** The window and the steps of an enumerator, and its first node. */
  method Prepare(st: State, sc: Scene, ghost cut: Cut, i: nat, ghost at: seq<nat>)
    returns (count: nat, stride: nat, repeatCount: nat, repeatOffset: nat)
    requires Ready(sc, cut, at) == true && |at| == i
    requires Stands(sc, st.enums, at) == true
    modifies st`enums
    ensures var p := StepsAt(sc, cut, at);
            && count == p.count && stride == p.stride && repeatCount == p.repeatCount && repeatOffset == p.repeatOffset
            && Poised(sc, at, st.enums, p.start + Mod(p.offset, p.size)) == true
  {
    ghost var p := StepsAt(sc, cut, at);
    var start, size := FindWindow(st, sc, cut, i, at);
    var e := sc.layout.enums[i];
    LevelsDeepen(sc, i, i);
    StandsStill(sc, st.enums, at, EnumState(start, size, st.enums[i].current));
    st.enums := st.enums[i := EnumState(start, size, st.enums[i].current)];
    var offset := Resolve(st, sc, cut, i, e.offset, at);
    count := Resolve(st, sc, cut, i, e.count, at);
    stride := Resolve(st, sc, cut, i, e.stride, at);
    repeatCount := Resolve(st, sc, cut, i, e.repeatCount, at);
    repeatOffset := Resolve(st, sc, cut, i, e.repeatOffset, at);
    count, stride, repeatCount := RoundUp(count), RoundUp(stride), RoundUp(repeatCount);
    Divides(offset, size);
    StandsStill(sc, st.enums, at, EnumState(start, size, start + offset % size));
    st.enums := st.enums[i := EnumState(start, size, start + offset % size)];
  }

  /** HwLayoutProcessEnum: makes the calls of Below, in order, until the callback or the limit ends the pass. */
  method ProcessEnum(st: State, sc: Scene, ghost cut: Cut, fn: (nat, nat, nat) -> Answer, i: nat, ghost at: seq<nat>) returns (hr: Hr)
    requires SceneOk(sc, cut) == true && LayoutOk(sc.layout) == true && InScope(sc, at) == true && |at| == i <= |sc.layout.enums| && Keeps(fn) == true
    requires Stands(sc, st.enums, at) == true && st.Open() && !st.refused
    modifies st
    ensures Stands(sc, st.enums, at) == true && st.Counted(hr)
    ensures Ran(hr, old(st.rows), st.rows, Below(sc, cut, at)) == true
    decreases |sc.layout.enums| - i, 4
  {
    if i == |sc.layout.enums| {
      hr := ProcessLeaf(st, sc, cut, fn, at);
      return;
    }
    ghost var p := BelowIs(sc, cut, at);
    var count, stride, repeatCount, repeatOffset := Prepare(st, sc, cut, i, at);
    hr := RunRepeats(st, sc, cut, fn, i, count, stride, repeatCount, repeatOffset, at, p.start + Mod(p.offset, p.size));
  }

  /** Behind the last enumerator there is the one row of its target. */
  method ProcessLeaf(st: State, sc: Scene, ghost cut: Cut, fn: (nat, nat, nat) -> Answer, ghost at: seq<nat>) returns (hr: Hr)
    requires SceneOk(sc, cut) == true && LayoutOk(sc.layout) == true && InScope(sc, at) == true && |at| == |sc.layout.enums| && Keeps(fn) == true
    requires Stands(sc, st.enums, at) == true && st.Open() && !st.refused
    modifies st
    ensures st.enums == old(st.enums) && st.Counted(hr)
    ensures Ran(hr, old(st.rows), st.rows, Below(sc, cut, at)) == true
  {
    hr := ProcessTarget(st, sc, cut, fn, at);
    assert Below(sc, cut, at)[..1] == Below(sc, cut, at);
  }

  lemma BelowIs(sc: Scene, cut: Cut, at: seq<nat>) returns (p: Steps)
    requires Ready(sc, cut, at) == true
    ensures p == StepsAt(sc, cut, at)
    ensures Below(sc, cut, at) == Repeats(sc, cut, at, p.start + Mod(p.offset, p.size), p.repeatCount)
  {
    p := StepsAt(sc, cut, at);
  }

  /** The outer loop of an enumerator. */
  method RunRepeats(st: State, sc: Scene, ghost cut: Cut, fn: (nat, nat, nat) -> Answer, i: nat,
                    count: nat, stride: nat, repeatCount: nat, repeatOffset: nat, ghost at: seq<nat>, ghost cur0: nat) returns (hr: Hr)
    requires Ready(sc, cut, at) == true && |at| == i && Keeps(fn) == true
    requires Poised(sc, at, st.enums, cur0) == true && st.Open() && !st.refused && FirstIn(sc, at) <= cur0 <= LastIn(sc, at)
    requires var p := StepsAt(sc, cut, at); p.count == count && p.stride == stride && p.repeatOffset == repeatOffset && 0 < repeatCount
    modifies st
    ensures Stands(sc, st.enums, at) == true && st.Counted(hr)
    ensures Ran(hr, old(st.rows), st.rows, Repeats(sc, cut, at, cur0, repeatCount)) == true
    decreases |sc.layout.enums| - i, 3
  {
    ghost var cur: nat := cur0;
    ghost var all, done: seq<Row> := Repeats(sc, cut, at, cur0, repeatCount), [];
    var left: nat := repeatCount;
    while left > 0
      invariant Poised(sc, at, st.enums, cur) == true && st.Open() && !st.refused && FirstIn(sc, at) <= cur <= LastIn(sc, at)
      invariant st.rows == old(st.rows) + done && RepeatsLeft(sc, cut, at, cur, left, all, done) == true
      invariant old(st.procCount) <= st.procCount && (left < repeatCount ==> old(st.procCount) < st.procCount)
    {
      hr, done, cur := RunRepeat(st, sc, cut, fn, i, count, stride, repeatOffset, at, cur, left, all, done, old(st.rows));
      if hr != Ok {
        return;
      }
      left := left - 1;
    }
    RepeatsDone(sc, cut, at, cur, all, done);
    PoisedStands(sc, at, st.enums, cur);
    hr := Ok;
  }

  /** The body of the outer loop. */
  method RunRepeat(st: State, sc: Scene, ghost cut: Cut, fn: (nat, nat, nat) -> Answer, i: nat,
                   count: nat, stride: nat, repeatOffset: nat, ghost at: seq<nat>,
                   ghost cur: nat, ghost n: nat, ghost all: seq<Row>, ghost done: seq<Row>, ghost r0: seq<Row>)
    returns (hr: Hr, ghost done': seq<Row>, ghost cur': nat)
    requires Ready(sc, cut, at) == true && |at| == i && Keeps(fn) == true
    requires Poised(sc, at, st.enums, cur) == true && st.Open() && !st.refused && FirstIn(sc, at) <= cur <= LastIn(sc, at)
    requires var p := StepsAt(sc, cut, at); p.count == count && p.stride == stride && p.repeatOffset == repeatOffset
    requires st.rows == r0 + done && 0 < n && RepeatsLeft(sc, cut, at, cur, n, all, done) == true
    modifies st
    ensures st.Counted(hr)
    ensures hr == Ok ==> Poised(sc, at, st.enums, cur') == true && FirstIn(sc, at) <= cur' <= LastIn(sc, at)
                         && st.rows == r0 + done' && RepeatsLeft(sc, cut, at, cur', n - 1, all, done') == true
    ensures hr != Ok ==> Stands(sc, st.enums, at) == true && Ran(hr, r0, st.rows, all) == true
    decreases |sc.layout.enums| - i, 2
  {
    ghost var p := StepsAt(sc, cut, at);
    ghost var r1, end := st.rows, StepMany(p, cur, p.stride, p.count);
    done', cur' := done, cur;
    hr := RunTurns(st, sc, cut, fn, i, count, stride, at, cur);
    if hr == Ok {
      Move(st, sc, cut, i, repeatOffset, at, end);
      RepeatsNext(sc, cut, at, cur, n, all, done);
      done' := done + Turns(sc, cut, at, cur, p.count);
      cur' := Step(p, end, p.repeatOffset);
    } else {
      RepeatsStop(sc, cut, at, cur, n, all, done, hr, r0, r1, st.rows);
    }
  }

  /** The inner loop of an enumerator. */
  method RunTurns(st: State, sc: Scene, ghost cut: Cut, fn: (nat, nat, nat) -> Answer, i: nat,
                  count: nat, stride: nat, ghost at: seq<nat>, ghost cur0: nat) returns (hr: Hr)
    requires Ready(sc, cut, at) == true && |at| == i && Keeps(fn) == true
    requires Poised(sc, at, st.enums, cur0) == true && st.Open() && !st.refused && FirstIn(sc, at) <= cur0 <= LastIn(sc, at)
    requires StepsAt(sc, cut, at).stride == stride && 0 < count
    modifies st
    ensures Stands(sc, st.enums, at) == true && st.Counted(hr)
    ensures Ran(hr, old(st.rows), st.rows, Turns(sc, cut, at, cur0, count)) == true
    ensures hr == Ok ==> Poised(sc, at, st.enums, StepMany(StepsAt(sc, cut, at), cur0, stride, count)) == true
    decreases |sc.layout.enums| - i, 1
  {
    ghost var p := StepsAt(sc, cut, at);
    ghost var cur: nat := cur0;
    ghost var all, done: seq<Row>, end := Turns(sc, cut, at, cur0, count), [], StepMany(p, cur0, stride, count);
    TurnsBegin(sc, cut, at, cur0, count);
    for k := 0 to count
      invariant Poised(sc, at, st.enums, cur) == true && st.Open() && !st.refused && FirstIn(sc, at) <= cur <= LastIn(sc, at)
      invariant st.rows == old(st.rows) + done && TurnsLeft(sc, cut, at, cur, count - k, all, done, end) == true
      invariant old(st.procCount) <= st.procCount && (0 < k ==> old(st.procCount) < st.procCount)
    {
      hr, done, cur := RunTurn(st, sc, cut, fn, i, stride, at, cur, count - k, all, done, end, old(st.rows));
      if hr != Ok {
        return;
      }
    }
    TurnsDone(sc, cut, at, cur, all, done, end);
    PoisedStands(sc, at, st.enums, cur);
    hr := Ok;
  }

  /** The body of the inner loop. */
  method RunTurn(st: State, sc: Scene, ghost cut: Cut, fn: (nat, nat, nat) -> Answer, i: nat, stride: nat, ghost at: seq<nat>,
                 ghost cur: nat, ghost n: nat, ghost all: seq<Row>, ghost done: seq<Row>, ghost end: nat, ghost r0: seq<Row>)
    returns (hr: Hr, ghost done': seq<Row>, ghost cur': nat)
    requires Ready(sc, cut, at) == true && |at| == i && Keeps(fn) == true
    requires Poised(sc, at, st.enums, cur) == true && st.Open() && !st.refused && FirstIn(sc, at) <= cur <= LastIn(sc, at)
    requires StepsAt(sc, cut, at).stride == stride && 0 < n
    requires st.rows == r0 + done && TurnsLeft(sc, cut, at, cur, n, all, done, end) == true
    modifies st
    ensures st.Counted(hr)
    ensures hr == Ok ==> Poised(sc, at, st.enums, cur') == true && FirstIn(sc, at) <= cur' <= LastIn(sc, at)
                         && st.rows == r0 + done' && TurnsLeft(sc, cut, at, cur', n - 1, all, done', end) == true
    ensures hr != Ok ==> Stands(sc, st.enums, at) == true && Ran(hr, r0, st.rows, all) == true
    decreases |sc.layout.enums| - i, 0
  {
    ghost var r1 := st.rows;
    done', cur' := done, cur;
    PoisedIn(sc, cut, at, st.enums, cur);
    hr := ProcessEnum(st, sc, cut, fn, i + 1, at + [cur]);
    PoisedAgain(sc, at, st.enums, cur);
    if hr == Ok {
      Move(st, sc, cut, i, stride, at, cur);
      TurnsNext(sc, cut, at, cur, n, all, done, end);
      done' := done + Below(sc, cut, at + [cur]);
      cur' := Step(StepsAt(sc, cut, at), cur, stride);
    } else {
      TurnsStop(sc, cut, at, cur, n, all, done, end, hr, r0, r1, st.rows);
      PoisedStands(sc, at, st.enums, cur);
    }
  }

  /** The calls go round and round over one pass. */
  ghost predicate Cycles(rows: seq<Row>, pass: seq<Row>)
    requires 0 < |pass|
  {
    forall j: nat :: j < |rows| ==> rows[j] == pass[Mod(j, |pass|)]
  }

  lemma CyclesOn(rows: seq<Row>, pass: seq<Row>, m: nat)
    requires 0 < |pass| && Cycles(rows, pass) && Mod(|rows|, |pass|) == 0 && m <= |pass|
    ensures Cycles(rows + pass[..m], pass) && (m == |pass| ==> Mod(|rows + pass[..m]|, |pass|) == 0)
  {
    var more := rows + pass[..m];
    forall j: nat | j < |more| ensures more[j] == pass[Mod(j, |pass|)] {
      if j < |rows| {
        assert more[j] == rows[j];
      } else {
        ModPart(|rows|, j - |rows|, |pass|);
      }
    }
    ModWhole(|rows|, |pass|);
  }

  lemma RanCycles(hr: Hr, r0: seq<Row>, r1: seq<Row>, pass: seq<Row>)
    requires 0 < |pass| && Cycles(r0, pass) && Mod(|r0|, |pass|) == 0 && Ran(hr, r0, r1, pass) == true
    ensures Cycles(r1, pass) && (hr == Ok ==> Mod(|r1|, |pass|) == 0)
  {
    if hr == Ok {
      assert pass[..|pass|] == pass;
      CyclesOn(r0, pass, |pass|);
    } else {
      var m :| 0 < m <= |pass| && r1 == r0 + pass[..m];
      CyclesOn(r0, pass, m);
    }
  }

  /**
   HwLayoutProcess: ends, with at most maxProc processes (0 for no limit); a success means
   minProc of them, or maxProc, or that the callback asked to end.
   */
  method Process(sc: Scene, ghost cut: Cut, minProc: nat, maxProc: nat, fn: (nat, nat, nat) -> Answer) returns (ok: bool, st: State)
    requires SceneOk(sc, cut) == true && Keeps(fn) == true
    ensures fresh(st) && (maxProc != 0 ==> st.procCount <= maxProc)
    ensures ok ==> minProc <= st.procCount || (maxProc != 0 && st.procCount == maxProc) || st.refused
    ensures LayoutOk(sc.layout) && InScope(sc, []) && st.rows != [] && Cycles(st.rows, Below(sc, cut, []))
  {
    assert LayoutOk(sc.layout) == true && InScope(sc, []) == true;
    LayoutGiven(sc);
    st := new State(minProc, maxProc, |sc.layout.enums|);
    ghost var pass := Below(sc, cut, []);
    var going := true;
    while going
      invariant fresh(st) && st.maxProc == maxProc && !st.refused && st.Open()
      invariant Stands(sc, st.enums, []) == true && Cycles(st.rows, pass) && Mod(|st.rows|, |pass|) == 0
      invariant going || (minProc <= st.procCount && st.rows != [])
      decreases going, minProc - st.procCount
    {
      ghost var r0 := st.rows;
      var hr := ProcessEnum(st, sc, cut, fn, 0, []);
      RanCycles(hr, r0, st.rows, pass);
      if hr == Failed {
        return false, st;
      }
      if hr == False {
        return true, st;
      }
      going := st.procCount < minProc;
    }
    ok := true;
  }
}
