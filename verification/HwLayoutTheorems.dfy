/**
 The steps of an enumerator around its window: with a stride that has no factor in common
 with the size of the window, and as many steps as the window has nodes, every node is
 visited exactly once.
 */
module HwLayoutTheorems {
  import opened HwLayout
  import opened HwTree
  import opened HwView
  import opened Modular
  import opened PackedTree
  import opened TreeSpans

  // ---- divisibility ------------------------------------------------------------------

  ghost predicate Factor(d: int, n: int) {
    exists q: int :: d * q == n
  }

  /** No common divisor but one. */
  ghost predicate Coprime(a: nat, b: nat) {
    forall d: nat :: Factor(d, a) && Factor(d, b) ==> d == 1
  }

  lemma DividesSum(d: int, a: int, b: int)
    requires Factor(d, a) && Factor(d, b)
    ensures Factor(d, a + b)
  {
    var p: int :| d * p == a;
    var q: int :| d * q == b;
    Distribute(d, p, q);
    assert d * (p + q) == a + b;
  }

  lemma Distribute(d: int, p: int, q: int)
    ensures d * (p + q) == d * p + d * q
  {
  }

  lemma {:induction false} Bezout(a: nat, b: nat) returns (u: int, v: int)
    requires 0 < a && 0 < b && Coprime(a, b)
    ensures u * a + v * b == 1
    decreases a + b
  {
    if a == b {
      assert a * 1 == a;
      assert Factor(a, a) && Factor(a, b);
      u, v := 1, 0;
    } else if a < b {
      CoprimeLess(a, b);
      u, v := Bezout(a, b - a);
      Regroup(u, v, a, b);
      u := u - v;
    } else {
      CoprimeSwap(a, b);
      CoprimeLess(b, a);
      v, u := Bezout(b, a - b);
      Regroup(v, u, b, a);
      v := v - u;
    }
  }

  lemma CoprimeSwap(a: nat, b: nat)
    requires Coprime(a, b)
    ensures Coprime(b, a)
  {
  }

  lemma CoprimeLess(a: nat, b: nat)
    requires a < b && Coprime(a, b)
    ensures Coprime(a, b - a)
  {
    forall d: nat | Factor(d, a) && Factor(d, b - a) ensures d == 1 {
      DividesSum(d, a, b - a);
    }
  }

  lemma Regroup(u: int, v: int, a: int, b: int)
    ensures u * a + v * (b - a) == (u - v) * a + v * b
  {
  }

  // ---- residues ----------------------------------------------------------------------

  /** x and y are the same place of a window of n nodes. */
  ghost predicate Same(x: int, y: int, n: nat) {
    exists q: int :: x - y == q * n
  }

  lemma SameSum(x: int, y: int, z: int, n: nat)
    requires Same(x, y, n) && Same(y, z, n)
    ensures Same(x, z, n)
  {
    var p: int :| x - y == p * n;
    var q: int :| y - z == q * n;
    Distribute(n, p, q);
    assert x - z == (p + q) * n;
  }

  lemma SameBack(x: int, y: int, n: nat)
    requires Same(x, y, n)
    ensures Same(y, x, n)
  {
    var q: int :| x - y == q * n;
    assert y - x == (-q) * n;
  }

  lemma SameShift(x: int, y: int, k: int, n: nat)
    requires Same(x, y, n)
    ensures Same(x + k, y + k, n)
  {
    var q: int :| x - y == q * n;
    assert (x + k) - (y + k) == q * n;
  }

  lemma SameTimes(x: int, y: int, k: int, n: nat)
    requires Same(x, y, n)
    ensures Same(x * k, y * k, n)
  {
    var q: int :| x - y == q * n;
    Product(x, y, k, q, n);
    assert x * k - y * k == (q * k) * n;
  }

  lemma Product(x: int, y: int, k: int, q: int, n: int)
    requires x - y == q * n
    ensures x * k - y * k == (q * k) * n
  {
    assert x * k - y * k == (x - y) * k;
    assert (q * n) * k == (q * k) * n;
  }

  lemma {:induction false} SameMod(x: nat, n: nat)
    requires 0 < n
    ensures Same(x, Mod(x, n), n)
  {
    if x < n {
      assert x - Mod(x, n) == 0 * n;
    } else {
      SameMod(x - n, n);
      assert x - (x - n) == 1 * n;
      SameSum(x, x - n, Mod(x, n), n);
    }
  }

  lemma SameEqual(x: nat, y: nat, n: nat)
    requires Same(x, y, n) && x < n && y < n
    ensures x == y
  {
    var q: int :| x - y == q * n;
    if q > 0 { Times(1, q, n); } else if q < 0 { Times(1, -q, n); Negate(q, n); }
  }

  lemma Negate(q: int, n: int)
    ensures (-q) * n == -(q * n)
  {
  }

  // ---- the walk ----------------------------------------------------------------------

  const UINT32_SPAN: nat := 0x1_0000_0000

  /** The sum in a step never leaves its 32 bits, or the window divides what is lost there. */
  ghost predicate StepsTrue(p: Steps) {
    p.size + p.stride <= UINT32_SPAN || Factor(p.size, UINT32_SPAN)
  }

  /** Then k steps lead k strides further around the window. */
  lemma {:induction false} StepsPlace(p: Steps, cur: nat, k: nat)
    requires 0 < p.size && p.start <= cur < p.start + p.size && StepsTrue(p)
    ensures Same(StepMany(p, cur, p.stride, k) - p.start, cur - p.start + k * p.stride, p.size)
    decreases k
  {
    var s, n, a := p.stride, p.size, cur - p.start;
    if k == 0 {
      assert a - (a + 0 * s) == 0 * n;
    } else {
      var next := Step(p, cur, s);
      StepsPlace(p, next, k - 1);
      OneStep(p, cur);
      SameFurther(StepMany(p, next, s, k - 1) - p.start, next - p.start, a + s, (k - 1) * s, n);
      Next(k, s);
    }
  }

  lemma OneStep(p: Steps, cur: nat)
    requires 0 < p.size && p.start <= cur < p.start + p.size && StepsTrue(p)
    ensures Same(Step(p, cur, p.stride) - p.start, cur - p.start + p.stride, p.size)
  {
    var x := cur - p.start + p.stride;
    SameMod(Wrap(x), p.size);
    SameBack(Wrap(x), Mod(Wrap(x), p.size), p.size);
    SameWrap(x, p);
    SameSum(Mod(Wrap(x), p.size), Wrap(x), x, p.size);
  }

  lemma SameWrap(x: nat, p: Steps)
    requires 0 < p.size && StepsTrue(p) && x < p.size + p.stride
    ensures Same(Wrap(x), x, p.size)
  {
    if p.size + p.stride <= UINT32_SPAN {
      assert Wrap(x) - x == 0 * p.size;
    } else {
      var q: int :| p.size * q == UINT32_SPAN;
      var t := x / UINT32_SPAN;
      assert Wrap(x) - x == -(t * UINT32_SPAN);
      assert t * UINT32_SPAN == (t * q) * p.size by { Thrice(t, p.size, q); }
      Negate(t * q, p.size);
    }
  }

  lemma Thrice(a: int, b: int, c: int)
    ensures a * (b * c) == (a * c) * b
  {
  }

  lemma SameFurther(x: int, y: int, z: int, t: int, n: nat)
    requires Same(x, y + t, n) && Same(y, z, n)
    ensures Same(x, z + t, n)
  {
    SameShift(y, z, t, n);
    SameSum(x, y + t, z + t, n);
  }

  /** With u strides of s making one node more, (u * d) % n steps make d nodes. */
  lemma InverseSteps(u: int, v: int, s: nat, n: nat, d: int) returns (k: nat)
    requires 0 < n && u * s + v * n == 1
    ensures k < n && Same(k * s, d, n)
  {
    k := (u * d) % n;
    var q := (u * d) / n;
    assert u * d - k == q * n by { assert u * d == n * q + k; Commute(n, q); }
    assert Same(u * d, k, n);
    SameBack(u * d, k, n);
    SameTimes(k, u * d, s, n);
    Unit(u, v, s, n, d);
    assert Same((u * d) * s, d, n);
    SameSum(k * s, (u * d) * s, d, n);
  }

  lemma Commute(a: int, b: int)
    ensures a * b == b * a
  {
  }

  lemma Unit(u: int, v: int, s: int, n: int, d: int)
    requires u * s + v * n == 1
    ensures (u * d) * s - d == (-(v * d)) * n
  {
    assert (u * d) * s == (u * s) * d;
    assert (v * d) * n == (v * n) * d;
    assert (u * s) * d + (v * n) * d == 1 * d by { Distribute(d, u * s, v * n); }
    Negate(v * d, n);
  }

  /**
   With steps that are true, a stride coprime to the size of the window visits every node of it
   exactly once in as many steps as it has nodes, wherever it begins.
   */
  lemma VisitsEachOnce(p: Steps, cur: nat, c: nat) returns (k: nat)
    requires 0 < p.stride && 0 < p.size && StepsTrue(p) && Coprime(p.stride, p.size)
    requires p.start <= cur < p.start + p.size && p.start <= c < p.start + p.size
    ensures k < p.size && StepMany(p, cur, p.stride, k) == c
    ensures forall j: nat :: j < p.size && StepMany(p, cur, p.stride, j) == c ==> j == k
  {
    var s, n, a, x := p.stride, p.size, cur - p.start, c - p.start;
    var u, v := Bezout(s, n);
    k := InverseSteps(u, v, s, n, x - a);
    StepsPlace(p, cur, k);
    SameShift(k * s, x - a, a, n);
    SameSum(StepMany(p, cur, s, k) - p.start, a + k * s, x, n);
    SameEqual(StepMany(p, cur, s, k) - p.start, x, n);
    forall j: nat | j < n && StepMany(p, cur, s, j) == c ensures j == k {
      StepsPlace(p, cur, j);
      OnlyOnce(a, u, v, s, n, x, j, k);
    }
  }

  lemma OnlyOnce(a: int, u: int, v: int, s: nat, n: nat, x: int, j: nat, k: nat)
    requires 0 < n && u * s + v * n == 1 && j < n && k < n
    requires Same(x, a + j * s, n) && Same(k * s, x - a, n)
    ensures j == k
  {
    SameShift(x, a + j * s, -a, n);
    SameSum(k * s, x - a, j * s, n);
    SameTimes(k * s, j * s, u, n);
    Undo(u, v, s, n, k);
    Undo(u, v, s, n, j);
    assert Same(k * s * u, k, n) && Same(j * s * u, j, n);
    SameBack(k * s * u, k, n);
    SameSum(k, k * s * u, j * s * u, n);
    SameSum(k, j * s * u, j, n);
    SameEqual(k, j, n);
  }

  lemma Undo(u: int, v: int, s: int, n: int, k: int)
    requires u * s + v * n == 1
    ensures k * s * u - k == (-(v * k)) * n
  {
    Unit(u, v, s, n, k);
    assert k * s * u == (u * k) * s;
  }

  // ---- and only then -----------------------------------------------------------------

  /** From `cur` on, some step reaches c. */
  ghost predicate Reaches(p: Steps, cur: nat, c: nat)
    requires 0 < p.size && p.start <= cur < p.start + p.size
  {
    exists k: nat :: k < p.size && StepMany(p, cur, p.stride, k) == c
  }

  /** From every node of the window every node of it is reached. */
  ghost predicate VisitsAll(p: Steps)
    requires 0 < p.size
  {
    forall cur: nat, c: nat :: p.start <= cur < p.start + p.size && p.start <= c < p.start + p.size ==> Reaches(p, cur, c)
  }

  /** Where two steps differ by a factor of both stride and window, they never meet. */
  lemma CommonFactorMisses(p: Steps, d: nat)
    requires 0 < p.stride && 0 < p.size && StepsTrue(p)
    requires Factor(d, p.stride) && Factor(d, p.size) && d != 1
    ensures 1 < p.size && !Reaches(p, p.start, p.start + 1)
  {
    var s, n := p.stride, p.size;
    var q: int :| d * q == n;
    var t: int :| d * t == s;
    assert 2 <= d && 1 <= q && n >= 2 by { FactorBound(d, q, n); }
    forall k: nat | k < n ensures StepMany(p, p.start, s, k) != p.start + 1 {
      StepsPlace(p, p.start, k);
      if StepMany(p, p.start, s, k) == p.start + 1 {
        var z: int :| 1 - k * s == z * n;
        NoUnit(d, k, t, z, q);
      }
    }
  }

  lemma FactorBound(d: nat, q: int, n: nat)
    requires d * q == n && 0 < n && d != 1
    ensures 2 <= d && 1 <= q && n >= 2
  {
    Sign(d, q);
    if 1 <= q {
      Times(1, q, d);
    }
  }

  lemma Sign(d: nat, q: int)
    ensures q <= 0 ==> d * q <= 0
    ensures d == 0 ==> d * q == 0
  {
    if q < 0 {
      Times(0, -q, d);
    }
  }

  lemma NoUnit(d: int, k: int, t: int, z: int, q: int)
    requires 2 <= d
    ensures 1 - k * (d * t) != z * (d * q)
  {
    assert k * (d * t) == d * (k * t) && z * (d * q) == d * (z * q);
    assert d * (k * t) + d * (z * q) == d * (k * t + z * q);
    var m := k * t + z * q;
    if m <= 0 {
      assert d * m <= 0 by { assert d * (-m) >= 0; assert d * (-m) == -(d * m); }
    } else {
      Times(2, d, m);
    }
  }

  /** Where a step leads from offset x, as an offset. */
  ghost function Hop(x: nat, s: nat, n: nat): nat
    requires 0 < n
  {
    Mod(Wrap(x + s), n)
  }

  lemma WrapOver(y: nat)
    requires y < 2 * UINT32_SPAN
    ensures Wrap(y) == if y < UINT32_SPAN then y else y - UINT32_SPAN
  {
  }

  /** An offset that no step leads to, when steps lose a rest of the window on the way. */
  lemma LostOffset(s: nat, n: nat) returns (m: nat)
    requires 0 < s < UINT32_SPAN && 0 < n < UINT32_SPAN && UINT32_SPAN < n + s && !Factor(n, UINT32_SPAN)
    ensures m < n && forall x: nat :: x < n ==> Hop(x, s, n) != m
  {
    var t, e := UINT32_SPAN - s, Mod(UINT32_SPAN - 1, n);
    NotAtEnd(n, e);
    m := if t <= e + 1 then n - 1 else if e + 1 < n - t then n - t else e + 1;
    forall x: nat | x < n ensures Hop(x, s, n) != m {
      WrapOver(x + s);
      if x < t {
        BackFromEnd(n, e, t - 1 - x);
      }
    }
  }

  lemma NotAtEnd(n: nat, e: nat)
    requires 0 < n && e == Mod(UINT32_SPAN - 1, n) && !Factor(n, UINT32_SPAN)
    ensures e < n - 1
  {
    SameMod(UINT32_SPAN - 1, n);
    var q: int :| UINT32_SPAN - 1 - e == q * n;
    Distribute(n, q, 1);
    Commute(n, q);
  }

  /** j before the last 32-bit number. */
  lemma BackFromEnd(n: nat, e: nat, j: nat)
    requires 0 < n < UINT32_SPAN && j < n && e == Mod(UINT32_SPAN - 1, n)
    ensures Mod(UINT32_SPAN - 1 - j, n) == if j <= e then e - j else e - j + n
  {
    var top: int := UINT32_SPAN - 1;
    var back: int := 0 - j;
    SameMod(top, n);
    SameMod(top - j, n);
    SameBack(top - j, Mod(top - j, n), n);
    SameShift(top, e, back, n);
    SameSum(Mod(top - j, n), top - j, e - j, n);
    InWindow(Mod(top - j, n), e - j, n);
  }

  lemma InWindow(v: nat, x: int, n: nat)
    requires v < n && 0 < x + n && x < n && Same(v, x, n)
    ensures v == if x < 0 then x + n else x
  {
    if x < 0 {
      assert x - (x + n) == (-1) * n;
      SameSum(v, x, x + n, n);
      SameEqual(v, x + n, n);
    } else {
      SameEqual(v, x, n);
    }
  }

  /** A node no step leads to is reached from itself alone. */
  lemma {:induction false} NeverReached(p: Steps, cur: nat, m: nat, k: nat)
    requires 0 < p.size && p.start <= cur < p.start + p.size && cur != p.start + m
    requires forall x: nat :: x < p.size ==> Hop(x, p.stride, p.size) != m
    ensures StepMany(p, cur, p.stride, k) != p.start + m
    decreases k
  {
    if k > 0 {
      var x: nat := cur - p.start;
      assert Hop(x, p.stride, p.size) != m;
      NeverReached(p, Step(p, cur, p.stride), m, k - 1);
    }
  }

  lemma LossMisses(p: Steps)
    requires 0 < p.stride < UINT32_SPAN && 0 < p.size < UINT32_SPAN && !StepsTrue(p)
    ensures !VisitsAll(p)
  {
    var m := LostOffset(p.stride, p.size);
    var cur := if m == 0 then p.start + 1 else p.start;
    forall k: nat | k < p.size ensures StepMany(p, cur, p.stride, k) != p.start + m {
      NeverReached(p, cur, m, k);
    }
    assert !Reaches(p, cur, p.start + m);
  }

  /**
   An enumerator reaches every node of its window from every node of it exactly when its stride
   has no factor in common with the size, and the 32-bit sums in its steps lose nothing: they
   do not wrap, or the size divides 2^32.
   */
  lemma VisitsAllIff(p: Steps)
    requires 0 < p.stride < UINT32_SPAN && 0 < p.size < UINT32_SPAN
    ensures VisitsAll(p) <==> Coprime(p.stride, p.size) && StepsTrue(p)
  {
    if !StepsTrue(p) {
      LossMisses(p);
    } else if !Coprime(p.stride, p.size) {
      var d: nat :| Factor(d, p.stride) && Factor(d, p.size) && d != 1;
      CommonFactorMisses(p, d);
    } else {
      forall cur: nat, c: nat | p.start <= cur < p.start + p.size && p.start <= c < p.start + p.size
        ensures Reaches(p, cur, c)
      {
        var k := VisitsEachOnce(p, cur, c);
      }
    }
  }

  /** A window of 7 and a stride of 2^32 - 1: coprime, and offset 0 leads only to 3, 2, 1 and back. */
  lemma SevenMissed(p: Steps)
    requires p.start == 0 && p.size == 7 && p.stride == UINT32_SPAN - 1
    ensures Step(p, 0, p.stride) == 3 && Step(p, 3, p.stride) == 2 && Step(p, 2, p.stride) == 1 && Step(p, 1, p.stride) == 0
    ensures !Reaches(p, 0, 6)
  {
    Divides(UINT32_SPAN - 1, 7);
    forall x: nat | x < 7 ensures Hop(x, p.stride, 7) == if x == 0 then 3 else x - 1 {
      WrapOver(x + p.stride);
    }
    assert forall x: nat :: x < 7 ==> Step(p, x, p.stride) == Hop(x, p.stride, 7);
    forall k: nat | k < 7 ensures StepMany(p, 0, p.stride, k) != 6 {
      NeverReached(p, 0, 6, k);
    }
  }

  // ---- the rows of a pass ------------------------------------------------------------

  /** The nodes an enumerator stands on in n turns. */
  ghost function Order(p: Steps, cur: nat, n: nat): (order: seq<nat>)
    requires 0 < p.size && p.start <= cur < p.start + p.size
    ensures |order| == n
    ensures forall k :: 0 <= k < n ==> p.start <= order[k] < p.start + p.size
    decreases n
  {
    if n == 0 then [] else [cur] + Order(p, Step(p, cur, p.stride), n - 1)
  }

  lemma {:induction false} OrderIs(p: Steps, cur: nat, n: nat, k: nat)
    requires 0 < p.size && p.start <= cur < p.start + p.size && k < n
    ensures Order(p, cur, n)[k] == StepMany(p, cur, p.stride, k)
    decreases n
  {
    if k > 0 {
      OrderIs(p, Step(p, cur, p.stride), n - 1, k - 1);
    }
  }

  /** All the rows below these nodes, in this order. */
  ghost function RowsAt(sc: Scene, cut: Cut, at: seq<nat>, order: seq<nat>): seq<Row>
    requires Ready(sc, cut, at) == true
    requires forall k :: 0 <= k < |order| ==> FirstIn(sc, at) <= order[k] <= LastIn(sc, at)
  {
    if order == [] then []
    else
      ScopeGrows(sc, cut, at, order[0]);
      Below(sc, cut, at + [order[0]]) + RowsAt(sc, cut, at, order[1..])
  }

  lemma {:induction false} TurnsAre(sc: Scene, cut: Cut, at: seq<nat>, p: Steps, cur: nat, n: nat)
    requires Ready(sc, cut, at) == true && FirstIn(sc, at) <= cur <= LastIn(sc, at) && p == StepsAt(sc, cut, at)
    ensures Turns(sc, cut, at, cur, n) == RowsAt(sc, cut, at, Order(p, cur, n))
    decreases n
  {
    if n > 0 {
      var next := Step(p, cur, p.stride);
      assert Order(p, cur, n)[1..] == Order(p, next, n - 1);
      TurnsAre(sc, cut, at, p, next, n - 1);
    }
  }

  /** The n turns of a pass are its first k, and n - k from where these lead. */
  lemma TurnsSplit(sc: Scene, cut: Cut, at: seq<nat>, p: Steps, cur: nat, k: nat, n: nat)
    requires Ready(sc, cut, at) == true && FirstIn(sc, at) <= cur <= LastIn(sc, at) && k <= n && p == StepsAt(sc, cut, at)
    ensures Turns(sc, cut, at, cur, n)
            == Turns(sc, cut, at, cur, k) + Turns(sc, cut, at, StepMany(p, cur, p.stride, k), n - k)
  {
    var next := StepMany(p, cur, p.stride, k);
    TurnsAre(sc, cut, at, p, cur, n);
    TurnsAre(sc, cut, at, p, cur, k);
    TurnsAre(sc, cut, at, p, next, n - k);
    OrderSplit(p, cur, k, n);
    RowsSplit(sc, cut, at, Order(p, cur, k), Order(p, next, n - k));
  }

  lemma {:induction false} OrderSplit(p: Steps, cur: nat, k: nat, n: nat)
    requires 0 < p.size && p.start <= cur < p.start + p.size && k <= n
    ensures Order(p, cur, n) == Order(p, cur, k) + Order(p, StepMany(p, cur, p.stride, k), n - k)
    decreases k
  {
    if k > 0 {
      OrderSplit(p, Step(p, cur, p.stride), k - 1, n - 1);
    }
  }

  lemma {:induction false} RowsSplit(sc: Scene, cut: Cut, at: seq<nat>, a: seq<nat>, b: seq<nat>)
    requires Ready(sc, cut, at) == true
    requires forall k :: 0 <= k < |a| ==> FirstIn(sc, at) <= a[k] <= LastIn(sc, at)
    requires forall k :: 0 <= k < |b| ==> FirstIn(sc, at) <= b[k] <= LastIn(sc, at)
    ensures RowsAt(sc, cut, at, a + b) == RowsAt(sc, cut, at, a) + RowsAt(sc, cut, at, b)
  {
    if a == [] {
      assert a + b == b;
    } else {
      assert (a + b)[1..] == a[1..] + b;
      RowsSplit(sc, cut, at, a[1..], b);
      ScopeGrows(sc, cut, at, a[0]);
      Regroup3(Below(sc, cut, at + [a[0]]), RowsAt(sc, cut, at, a[1..]), RowsAt(sc, cut, at, b));
    }
  }

  /**
   A pass of as many turns as its window has nodes goes below every one of them exactly once,
   in the order of its steps, when the stride is coprime to the size and the steps are true.
   */
  lemma PassVisitsEachOnce(sc: Scene, cut: Cut, at: seq<nat>, p: Steps, cur: nat) returns (order: seq<nat>)
    requires Ready(sc, cut, at) == true && p == StepsAt(sc, cut, at) && FirstIn(sc, at) <= cur <= LastIn(sc, at)
    requires Coprime(p.stride, p.size) && StepsTrue(p)
    ensures |order| == p.size
    ensures forall k :: 0 <= k < |order| ==> FirstIn(sc, at) <= order[k] <= LastIn(sc, at)
    ensures Turns(sc, cut, at, cur, p.size) == RowsAt(sc, cut, at, order)
    ensures forall c: nat :: FirstIn(sc, at) <= c <= LastIn(sc, at) ==> c in order
    ensures forall i, k :: 0 <= i < k < |order| ==> order[i] != order[k]
  {
    order := Order(p, cur, p.size);
    TurnsAre(sc, cut, at, p, cur, p.size);
    OrderIsWhole(p, cur);
  }

  lemma OrderIsWhole(p: Steps, cur: nat)
    requires 0 < p.stride && 0 < p.size && StepsTrue(p) && Coprime(p.stride, p.size) && p.start <= cur < p.start + p.size
    ensures forall c: nat :: p.start <= c < p.start + p.size ==> c in Order(p, cur, p.size)
    ensures forall i, k :: 0 <= i < k < p.size ==> Order(p, cur, p.size)[i] != Order(p, cur, p.size)[k]
  {
    var order := Order(p, cur, p.size);
    forall c: nat | p.start <= c < p.start + p.size ensures c in order {
      var k := VisitsEachOnce(p, cur, c);
      OrderIs(p, cur, p.size, k);
    }
    forall i, k | 0 <= i < k < p.size ensures order[i] != order[k] {
      OrderIs(p, cur, p.size, i);
      OrderIs(p, cur, p.size, k);
      var j := VisitsEachOnce(p, cur, order[k]);
    }
  }

  // ---- well-known sizes --------------------------------------------------------------

  /** Below where the deepest enumerator above the level stands. */
  ghost predicate BelowDeepest(sc: Scene, at: seq<nat>, level: nat, c: nat)
    requires LayoutOk(sc.layout) == true && |at| < |sc.layout.enums| && level <= LCORE
  {
    var p := Above(sc, |at|, level);
    p < |at| ==> Ancestor(sc.view, c, level, LevelOf(sc, p)) == at[p]
  }

  /** The nodes of a level in scope. */
  ghost function NodesInScope(sc: Scene, at: seq<nat>, level: nat): set<nat>
    requires LayoutOk(sc.layout) == true && |at| < |sc.layout.enums| && level <= LCORE
  {
    set c: nat | c < Ends(sc)[level] && sc.strides[level] <= c && BelowDeepest(sc, at, level, c)
  }

  /** A well-known size is the number of the view's nodes of its level in scope. */
  lemma KnownCounts(sc: Scene, cut: Cut, at: seq<nat>, level: nat)
    requires Ready(sc, cut, at) == true && level <= LevelOf(sc, |at|)
    ensures Known(sc, at, level) == |NodesInScope(sc, at, level)|
  {
    TiledMachine(sc.view, cut, sc.strides, Ends(sc));
    LayoutGiven(sc);
    var p := Above(sc, |at|, level);
    if p == |at| {
      OnlyMachine(sc, at, level);
      IntervalSize(sc.strides[MACHINE], Ends(sc)[MACHINE], NodesInScope(sc, at, level));
    } else {
      PrefixInScope(sc, at, p + 1);
      ScopeIsAt(sc, cut, at[..p + 1]);
      var l := LevelOf(sc, p);
      var lo, hi := FirstAt(sc.view, at[p], l, level), LastAt(sc.view, at[p], l, level) + 1;
      SpanIn(sc.view, cut, sc.strides, Ends(sc), at[p], l, level);
      forall c: nat | At(sc.strides, Ends(sc), level, c)
        ensures lo <= c < hi <==> BelowDeepest(sc, at, level, c)
      {
        SpanIsDescendants(sc.view, cut, sc.strides, Ends(sc), at[p], l, level, c);
      }
      assert forall c: nat :: lo <= c < hi ==> At(sc.strides, Ends(sc), level, c);
      assert forall c: nat :: At(sc.strides, Ends(sc), level, c) == (sc.strides[level] <= c < Ends(sc)[level]);
      IntervalSize(lo, hi, NodesInScope(sc, at, level));
    }
  }

  /** Only the machine's own level has no enumerator above it. */
  lemma OnlyMachine(sc: Scene, at: seq<nat>, level: nat)
    requires LayoutOk(sc.layout) == true && |at| < |sc.layout.enums| && level <= LevelOf(sc, |at|)
    requires Above(sc, |at|, level) == |at|
    ensures level == MACHINE
  {
    LayoutGiven(sc);
    if at != [] {
      assert level <= LevelOf(sc, 0);
    }
  }

  lemma {:induction false} IntervalSize(lo: nat, hi: nat, s: set<nat>)
    requires lo <= hi && forall c: nat :: c in s <==> lo <= c < hi
    ensures |s| == hi - lo
    decreases hi - lo
  {
    if lo < hi {
      IntervalSize(lo, hi - 1, s - {hi - 1});
    } else {
      assert s == {};
    }
  }

  lemma Regroup3<T>(a: seq<T>, b: seq<T>, c: seq<T>)
    ensures a + (b + c) == a + b + c
  {
  }

  /** A finished view, with the counts its initializer leaves, is what a layout needs. */
  lemma ViewIsScene(layout: Layout, view: seq<Node>, tree: seq<Node>, infos: seq<Info>, vs: Levels, ve: Levels, counts: Levels)
    requires LayoutOk(layout) && ViewOk(view, tree, infos, vs, ve)
    requires forall d :: 0 <= d < 5 ==> ve[d] == vs[d] + counts[d]
    ensures SceneOk(Scene(layout, view, vs, counts), ViewCut(tree, infos))
  {
    assert Ends(Scene(layout, view, vs, counts)) == ve;
  }
}
