/**
 Binomial-tree arithmetic of the collectives (util.h): the ranks below a rank are one
 interval, and its children cut that interval into theirs.
 */
module Binomial {

  function Pow2(k: nat): (p: nat)
    ensures 0 < p
  {
    if k == 0 then 1 else 2 * Pow2(k - 1)
  }

  function Min(a: nat, b: nat): nat { if a < b then a else b }

  /** The bitwise and of two words. */
  function And(a: nat, b: nat): nat {
    if a == 0 || b == 0 then 0
    else 2 * And(a / 2, b / 2) + (if a % 2 == 1 && b % 2 == 1 then 1 else 0)
  }

  /** _BitScanForward: the position of the lowest bit that is set. */
  function ScanForward(v: nat): nat
    requires 0 < v
  {
    if v % 2 == 1 then 0 else 1 + ScanForward(v / 2)
  }

  /** _BitScanReverse: the position of the highest bit that is set. */
  function ScanReverse(v: nat): nat
    requires 0 < v
  {
    if v == 1 then 0 else 1 + ScanReverse(v / 2)
  }

  lemma {:induction false} Highest(v: nat)
    requires 0 < v
    ensures Pow2(ScanReverse(v)) <= v < 2 * Pow2(ScanReverse(v))
  {
    if v != 1 {
      Highest(v / 2);
    }
  }

  lemma {:induction false} Pow2Mono(j: nat, k: nat)
    ensures j < k <==> Pow2(j) < Pow2(k)
  {
    if j != 0 && k != 0 {
      Pow2Mono(j - 1, k - 1);
    } else if k != 0 {
      assert Pow2(k) == 2 * Pow2(k - 1);
    }
  }

  // ------------------------------------------------------------ powers of two

  function IsPowerOf2(value: nat): bool
    requires 0 < value
  {
    And(value, value - 1) == 0
  }

  lemma {:induction false} AndSelf(v: nat)
    ensures And(v, v) == v
  {
    if v != 0 {
      AndSelf(v / 2);
    }
  }

  /** value & (value - 1) clears the lowest bit: nothing is left of powers of two alone. */
  lemma {:induction false} ExactlyThePowers(value: nat)
    requires 0 < value
    ensures IsPowerOf2(value) <==> value == Pow2(ScanReverse(value))
    ensures IsPowerOf2(value) <==> exists k :: value == Pow2(k)
  {
    if value % 2 == 0 {
      ExactlyThePowers(value / 2);
      assert value / 2 - 1 == (value - 1) / 2;
    } else if value != 1 {
      AndSelf(value / 2);
      assert (value - 1) / 2 == value / 2;
    }
    if k :| value == Pow2(k) {
      ScanPow2(k);
    }
  }

  lemma {:induction false} ScanPow2(k: nat)
    ensures ScanReverse(Pow2(k)) == k && ScanForward(Pow2(k)) == k
  {
    if k != 0 {
      ScanPow2(k - 1);
    }
  }

  lemma LimitIsPower()
    ensures Pow2(31) == 0x8000_0000
  {
    assert Pow2(8) == 0x100;
    assert Pow2(16) == 0x1_0000;
    assert Pow2(24) == 0x100_0000;
  }

  /** The largest power of two that is no larger. */
  function PowerOf2Floor(value: nat): (r: nat)
    requires 0 < value
    ensures 0 < r <= value < 2 * r && IsPowerOf2(r)
  {
    Highest(value);
    var msb := ScanReverse(value);
    ExactlyThePowers(Pow2(msb));
    Pow2(msb)
  }

  /** The smallest power of two that is no smaller; within the limit it fits its 32 bits. */
  function PowerOf2Ceiling(value: nat): (r: nat)
    requires 0 < value <= 0x8000_0000
    ensures 0 < r && IsPowerOf2(r) && r < 2 * value && value <= r <= 0x8000_0000
  {
    Highest(value);
    ExactlyThePowers(value);
    ExactlyThePowers(2 * Pow2(ScanReverse(value)));
    assert Pow2(ScanReverse(value) + 1) == 2 * Pow2(ScanReverse(value));
    LimitIsPower();
    Pow2Mono(ScanReverse(value), 31);
    Pow2Mono(31, ScanReverse(value) + 1);
    if IsPowerOf2(value) then value else 2 * Pow2(ScanReverse(value))
  }

  // ------------------------------------------------------------ the tree

  /** How many ranks hang off `rank`, itself included. */
  function TreeSize(rank: nat, size: nat): (r: nat)
    requires rank < size
    ensures 0 < r <= size - rank
  {
    if rank == 0 then size
    else
      var k := Pow2(ScanForward(rank));
      if k < size - rank then k else size - rank
  }

  function ChildCount(rank: nat, size: nat): nat
    requires rank < size
  {
    var treeSize := TreeSize(rank, size);
    var msb := ScanReverse(treeSize);
    if IsPowerOf2(treeSize) then msb else msb + 1
  }

  /** rank + 2^j is a child. */
  predicate HasChild(rank: nat, size: nat, j: nat)
    requires rank < size
  {
    Pow2(j) < TreeSize(rank, size)
  }

  /** x is among the ranks of the child rank + 2^j. */
  predicate InChild(rank: nat, size: nat, j: nat, x: nat)
    requires rank < size
  {
    HasChild(rank, size, j)
    && rank + Pow2(j) <= x < rank + Pow2(j) + TreeSize(rank + Pow2(j), size)
  }

  /** Exactly the first ChildCount powers of two lead to children. */
  lemma CountsTheChildren(rank: nat, size: nat, j: nat)
    requires rank < size
    ensures j < ChildCount(rank, size) <==> HasChild(rank, size, j)
  {
    var t := TreeSize(rank, size);
    var msb := ScanReverse(t);
    Highest(t);
    ExactlyThePowers(t);
    Pow2Mono(j, msb);
    Pow2Mono(msb, j);
    Pow2Mono(j, msb + 1);
  }

  /** Adding a power below the lowest bit makes it the lowest bit. */
  lemma {:induction false} LowestOfSum(v: nat, j: nat)
    requires v == 0 || j < ScanForward(v)
    ensures ScanForward(v + Pow2(j)) == j
  {
    if v == 0 {
      ScanPow2(j);
    } else if j != 0 {
      LowestOfSum(v / 2, j - 1);
      assert (v + Pow2(j)) / 2 == v / 2 + Pow2(j - 1);
    }
  }

  /** A child's ranks run up to the next child's, or to the end of the parent's. */
  lemma ChildInterval(rank: nat, size: nat, j: nat)
    requires rank < size && HasChild(rank, size, j)
    ensures rank + Pow2(j) < size
    ensures rank + Pow2(j) + TreeSize(rank + Pow2(j), size)
         == Min(rank + Pow2(j + 1), rank + TreeSize(rank, size))
  {
    if rank != 0 {
      var k := ScanForward(rank);
      Pow2Mono(j, k);
      Pow2Mono(k, j + 1);
    }
    LowestOfSum(rank, j);
    assert Pow2(j + 1) == 2 * Pow2(j);
  }

  /** The ranks below a rank are the disjoint union of its children's: every one is below a child … */
  lemma Covered(rank: nat, size: nat, x: nat)
    requires rank < size
    ensures rank < x < rank + TreeSize(rank, size) <==> exists j :: InChild(rank, size, j, x)
  {
    if rank < x < rank + TreeSize(rank, size) {
      var j := ScanReverse(x - rank);
      Highest(x - rank);
      ChildInterval(rank, size, j);
      assert InChild(rank, size, j, x);
    }
    if j :| InChild(rank, size, j, x) {
      ChildInterval(rank, size, j);
    }
  }

  /** … and below one only. */
  lemma Disjoint(rank: nat, size: nat, i: nat, j: nat, x: nat)
    requires rank < size
    requires InChild(rank, size, i, x) && InChild(rank, size, j, x)
    ensures i == j
  {
    ChildInterval(rank, size, i);
    ChildInterval(rank, size, j);
    Pow2Mono(i, j + 1);
    Pow2Mono(j, i + 1);
    Pow2Mono(i + 1, j);
    Pow2Mono(j + 1, i);
  }

  // ------------------------------------------------------------ from the children's side

  /** The rank with its lowest bit cleared. */
  function Parent(x: nat): (p: nat)
    requires 0 < x
    ensures p < x
  {
    LowestBelow(x);
    x - Pow2(ScanForward(x))
  }

  lemma {:induction false} LowestBelow(x: nat)
    requires 0 < x
    ensures Pow2(ScanForward(x)) <= x
    ensures x == Pow2(ScanForward(x)) || ScanForward(x) < ScanForward(x - Pow2(ScanForward(x)))
  {
    if x % 2 == 0 {
      LowestBelow(x / 2);
      var y := x / 2 - Pow2(ScanForward(x / 2));
      assert x - Pow2(ScanForward(x)) == 2 * y;
    }
  }

  /** Every rank but the root is a child of exactly one rank, over exactly one power. */
  lemma OneParent(rank: nat, size: nat, x: nat, j: nat)
    requires rank < size && 0 < x < size
    ensures HasChild(rank, size, j) && x == rank + Pow2(j)
       <==> rank == Parent(x) && j == ScanForward(x)
  {
    if HasChild(rank, size, j) && x == rank + Pow2(j) {
      if rank != 0 {
        Pow2Mono(j, ScanForward(rank));
      }
      LowestOfSum(rank, j);
    }
    if rank == Parent(x) && j == ScanForward(x) {
      LowestBelow(x);
      if rank != 0 {
        Pow2Mono(j, ScanForward(rank));
      }
    }
  }

  /** Going up from parent to parent leads from x to rank. */
  predicate Climbs(x: nat, rank: nat) {
    x == rank || (0 < x && Climbs(Parent(x), rank))
  }

  lemma {:induction false} ClimbsOn(x: nat, y: nat, z: nat)
    requires Climbs(x, y) && Climbs(y, z)
    ensures Climbs(x, z)
  {
    if x != y {
      ClimbsOn(Parent(x), y, z);
    }
  }

  /** A rank in the interval of another has its whole interval there, and climbs to it. */
  lemma {:induction false} Nested(rank: nat, size: nat, x: nat)
    requires rank < size && rank <= x < rank + TreeSize(rank, size)
    ensures x + TreeSize(x, size) <= rank + TreeSize(rank, size)
    ensures Climbs(x, rank)
    decreases size - rank
  {
    if x != rank {
      Covered(rank, size, x);
      var j :| InChild(rank, size, j, x);
      var c := rank + Pow2(j);
      Nested(c, size, x);
      ChildInterval(rank, size, j);
      OneParent(rank, size, c, j);
      assert Climbs(Parent(c), rank);
      ClimbsOn(x, c, rank);
    }
  }

  /** The interval of TreeSize(rank) ranks from rank on is exactly the subtree below rank. */
  lemma {:induction false} IntervalIsSubtree(rank: nat, size: nat, x: nat)
    requires rank < size && x < size
    ensures rank <= x < rank + TreeSize(rank, size) <==> Climbs(x, rank)
    decreases x
  {
    if rank <= x < rank + TreeSize(rank, size) {
      Nested(rank, size, x);
    } else if Climbs(x, rank) {
      var p := Parent(x);
      IntervalIsSubtree(rank, size, p);
      Nested(rank, size, p);
      OneParent(p, size, x, ScanForward(x));
    }
  }

  /** From the root every rank is reached. */
  lemma RootReachesAll(size: nat, x: nat)
    requires x < size
    ensures Climbs(x, 0)
  {
    IntervalIsSubtree(0, size, x);
  }
}
