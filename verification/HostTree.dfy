/**
 The tree of smpd managers: hosts are numbered from 1 in the order they are met, each new
 number gets its parent by bit arithmetic, and a later pass links left and right children
 (smpd_host_util.cpp).
 */
module HostTree {

  /** The highest power of two not above id. */
  function Top(id: nat): (t: nat)
    requires 1 <= id
    ensures 1 <= t <= id < 2 * t
  {
    if id == 1 then 1 else 2 * Top(id / 2)
  }

  function PowerOf2(n: nat): nat {
    if n == 0 then 1 else 2 * PowerOf2(n - 1)
  }

  /** It is a power of two, and every power of two not above id is at most that. */
  lemma {:induction false} TopIsPower(id: nat) returns (n: nat)
    requires 1 <= id
    ensures Top(id) == PowerOf2(n) && forall k: nat :: PowerOf2(k) <= id ==> k <= n
  {
    if id == 1 {
      n := 0;
      assert PowerOf2(0) == 1;
      forall k: nat | PowerOf2(k) <= 1 ensures k <= 0 { PowerGrows(k); }
    } else {
      n := TopIsPower(id / 2);
      n := n + 1;
      forall k: nat | PowerOf2(k) <= id ensures k <= n {
        assert 0 < k ==> PowerOf2(k - 1) <= id / 2;
      }
    }
  }

  lemma {:induction false} PowerGrows(k: nat)
    ensures k < PowerOf2(k)
  {
    if k > 0 {
      PowerGrows(k - 1);
    }
  }

  /** The parent of every host but the first. */
  function Parent(id: nat): nat
    requires 2 <= id
  {
    Top(id / 2) + id % Top(id / 2)
  }

  /**
   The loop of smpd_get_host_id that finds the next host's parent. Since bit is a power of
   two, `bit | (id & (bit - 1))` is `bit + id % bit`.
   */
  method NextParent(id: nat) returns (parent: nat)
    requires 2 <= id
    ensures parent == Parent(id)
  {
    var temp: nat, bit: nat := id / 4, 1;
    while temp != 0
      invariant 1 <= bit && bit * Above(temp) == Top(id / 2)
    {
      Regroup(bit, Above(temp / 2));
      bit := bit * 2;
      temp := temp / 2;
    }
    assert bit == Top(id / 2);
    parent := bit + id % bit;
  }

  /** The power of two just above t, with 1 for none. */
  function Above(t: nat): nat {
    if t == 0 then 1 else 2 * Top(t)
  }

  lemma Regroup(a: int, b: int)
    ensures a * (2 * b) == a * 2 * b
  {
  }

  /** Top is the only power of two in its range that Top can name: one number decides the other. */
  lemma {:induction false} TopUnique(a: nat, b: nat)
    requires 1 <= a && 1 <= b && Top(b) <= a < 2 * Top(b)
    ensures Top(a) == Top(b)
  {
    if b == 1 {
    } else {
      TopUnique(a / 2, b / 2);
    }
  }

  /** A host can have two children, whose numbers follow from its own. */
  function Left(id: nat): nat
    requires 1 <= id
  {
    id + Top(id)
  }

  function Right(id: nat): nat
    requires 1 <= id
  {
    id + 2 * Top(id)
  }

  lemma ChildrenAre(p: nat, c: nat)
    requires 1 <= p && 2 <= c
    ensures Parent(c) == p <==> c == Left(p) || c == Right(p)
    ensures 1 <= Parent(c) < c
  {
    var t := Top(c / 2);
    var q := t + c % t;
    assert t <= c / 2 < 2 * t;
    assert q == Parent(c);
    TopUnique(q, c / 2);
    if c < 3 * t {
      ModOf(c, t, 2);
    } else {
      ModOf(c, t, 3);
    }
    if c == Left(p) || c == Right(p) {
      assert Top(p) <= c / 2 < 2 * Top(p);
      TopUnique(c / 2, p);
    }
  }

  lemma ModOf(c: nat, t: nat, k: nat)
    requires 1 <= t && k * t <= c < k * t + t
    ensures c % t == c - k * t
  {
    var q := c / t;
    assert c == q * t + c % t;
    if q < k {
      Times(q + 1, k, t);
    } else if k < q {
      Times(k + 1, q, t);
    }
  }

  lemma Times(a: int, b: int, t: nat)
    requires a <= b
    ensures a * t <= b * t
  {
  }

  /** 0 stands for a null child. */
  function Present(id: nat, n: nat): nat {
    if id <= n then id else 0
  }

  /** smpd_fix_up_host_tree: left is the first later host with this parent, right the next one. */
  method FixUp(n: nat) returns (left: seq<nat>, right: seq<nat>)
    ensures |left| == |right| == n
    ensures forall p :: 1 <= p <= n ==> left[p - 1] == Present(Left(p), n) && right[p - 1] == Present(Right(p), n)
  {
    left, right := [], [];
    for cur := 1 to n + 1
      invariant |left| == |right| == cur - 1
      invariant forall p :: 1 <= p < cur ==> left[p - 1] == Present(Left(p), n) && right[p - 1] == Present(Right(p), n)
    {
      var l, r := LinkChildren(cur, n);
      left, right := left + [l], right + [r];
    }
  }

  method LinkChildren(cur: nat, n: nat) returns (left: nat, right: nat)
    requires 1 <= cur <= n
    ensures left == Present(Left(cur), n) && right == Present(Right(cur), n)
  {
    left, right := 0, 0;
    var leftFound := false;
    var iter := cur + 1;
    while iter <= n
      invariant cur < iter <= n + 1
      invariant leftFound == (Left(cur) < iter) && left == (if leftFound then Left(cur) else 0)
      invariant right == 0 && iter <= Right(cur)
    {
      ChildrenAre(cur, iter);
      if Parent(iter) == cur {
        if leftFound {
          right := iter;
          break;
        }
        left := iter;
        leftFound := true;
      }
      iter := iter + 1;
    }
  }
}
