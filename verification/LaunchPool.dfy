/**
 The pool of launch contexts of the launch service: a fixed array of contexts, and a
 permutation of their places whose front part names the live ones (MsmpiLaunchSvc.cpp).
 */
module LaunchPool {

  const MAXIMUM_WAIT_OBJECTS: nat := 64
  const MAXIMUM_CONTEXTS: nat := MAXIMUM_WAIT_OBJECTS - 1

  /** LaunchContext; handles are numbers, and 0 is none. */
  datatype Context = Context(pmiHandle: nat, parentThread: nat, primaryToken: nat, mgrProcess: nat, userToken: nat)

  const ZERO: Context := Context(0, 0, 0, 0, 0)

  datatype Option<T> = None | Some(value: T)

  predicate Permutation(a: seq<nat>, n: nat) {
    && |a| == n && (forall i :: 0 <= i < n ==> a[i] < n)
    && forall i, j :: 0 <= i < j < n ==> a[i] != a[j]
  }

  function Named(a: seq<nat>): set<nat> {
    set i | i in a
  }

  lemma {:induction false} NamedSize(a: seq<nat>)
    requires forall i, j :: 0 <= i < j < |a| ==> a[i] != a[j]
    ensures |Named(a)| == |a|
  {
    if a != [] {
      var n := |a| - 1;
      NamedSize(a[..n]);
      assert Named(a) == Named(a[..n]) + {a[n]};
      assert a[n] !in Named(a[..n]);
    }
  }

  function Below(n: nat): (s: set<nat>)
    ensures |s| == n
    ensures forall i: nat :: i in s <==> i < n
  {
    if n == 0 then {} else Below(n - 1) + {n - 1}
  }

  lemma SubsetAll(s: set<nat>, t: set<nat>)
    requires s <= t && |s| == |t|
    ensures s == t
  {
    assert |t - s| == |t| - |s|;
    assert t == s + (t - s);
  }

  /** Distinct places fill the whole range: every context is named. */
  lemma PermutationNamesAll(a: seq<nat>, n: nat)
    requires Permutation(a, n)
    ensures forall i: nat :: i < n ==> i in a
  {
    NamedSize(a);
    SubsetAll(Named(a), Below(n));
    forall i: nat | i < n ensures i in a {
      assert i in Named(a);
    }
  }

  /** Which of the places is live. */
  ghost function LiveOf(a: seq<nat>, count: nat): set<nat>
    requires count <= |a|
  {
    Named(a[..count])
  }

  function Swapped(a: seq<nat>, i: nat, j: nat): seq<nat>
    requires i < |a| && j < |a|
  {
    a[i := a[j]][j := a[i]]
  }

  lemma SwapStays(a: seq<nat>, n: nat, i: nat, j: nat)
    requires Permutation(a, n) && i < n && j < n
    ensures Permutation(Swapped(a, i, j), n)
  {
  }

  /** Swapping a live place with the last live one and dropping that makes exactly it free. */
  lemma SwapFrees(a: seq<nat>, n: nat, count: nat, i: nat)
    requires Permutation(a, n) && 0 < count <= n && i < count
    ensures LiveOf(Swapped(a, i, count - 1), count - 1) == LiveOf(a, count) - {a[i]}
  {
    var b := Swapped(a, i, count - 1);
    forall p: nat ensures p in LiveOf(b, count - 1) <==> p in LiveOf(a, count) - {a[i]} {
      if p in b[..count - 1] {
        var k :| 0 <= k < count - 1 && b[k] == p;
        assert p == a[if k == i then count - 1 else k];
      }
      if p in a[..count] && p != a[i] {
        var k :| 0 <= k < count && a[k] == p;
        assert b[if k == count - 1 then i else k] == p;
      }
    }
  }

  class ContextPool {
    const contexts: array<Context>
    const activeIndices: array<nat>
    var activeContextCount: nat

    /** The active places are a permutation, and every context that is not live is zeroed. */
    ghost predicate Valid()
      reads this, contexts, activeIndices
    {
      && contexts.Length == MAXIMUM_CONTEXTS && activeContextCount <= MAXIMUM_CONTEXTS
      && Permutation(activeIndices[..], MAXIMUM_CONTEXTS)
      && forall i :: 0 <= i < MAXIMUM_CONTEXTS && i !in Live() ==> contexts[i] == ZERO
    }

    ghost function Live(): set<nat>
      reads this, activeIndices
      requires activeContextCount <= activeIndices.Length
    {
      LiveOf(activeIndices[..], activeContextCount)
    }

    constructor ()
      ensures Valid() && Live() == {} && fresh(contexts) && fresh(activeIndices)
    {
      contexts := new Context[MAXIMUM_CONTEXTS](_ => ZERO);
      activeIndices := new nat[MAXIMUM_CONTEXTS](i requires 0 <= i => i);
      activeContextCount := 0;
    }

    /** A context that was not live, and is zeroed; none when all are live. */
    method CreateNewContext() returns (c: Option<nat>)
      requires Valid()
      modifies this`activeContextCount
      ensures Valid() && activeIndices[..] == old(activeIndices[..]) && contexts[..] == old(contexts[..])
      ensures c == None <==> |old(Live())| == MAXIMUM_CONTEXTS
      ensures c == None ==> Live() == old(Live())
      ensures c.Some? ==> c.value < MAXIMUM_CONTEXTS && c.value !in old(Live()) && contexts[c.value] == ZERO
                          && Live() == old(Live()) + {c.value}
    {
      ghost var a := activeIndices[..];
      NamedSize(a[..activeContextCount]);
      if activeContextCount == MAXIMUM_CONTEXTS {
        return None;
      }
      c := Some(activeIndices[activeContextCount]);
      activeContextCount := activeContextCount + 1;
      assert a[..activeContextCount] == a[..activeContextCount - 1] + [c.value];
    }

    /** FindContext: the first live context that matches. */
    method FindContext(matches: Context -> bool) returns (c: Option<nat>)
      requires Valid()
      ensures c.Some? ==> c.value in Live() && c.value < MAXIMUM_CONTEXTS && matches(contexts[c.value])
      ensures c == None <==> forall i :: i in Live() && i < MAXIMUM_CONTEXTS ==> !matches(contexts[i])
    {
      for i := 0 to activeContextCount
        invariant forall k :: 0 <= k < i ==> !matches(contexts[activeIndices[k]])
      {
        if matches(contexts[activeIndices[i]]) {
          assert activeIndices[..][..activeContextCount][i] == activeIndices[i];
          return Some(activeIndices[i]);
        }
      }
      c := None;
    }

    /** DestroyContext: nothing for no context; a place outside the array is refused; a live context is zeroed and freed. */
    method DestroyContext(c: Option<int>) returns (result: bool)
      requires Valid() && (c.Some? && 0 <= c.value < MAXIMUM_CONTEXTS ==> c.value in Live())
      modifies this`activeContextCount, contexts, activeIndices
      ensures Valid()
      ensures result <==> c == None || 0 <= c.value < MAXIMUM_CONTEXTS
      ensures Live() == if c.Some? && result then old(Live()) - {c.value} else old(Live())
      ensures forall i :: 0 <= i < MAXIMUM_CONTEXTS ==>
                contexts[i] == if c.Some? && c.value == i then ZERO else old(contexts[i])
    {
      if c == None {
        return true;
      }
      var idx := c.value;
      if activeContextCount == 0 || idx < 0 || idx >= MAXIMUM_CONTEXTS {
        return false;
      }
      contexts[idx] := ZERO;
      result := Free(idx);
    }

    /** The place of a live context goes behind those that stay live. */
    method Free(idx: nat) returns (result: bool)
      requires contexts.Length == MAXIMUM_CONTEXTS && 0 < activeContextCount <= MAXIMUM_CONTEXTS
      requires Permutation(activeIndices[..], MAXIMUM_CONTEXTS) && idx < MAXIMUM_CONTEXTS && idx in Live() && contexts[idx] == ZERO
      requires forall i :: 0 <= i < MAXIMUM_CONTEXTS && i !in Live() ==> contexts[i] == ZERO
      modifies this`activeContextCount, activeIndices
      ensures Valid() && Live() == old(Live()) - {idx} && result
    {
      ghost var a := activeIndices[..];
      var idxActive := 0;
      while idxActive < activeContextCount && activeIndices[idxActive] != idx
        invariant idxActive <= activeContextCount && idx !in a[..idxActive]
      {
        assert a[..idxActive + 1] == a[..idxActive] + [a[idxActive]];
        idxActive := idxActive + 1;
      }
      assert idxActive < activeContextCount;
      SwapStays(a, MAXIMUM_CONTEXTS, idxActive, activeContextCount - 1);
      SwapFrees(a, MAXIMUM_CONTEXTS, activeContextCount, idxActive);
      activeContextCount := activeContextCount - 1;
      var destroyed := activeIndices[idxActive];
      activeIndices[idxActive] := activeIndices[activeContextCount];
      activeIndices[activeContextCount] := destroyed;
      assert activeIndices[..] == Swapped(a, idxActive, activeContextCount);
      result := true;
    }
  }
}
