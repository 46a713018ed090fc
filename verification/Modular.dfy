/**
 Division and remainder by repeated subtraction, for specifications that are to stay linear,
 and what relates them to the operators.
 */
module Modular {

  ghost function Quotient(n: nat, d: nat): nat
    requires 0 < d
  {
    if n < d then 0 else 1 + Quotient(n - d, d)
  }

  ghost function Mod(n: nat, d: nat): (r: nat)
    requires 0 < d
    ensures r < d
  {
    if n < d then n else Mod(n - d, d)
  }

  lemma {:induction false} Divides(n: nat, d: nat)
    requires 0 < d
    ensures Quotient(n, d) == n / d && Mod(n, d) == n % d
  {
    if d <= n {
      Divides(n - d, d);
      DropOne(n, d);
    }
  }

  lemma DropOne(n: nat, d: nat)
    requires 0 < d <= n
    ensures (n - d) % d == n % d && (n - d) / d == n / d - 1
  {
    var q, q' := n / d, (n - d) / d;
    assert n == q * d + n % d && n - d == q' * d + (n - d) % d;
    assert (q - 1) * d + n % d == n - d;
    Unique(q - 1, n % d, q', (n - d) % d, d);
  }

  lemma Unique(q: int, r: nat, q': int, r': nat, d: nat)
    requires q * d + r == q' * d + r' && r < d && r' < d
    ensures r == r' && q == q'
  {
    More(q, q', d);
    More(q', q, d);
  }

  lemma More(q: int, q': int, d: nat)
    ensures q < q' ==> q * d + d <= q' * d
  {
    if q < q' {
      Times(q + 1, q', d);
      OneMore(q, d);
    }
  }

  lemma OneMore(q: int, d: nat)
    ensures (q + 1) * d == q * d + d
  {
  }

  lemma {:induction false} ModOn(j: nat, k: nat, d: nat)
    requires 0 < d && Mod(j, d) == 0
    ensures Mod(j + k, d) == Mod(k, d)
  {
    if d <= j { ModOn(j - d, k, d); }
  }

  lemma ModWhole(j: nat, d: nat)
    requires 0 < d && Mod(j, d) == 0
    ensures Mod(j + d, d) == 0
  {
  }

  lemma ModPart(j: nat, k: nat, d: nat)
    requires k < d && Mod(j, d) == 0
    ensures Mod(j + k, d) == k
  {
    ModOn(j, k, d);
  }

  lemma Next(k: nat, w: nat)
    requires 0 < k
    ensures k * w == (k - 1) * w + w && 0 <= (k - 1) * w
  {
  }

  lemma Times(a: int, b: int, w: nat)
    requires a <= b
    ensures a * w <= b * w
  {
  }

  /** The next number is one place further, or back at the start. */
  lemma {:induction false} ModNext(n: nat, d: nat)
    requires 0 < d
    ensures Mod(n + 1, d) == if Mod(n, d) + 1 == d then 0 else Mod(n, d) + 1
  {
    if d <= n { ModNext(n - d, d); }
  }
}
