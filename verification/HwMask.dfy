/**
 64-bit affinity masks, as the set of the bits that are on, and how the tree builders cut a
 mask into pieces of a given width (hwtree.cpp).
 */
module HwMask {
  import opened Modular
  import opened Sealing

  type Mask = m: set<nat> | forall b :: b in m ==> b < 64 witness {}

  function Not(m: Mask): Mask {
    set b: nat | b < 64 && b !in m
  }

  /** The bit w places below b is on. */
  predicate OnBelow(m: Mask, w: nat, b: nat) {
    exists c | c in m :: c + w == b
  }

  predicate Within(b: nat, lo: nat, hi: nat) {
    lo <= b < hi
  }

  /** m << w on a 64-bit machine word; the hardware takes the count modulo 64. */
  function Shl(m: Mask, w: nat): Mask {
    set b: nat | b < 64 && OnBelow(m, w % 64, b)
  }

  lemma ShlBits(m: Mask, w: nat, b: nat)
    ensures b in Shl(m, w) <==> b < 64 && w % 64 <= b && b - w % 64 in m
  {
    if w % 64 <= b && b - w % 64 in m {
      assert OnBelow(m, w % 64, b);
    }
  }

  /** WidthMasks[w - 1] */
  function WidthMask(w: nat): Mask {
    set b: nat | b < 64 && Within(b, 0, w)
  }

  /** The mask the loop starts with: every bit of m that has no bit of m exactly w below it. */
  function First(m: Mask, w: nat): Mask {
    (Shl(Not(m), w) + WidthMask(w)) * m
  }

  /** The mask of the loop's k-th round. */
  function Piece(m: Mask, w: nat, k: nat): Mask {
    if k == 0 then First(m, w) else Shl(Piece(m, w, k - 1), w)
  }

  /** What is left of the full mask before the k-th round. */
  function Rest(m: Mask, w: nat, k: nat): Mask {
    if k == 0 then m else Rest(m, w, k - 1) - Piece(m, w, k - 1)
  }

  lemma {:induction false} PieceBits(m: Mask, w: nat, k: nat, b: nat)
    requires 1 <= w < 64
    ensures b in Piece(m, w, k) <==> b < 64 && k * w <= b && b - k * w in First(m, w)
  {
    if k > 0 {
      Next(k, w);
      ShlBits(Piece(m, w, k - 1), w, b);
      assert Piece(m, w, k) == Shl(Piece(m, w, k - 1), w);
      if w <= b {
        PieceBits(m, w, k - 1, b - w);
        assert b - w - (k - 1) * w == b - k * w;
      }
    }
  }

  /** Walking down from a bit of m in steps of w, one stays in m until a bit of the first mask. */
  lemma {:induction false} Descend(m: Mask, w: nat, b: nat) returns (k: nat)
    requires 1 <= w < 64 && b in m
    ensures k * w <= b && b - k * w in First(m, w)
    ensures forall i :: 0 <= i <= k ==> 0 <= b - i * w && b - i * w in m
    decreases b
  {
    ShlBits(Not(m), w, b);
    if b < w || b - w !in m {
      k := 0;
    } else {
      var k' := Descend(m, w, b - w);
      k := k' + 1;
      assert k * w == k' * w + w;
      forall i | 0 <= i <= k ensures 0 <= b - i * w && b - i * w in m {
        if i > 0 {
          assert i * w == (i - 1) * w + w;
          assert b - w - (i - 1) * w in m;
        }
      }
    }
  }

  ghost predicate Untouched(m: Mask, w: nat, k: nat, b: nat) {
    forall i :: 0 <= i < k ==> b !in Piece(m, w, i)
  }

  lemma {:induction false} RestBits(m: Mask, w: nat, k: nat, b: nat)
    ensures b in Rest(m, w, k) <==> b in m && Untouched(m, w, k, b)
  {
    if k > 0 {
      RestBits(m, w, k - 1, b);
      assert Untouched(m, w, k, b) <==> Untouched(m, w, k - 1, b) && b !in Piece(m, w, k - 1);
    }
  }

  /**
   While anything is left, the piece of this round still meets the mask (the builders' own
   assertion), and every bit left lies k widths up: so the loop ends.
   */
  lemma RoundMeets(m: Mask, w: nat, k: nat)
    requires 1 <= w <= 64 && Rest(m, w, k) != {}
    ensures Piece(m, w, k) * m != {} && k < 64
    ensures w == 64 ==> k == 0
  {
    var b :| b in Rest(m, w, k);
    RestBits(m, w, k, b);
    if w == 64 {
      WholeWord(m, k);
    } else {
      var n := Descend(m, w, b);
      PieceBits(m, w, n, b);
      assert k <= n;
      Apart(n, k, w);
      Scale(n, w);
      StepsDown(m, w, k, b, n);
    }
  }

  lemma StepsDown(m: Mask, w: nat, k: nat, b: nat, n: nat)
    requires 1 <= w < 64 && k <= n && n * w <= b && b - n * w in First(m, w)
    requires 0 <= b - (n - k) * w && b - (n - k) * w in m
    ensures Piece(m, w, k) * m != {}
  {
    var c := b - (n - k) * w;
    Apart(n, k, w);
    PieceBits(m, w, k, c);
    assert c in Piece(m, w, k) * m;
  }

  lemma Apart(n: nat, k: nat, w: nat)
    requires k <= n
    ensures (n - k) * w + k * w == n * w && 0 <= (n - k) * w && 0 <= k * w
  {
  }

  lemma {:induction false} RestShrinks(m: Mask, w: nat, j: nat, k: nat)
    requires j <= k
    ensures Rest(m, w, k) <= Rest(m, w, j)
  {
    if j < k { RestShrinks(m, w, j, k - 1); }
  }

  /** A width of 64 takes the whole mask in the first round. */
  lemma WholeWord(m: Mask, k: nat)
    requires Rest(m, 64, k) != {}
    ensures k == 0 && First(m, 64) == m
  {
    if k > 0 { RestShrinks(m, 64, 1, k); }
    assert WidthMask(64) * m == m;
    assert Rest(m, 64, 1) == Rest(m, 64, 0) - Piece(m, 64, 0) == {};
  }

  lemma Scale(n: nat, w: nat)
    requires 1 <= w
    ensures n <= n * w
  {
  }

  /** How many rounds the loop makes. */
  function PieceCount(m: Mask, w: nat): nat {
    CountFrom(m, w, 0)
  }

  /** The first round, from the k-th on, before which nothing is left. */
  function CountFrom(m: Mask, w: nat, k: nat): nat
    decreases 64 - k
  {
    if Rest(m, w, k) == {} || 64 <= k then k else CountFrom(m, w, k + 1)
  }

  lemma {:induction false} CountedFrom(m: Mask, w: nat, k: nat, i: nat)
    requires 1 <= w <= 64 && k <= 64
    ensures k <= CountFrom(m, w, k) && Rest(m, w, CountFrom(m, w, k)) == {}
    ensures k <= i < CountFrom(m, w, k) ==> Rest(m, w, i) != {}
    decreases 64 - k
  {
    if Rest(m, w, k) != {} {
      RoundMeets(m, w, k);
      CountedFrom(m, w, k + 1, i);
    }
  }

  /** Something is left before every round the loop makes, and nothing after the last. */
  lemma Counted(m: Mask, w: nat, k: nat)
    requires 1 <= w <= 64
    ensures Rest(m, w, PieceCount(m, w)) == {} && (k < PieceCount(m, w) ==> Rest(m, w, k) != {})
  {
    CountedFrom(m, w, 0, k);
  }

  /** Every piece the loop makes has a bit of the mask... */
  lemma PieceMeets(m: Mask, w: nat, k: nat)
    requires 1 <= w <= 64 && k < PieceCount(m, w)
    ensures Piece(m, w, k) * m != {} && Piece(m, w, k) != {} && k < 64
  {
    Counted(m, w, k);
    RoundMeets(m, w, k);
  }

  lemma StillPieces(m: Mask, w: nat, k: nat)
    requires 1 <= w <= 64 && k <= PieceCount(m, w) && Rest(m, w, k) != {}
    ensures k < PieceCount(m, w) && k < 64 && Piece(m, w, k) != {}
  {
    Counted(m, w, k);
    RoundMeets(m, w, k);
  }

  lemma HasPieces(m: Mask, w: nat)
    requires 1 <= w <= 64 && m != {}
    ensures 0 < PieceCount(m, w)
  {
    Counted(m, w, 0);
  }

  /** The loop's two variables before its k-th round. */
  ghost predicate Cutting(m: Mask, w: nat, k: nat, full: Mask, piece: Mask)
    requires 1 <= w <= 64
  {
    forall z: int :: Key(Cuts, k, z) ==> full == Rest(m, w, k) && piece == Piece(m, w, k) && k <= PieceCount(m, w)
  }

  lemma CuttingBegins(m: Mask, w: nat)
    requires 1 <= w <= 64
    ensures Cutting(m, w, 0, m, First(m, w)) == true
  {
  }

  lemma CuttingNext(m: Mask, w: nat, k: nat, full: Mask, piece: Mask)
    requires 1 <= w <= 64 && Cutting(m, w, k, full, piece) == true && full != {}
    ensures Cutting(m, w, k + 1, full - piece, Shl(piece, w)) == true
    ensures k < PieceCount(m, w) && k < 64 && piece == Piece(m, w, k) && piece != {}
  {
    assert Key(Cuts, k, 0);
    StillPieces(m, w, k);
  }

  lemma CuttingEnds(m: Mask, w: nat, k: nat, full: Mask, piece: Mask)
    requires 1 <= w <= 64 && Cutting(m, w, k, full, piece) == true && full == {}
    ensures k == PieceCount(m, w)
  {
    assert Key(Cuts, k, 0);
    Counted(m, w, k);
  }

  ghost predicate IsPiece(piece: Mask, m: Mask, w: nat, k: nat) {
    forall z: int :: Key(Bits, k, z) ==> piece == Piece(m, w, k)
  }

  /** ... and every bit of the mask is in one of them. */
  lemma PieceOf(m: Mask, w: nat, b: nat) returns (k: nat, piece: Mask)
    requires 1 <= w <= 64 && b in m
    ensures k < PieceCount(m, w) && IsPiece(piece, m, w, k) == true && b in piece
  {
    Counted(m, w, 0);
    RestBits(m, w, PieceCount(m, w), b);
    k :| 0 <= k < PieceCount(m, w) && b in Piece(m, w, k);
    piece := Piece(m, w, k);
  }

  // ---- runs --------------------------------------------------------------------------

  /** n bits in a row, from bit lo. */
  function Run(lo: nat, n: nat): Mask
    requires lo + n <= 64
  {
    var hi := lo + n;
    set b: nat | b < 64 && Within(b, lo, hi)
  }

  lemma RunsDisjoint(lo: nat, n: nat, lo': nat, n': nat)
    requires lo + n <= lo' && lo' + n' <= 64
    ensures Run(lo, n) * Run(lo', n') == {}
  {
  }

  lemma RunWithin(lo: nat, n: nat, lo': nat, n': nat)
    requires lo' <= lo && lo + n <= lo' + n' <= 64
    ensures Run(lo, n) <= Run(lo', n')
  {
  }

  lemma RunFirst(lo: nat, n: nat, w: nat)
    requires lo + n <= 64 && 1 <= w <= n
    ensures First(Run(lo, n), w) == Run(lo, w)
  {
    var m := Run(lo, n);
    forall b: nat ensures b in First(m, w) <==> b in Run(lo, w) {
      ShlBits(Not(m), w, b);
    }
  }

  lemma ShlRun(lo: nat, n: nat, w: nat)
    requires w < 64 && lo + w + n <= 64
    ensures Shl(Run(lo, n), w) == Run(lo + w, n)
  {
    forall b: nat ensures b in Shl(Run(lo, n), w) <==> b in Run(lo + w, n) {
      ShlBits(Run(lo, n), w, b);
    }
  }

  /** A run cut into pieces of a width that divides it: consecutive runs of that width. */
  lemma {:induction false} RunPieces(lo: nat, n: nat, w: nat, k: nat, edge: nat)
    requires lo + n <= 64 && 1 <= w && edge == lo + k * w && edge + w <= lo + n
    ensures Piece(Run(lo, n), w, k) == Run(edge, w)
  {
    if k == 0 {
      RunFirst(lo, n, w);
    } else {
      assert k * w == (k - 1) * w + w && 0 <= (k - 1) * w;
      RunPieces(lo, n, w, k - 1, edge - w);
      ShlRun(edge - w, w, w);
    }
  }

  lemma {:induction false} RunRest(lo: nat, n: nat, w: nat, k: nat, used: nat)
    requires lo + n <= 64 && 1 <= w && used == k * w <= n
    ensures Rest(Run(lo, n), w, k) == Run(lo + used, n - used)
  {
    if k > 0 {
      assert used == (k - 1) * w + w && 0 <= (k - 1) * w;
      RunRest(lo, n, w, k - 1, used - w);
      RunPieces(lo, n, w, k - 1, lo + used - w);
    }
  }

  lemma RunUsedUp(lo: nat, n: nat, w: nat, q: nat)
    requires lo + n <= 64 && 1 <= w && n == q * w
    ensures Rest(Run(lo, n), w, q) == {}
  {
    RunRest(lo, n, w, q, n);
  }

  lemma RunNotUsedUp(lo: nat, n: nat, w: nat, q: nat, c: nat)
    requires lo + n <= 64 && 1 <= w && n == q * w && c < q
    ensures Rest(Run(lo, n), w, c) != {}
  {
    Times(c + 1, q, w);
    assert c * w + w == (c + 1) * w <= n;
    RunRest(lo, n, w, c, c * w);
    assert lo + c * w in Run(lo + c * w, n - c * w);
  }

  lemma RunCount(lo: nat, n: nat, w: nat, q: nat)
    requires lo + n <= 64 && 1 <= w <= 64 && n == q * w
    ensures PieceCount(Run(lo, n), w) == q
  {
    RunUsedUp(lo, n, w, q);
    Counted(Run(lo, n), w, q);
    if PieceCount(Run(lo, n), w) < q {
      RunNotUsedUp(lo, n, w, q, PieceCount(Run(lo, n), w));
    }
  }
}
