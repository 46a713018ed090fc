/**
 Vectored reads and writes of a socket that complete in parts: the vector is trimmed in place
 by what each completion has done (sock.cpp).
 */
module SockIo {

  /** WSABUF: where the bytes are, and how many. */
  datatype Buffer = Buffer(len: nat, buf: nat)

  /** The addresses of n bytes. */
  function Bytes(buf: nat, n: nat): (s: seq<nat>)
    ensures |s| == n
    ensures forall k :: 0 <= k < n ==> s[k] == buf + k
  {
    seq(n, k requires 0 <= k < n => buf + k)
  }

  /** The addresses of the bytes of a vector, in order. */
  function Covered(iov: seq<Buffer>): seq<nat> {
    if iov == [] then [] else Bytes(iov[0].buf, iov[0].len) + Covered(iov[1..])
  }

  lemma {:induction false} CoveredEnd(iov: seq<Buffer>)
    requires iov != []
    ensures Covered(iov) == Covered(iov[..|iov| - 1]) + Bytes(iov[|iov| - 1].buf, iov[|iov| - 1].len)
  {
    if |iov| == 1 {
      assert iov[..0] == [] && iov[1..] == [];
    } else {
      CoveredEnd(iov[1..]);
      assert iov[1..][..|iov| - 2] == iov[..|iov| - 1][1..];
      assert iov[..|iov| - 1][0] == iov[0];
    }
  }

  /** Nothing is left exactly when the vector is used up, as long as it does not end in an empty buffer. */
  lemma {:induction false} EmptyIff(iov: seq<Buffer>)
    requires iov != [] ==> 0 < iov[|iov| - 1].len
    ensures Covered(iov) == [] <==> iov == []
  {
    if iov != [] { CoveredEnd(iov); }
  }

  /** n bytes of a longer run of bytes are its beginning. */
  lemma BytesSplit(buf: nat, len: nat, n: nat)
    requires n <= len
    ensures Bytes(buf, len)[n..] == Bytes(buf + n, len - n)
  {
  }

  /** The vector without its first n bytes. */
  function Trimmed(v: seq<Buffer>, n: nat): seq<Buffer>
    requires n <= |Covered(v)|
    decreases |v|
  {
    if n == 0 then v
    else if v[0].len <= n then Trimmed(v[1..], n - v[0].len)
    else [Buffer(v[0].len - n, v[0].buf + n)] + v[1..]
  }

  /** What is left is exactly the rest of the bytes... */
  lemma {:induction false} TrimmedCovers(v: seq<Buffer>, n: nat)
    requires n <= |Covered(v)|
    ensures Covered(Trimmed(v, n)) == Covered(v)[n..]
    decreases |v|
  {
    if n != 0 {
      if v[0].len <= n {
        TrimmedCovers(v[1..], n - v[0].len);
        assert Covered(v)[n..] == Covered(v[1..])[n - v[0].len..];
      } else {
        BytesSplit(v[0].buf, v[0].len, n);
        assert Covered(v)[n..] == Bytes(v[0].buf, v[0].len)[n..] + Covered(v[1..]);
        var t := Trimmed(v, n);
        assert t[1..] == v[1..];
      }
    }
  }

  /** ... at the end of the vector, with no buffer of it emptied. */
  lemma {:induction false} TrimmedKeeps(v: seq<Buffer>, n: nat)
    requires n <= |Covered(v)| && (v != [] ==> 0 < v[|v| - 1].len)
    ensures var t := Trimmed(v, n);
            |t| <= |v| && (t != [] ==> 0 < t[|t| - 1].len) && (NonEmpty(v) ==> NonEmpty(t))
    decreases |v|
  {
    if n != 0 && v[0].len <= n {
      TrimmedKeeps(v[1..], n - v[0].len);
    }
  }

  predicate NonEmpty(iov: seq<Buffer>) {
    forall k :: 0 <= k < |iov| ==> 0 < iov[k].len
  }

  // sock_safe_send and sock_safe_receive expect a first buffer with something in it. An empty
  // buffer between others would come first once all before it is done, and a receive into it
  // would look like the end of the connection.

  lemma {:induction false} ReachesEmpty(v: seq<Buffer>, k: nat)
    requires k < |v| && (forall j :: 0 <= j < k ==> 0 < v[j].len)
    ensures |Covered(v[..k])| <= |Covered(v)| && Trimmed(v, |Covered(v[..k])|) == v[k..]
  {
    if k > 0 {
      ReachesEmpty(v[1..], k - 1);
      assert v[..k][1..] == v[1..][..k - 1] && v[..k][0] == v[0];
      assert v[1..][k - 1..] == v[k..];
    } else {
      assert v[..0] == [];
    }
  }

  ghost predicate HeadsPositive(v: seq<Buffer>) {
    forall n: nat :: n < |Covered(v)| ==> HeadPositive(v, n)
  }

  ghost predicate HeadPositive(v: seq<Buffer>, n: nat)
    requires n <= |Covered(v)|
  {
    Trimmed(v, n) != [] && 0 < Trimmed(v, n)[0].len
  }

  /** What is posted always starts with something exactly when no buffer is empty. */
  lemma HeadsPositiveIff(v: seq<Buffer>)
    requires v != [] && 0 < v[|v| - 1].len
    ensures HeadsPositive(v) <==> NonEmpty(v)
  {
    if NonEmpty(v) {
      forall n: nat | n < |Covered(v)| ensures HeadPositive(v, n) {
        TrimmedKeeps(v, n);
        TrimmedCovers(v, n);
        EmptyIff(Trimmed(v, n));
      }
    } else {
      var k := FirstEmpty(v);
      ReachesEmpty(v, k);
      CoveredCut(v, k);
      EmptyIff(v[k..]);
      assert !HeadPositive(v, |Covered(v[..k])|);
    }
  }

  lemma FirstEmpty(v: seq<Buffer>) returns (k: nat)
    requires !NonEmpty(v)
    ensures k < |v| && v[k].len == 0 && forall j :: 0 <= j < k ==> 0 < v[j].len
  {
    k := 0;
    while 0 < v[k].len
      invariant k < |v| && forall j :: 0 <= j < k ==> 0 < v[j].len
      decreases |v| - k
    {
      k := k + 1;
    }
  }

  lemma {:induction false} CoveredCut(v: seq<Buffer>, k: nat)
    requires k <= |v|
    ensures Covered(v) == Covered(v[..k]) + Covered(v[k..])
  {
    if k == 0 {
      assert v[..0] == [] && v[0..] == v;
    } else {
      CoveredCut(v[1..], k - 1);
      assert v[..k][1..] == v[1..][..k - 1] && v[1..][k - 1..] == v[k..];
    }
  }

  datatype Outcome = Pending | Success(bytes: nat) | ConnectionClosed | Failure

  /** A send whose buffers winsock refuses: the length tried after n refusals. */
  function Shrunk(len: nat, n: nat): nat {
    if n == 0 then len else Shrunk(len, n - 1) / 2 + 1
  }

  /** The shrinking length never reaches zero and never exceeds the first buffer. */
  lemma {:induction false} ShrunkStays(len: nat, n: nat)
    requires 1 <= len
    ensures 1 <= Shrunk(len, n) <= len && (0 < n ==> Shrunk(len, n) <= Shrunk(len, n - 1))
  {
    if n > 0 { ShrunkStays(len, n - 1); }
  }

  function PowerOf2(n: nat): (p: nat)
    ensures 0 < p
  {
    if n == 0 then 1 else 2 * PowerOf2(n - 1)
  }

  /** After n refusals what is beyond two bytes has been halved n times. */
  lemma {:induction false} ShrunkIs(len: nat, n: nat)
    requires 2 <= len
    ensures Shrunk(len, n) == 2 + (len - 2) / PowerOf2(n)
  {
    if n > 0 {
      ShrunkIs(len, n - 1);
      HalfOf(len - 2, PowerOf2(n - 1));
    }
  }

  lemma HalfOf(x: nat, t: nat)
    requires 0 < t
    ensures x / t / 2 == x / (2 * t)
  {
    var q, r := x / t / 2, x - x / t / 2 * (2 * t);
    var b := x / t % 2;
    assert x == x / t * t + x % t;
    Factored(x / t, q, b, t);
    assert r == b * t + x % t;
    Rounds(b, t);
    SameQuotient(x, 2 * t, q, r);
  }

  lemma Factored(a: int, q: int, b: int, t: int)
    requires a == 2 * q + b
    ensures a * t == q * (2 * t) + b * t
  {
  }

  lemma Rounds(b: int, t: nat)
    requires b == 0 || b == 1
    ensures 0 <= b * t <= t
  {
  }

  lemma SameQuotient(x: nat, d: nat, q: int, r: int)
    requires 0 < d && 0 <= r < d && x == q * d + r
    ensures x / d == q
  {
    var q' := x / d;
    assert x == q' * d + x % d;
    Between(q, q', d);
    Between(q', q, d);
  }

  lemma Between(q: int, q': int, d: nat)
    ensures q < q' ==> q * d + d <= q' * d
  {
    if q < q' {
      assert (q' - q) * d >= d by { AtLeast(q' - q, d); }
      assert (q' - q) * d == q' * d - q * d;
    }
  }

  lemma AtLeast(k: int, d: nat)
    requires 1 <= k
    ensures d <= k * d
  {
  }

  /** ... but it settles at two bytes, not one, when there is more than one to send. */
  lemma {:induction false} ShrunkSettles(len: nat, n: nat)
    requires 2 <= len && len <= n + 2
    ensures Shrunk(len, n) == 2
    decreases n
  {
    if n > 0 {
      ShrunkFirst(len, n);
      ShrunkSettles(len / 2 + 1, n - 1);
    }
  }

  lemma {:induction false} ShrunkFirst(len: nat, n: nat)
    requires 0 < n
    ensures Shrunk(len, n) == Shrunk(len / 2 + 1, n - 1)
  {
    if n > 1 { ShrunkFirst(len, n - 1); }
  }

  /**
   sock_safe_send: winsock lacks buffers `refusals` times, then takes the send or fails. The whole
   vector is posted first, and after a refusal ever less of its first buffer.
   */
  method SafeSend(iov: array<Buffer>, at: nat, n: nat, refusals: nat, fails: bool) returns (ok: bool, posted: seq<Buffer>)
    requires at + n <= iov.Length && 0 < n
    ensures ok == !fails
    ensures posted == if refusals == 0 then iov[at..at + n] else [Buffer(Shrunk(iov[at].len, refusals), iov[at].buf)]
    ensures 0 < iov[at].len ==> posted[0].buf == iov[at].buf && 1 <= posted[0].len <= iov[at].len
  {
    var tmp := iov[at];
    posted := iov[at..at + n];
    for k := 0 to refusals
      invariant tmp == Buffer(Shrunk(iov[at].len, k), iov[at].buf)
      invariant posted == if k == 0 then iov[at..at + n] else [tmp]
      invariant 0 < iov[at].len ==> 1 <= tmp.len <= iov[at].len
    {
      tmp := tmp.(len := tmp.len / 2 + 1);
      posted := [tmp];
    }
    ok := !fails;
  }

  const RECEIVE_CAP: nat := 0x10_0000

  function Capped(len: nat): nat { if len < RECEIVE_CAP then len else RECEIVE_CAP }

  /** sock_safe_receive: only the first buffer is posted, a megabyte of it at most, and less after every refusal. */
  method SafeReceive(iov: array<Buffer>, at: nat, refusals: nat, fails: bool) returns (ok: bool, posted: Buffer)
    requires at < iov.Length
    ensures ok == !fails
    ensures posted == Buffer(Shrunk(Capped(iov[at].len), refusals), iov[at].buf)
    ensures 0 < iov[at].len ==> 1 <= posted.len <= Capped(iov[at].len) <= iov[at].len
    ensures posted.len <= 1048576
  {
    posted := Buffer(Capped(iov[at].len), iov[at].buf);
    for k := 0 to refusals
      invariant posted == Buffer(Shrunk(Capped(iov[at].len), k), iov[at].buf)
      invariant 0 < iov[at].len ==> 1 <= posted.len <= Capped(iov[at].len)
      invariant posted.len <= 1048576
    {
      posted := posted.(len := posted.len / 2 + 1);
    }
    ok := !fails;
  }

  /** What a completion leaves of the rest of the bytes. */
  lemma Advanced(v: seq<Buffer>, original: seq<nat>, total: nat, bytes: nat)
    requires total + bytes <= |original| && Covered(v) == original[total..] && (v != [] ==> 0 < v[|v| - 1].len)
    ensures var t := Trimmed(v, bytes);
            && Covered(t) == original[total + bytes..] && (t != [] ==> 0 < t[|t| - 1].len)
            && (NonEmpty(v) ==> NonEmpty(t)) && (t == [] <==> total + bytes == |original|)
  {
    TrimmedCovers(v, bytes);
    TrimmedKeeps(v, bytes);
    EmptyIff(Trimmed(v, bytes));
    assert original[total..][bytes..] == original[total + bytes..];
  }

  /** The read or write context of an overlapped operation. */
  class Transfer {
    const iovs: array<Buffer>
    var iov: nat
    var iovlen: nat
    var total: nat
    var minRecv: nat
    ghost var original: seq<nat>

    /** The vector that is left. */
    ghost function Vector(): seq<Buffer>
      reads this, iovs
      requires iov + iovlen <= iovs.Length
    {
      iovs[iov..iov + iovlen]
    }

    /** What is left is the rest of what was asked for. */
    ghost predicate Valid()
      reads this, iovs
    {
      && iov + iovlen <= iovs.Length
      && (iovlen != 0 ==> 0 < iovs[iov + iovlen - 1].len)
      && total <= |original| && Covered(Vector()) == original[total..]
    }

    /** MPIDU_Sock_post_readv and MPIDU_Sock_post_writev: trailing empty buffers are dropped. */
    constructor Post(iovs: array<Buffer>, n: nat, minRecv: nat)
      requires n <= iovs.Length
      ensures Valid() && this.iovs == iovs && this.minRecv == minRecv && iov == 0 && total == 0 && iovlen <= n
      ensures original == Covered(iovs[..n]) && iovs[..iovlen] == iovs[..n][..iovlen]
      ensures forall k :: iovlen <= k < n ==> iovs[k].len == 0
    {
      var m: nat := n;
      while m != 0 && iovs[m - 1].len == 0
        invariant m <= n && Covered(iovs[..m]) == Covered(iovs[..n])
        invariant forall k :: m <= k < n ==> iovs[k].len == 0
      {
        CoveredEnd(iovs[..m]);
        assert iovs[..m][..m - 1] == iovs[..m - 1];
        m := m - 1;
      }
      this.iovs, this.iov, iovlen, total, this.minRecv := iovs, 0, m, 0, minRecv;
      original := Covered(iovs[..n]);
      new;
      assert iovs[0..0 + m] == iovs[..m];
    }

    /** TrimIOV */
    method Trim(bytes: nat)
      requires iov + iovlen <= iovs.Length && bytes <= |Covered(Vector())|
      modifies this`iov, this`iovlen, iovs
      ensures iov + iovlen == old(iov + iovlen)
      ensures Vector() == Trimmed(old(Vector()), bytes)
    {
      var left: nat := bytes;
      while left != 0
        invariant iov + iovlen <= iovs.Length && iov + iovlen == old(iov + iovlen)
        invariant left <= |Covered(Vector())| && Trimmed(Vector(), left) == Trimmed(old(Vector()), bytes)
        decreases left, iovlen
      {
        left := TrimFirst(left);
      }
    }

    /** One round of TrimIOV: the first buffer is done, or what is left of it stays. */
    method TrimFirst(bytes: nat) returns (left: nat)
      requires iov + iovlen <= iovs.Length && 0 < bytes <= |Covered(Vector())|
      modifies this`iov, this`iovlen, iovs
      ensures iov + iovlen == old(iov + iovlen) && (left == 0 || left < bytes || (left == bytes && iovlen < old(iovlen)))
      ensures left <= |Covered(Vector())| && Trimmed(Vector(), left) == Trimmed(old(Vector()), bytes)
    {
      ghost var v := Vector();
      assert v[0] == iovs[iov];
      if iovs[iov].len <= bytes {
        iov, iovlen := iov + 1, iovlen - 1;
        left := bytes - iovs[iov - 1].len;
        assert Vector() == v[1..];
      } else {
        iovs[iov] := Buffer(iovs[iov].len - bytes, iovs[iov].buf + bytes);
        assert Vector() == [Buffer(v[0].len - bytes, v[0].buf + bytes)] + v[1..];
        left := 0;
      }
    }

    /** A completion of so many bytes. */
    method Advance(bytes: nat)
      requires Valid() && bytes <= |original| - total
      modifies this`iov, this`iovlen, this`total, iovs
      ensures Valid() && total == old(total) + bytes
      ensures NonEmpty(old(Vector())) ==> NonEmpty(Vector())
      ensures iovlen == 0 <==> total == |original|
    {
      ghost var v := Vector();
      assert v != [] ==> v[|v| - 1] == iovs[iov + iovlen - 1];
      Advanced(v, original, total, bytes);
      total := total + bytes;
      Trim(bytes);
      assert iovlen != 0 ==> Vector()[iovlen - 1] == iovs[iov + iovlen - 1];
    }

    /**
     WriteSucceeded: reports success exactly when every byte has been written; otherwise what
     is left is posted again, which may fail.
     */
    method WriteSucceeded(bytes: nat, refusals: nat, fails: bool) returns (out: Outcome, posted: seq<Buffer>)
      requires Valid() && bytes <= |original| - total
      modifies this`iov, this`iovlen, this`total, iovs
      ensures Valid() && total == old(total) + bytes
      ensures NonEmpty(old(Vector())) ==> NonEmpty(Vector())
      ensures out.Success? <==> total == |original|
      ensures out.Success? ==> out.bytes == |original| && posted == []
      ensures !out.Success? ==> out == (if fails then Failure else Pending) && Vector() != []
      ensures !out.Success? ==>
        var first := Vector()[0];
        posted == if refusals == 0 then Vector() else [Buffer(Shrunk(first.len, refusals), first.buf)]
    {
      Advance(bytes);
      if iovlen == 0 {
        return Success(total), [];
      }
      var ok;
      ok, posted := SafeSend(iovs, iov, iovlen, refusals, fails);
      assert Vector()[0] == iovs[iov];
      out := if ok then Pending else Failure;
    }

    /** ReadSucceeded: no bytes mean that the connection was closed; success as soon as enough has come. */
    method ReadSucceeded(bytes: nat, refusals: nat, fails: bool) returns (out: Outcome, posted: seq<Buffer>)
      requires Valid() && bytes <= |original| - total
      modifies this`iov, this`iovlen, this`total, iovs
      ensures Valid() && total == old(total) + bytes
      ensures NonEmpty(old(Vector())) ==> NonEmpty(Vector())
      ensures out == ConnectionClosed <==> bytes == 0
      ensures out.Success? <==> 0 < bytes && (total == |original| || minRecv <= total)
      ensures out.Success? ==> out.bytes == total
      ensures out.Success? || out.ConnectionClosed? ==> posted == []
      ensures out.Pending? || out.Failure? ==> out == (if fails then Failure else Pending) && Vector() != []
      ensures out.Pending? || out.Failure? ==>
        var first := Vector()[0];
        posted == [Buffer(Shrunk(Capped(first.len), refusals), first.buf)]
    {
      if bytes == 0 {
        return ConnectionClosed, [];
      }
      Advance(bytes);
      if iovlen == 0 || total >= minRecv {
        return Success(total), [];
      }
      var ok, first := SafeReceive(iovs, iov, refusals, fails);
      assert Vector()[0] == iovs[iov];
      out, posted := if ok then Pending else Failure, [first];
    }
  }
}
