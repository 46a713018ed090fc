/**
 What the affinity masks of a host say: how they are spelled, and that the hosts parser reads of a
 spelled list exactly the masks and groups it spells, and nothing of any other text.
 */
module HostMasks {
  import opened HostsParser

  /** Hex digits, behind 0x or not, and perhaps the decimal digits of a group. */
  datatype Spelling = Spelling(prefixed: bool, hex: string, group: Option<string>)

  predicate AllHex(t: string) { forall i :: 0 <= i < |t| ==> IsHex(t[i]) }

  predicate Legal(m: Spelling) {
    m.hex != "" && AllHex(m.hex) && (m.group.Some? ==> IsDigits(m.group.value))
  }

  function GroupText(group: Option<string>): string {
    if group.None? then "" else ":" + group.value
  }

  function MaskText(m: Spelling): string {
    (if m.prefixed then "0x" else "") + (m.hex + GroupText(m.group))
  }

  /** The mask in base 16, and the group in base 10 in 16 bits, 0 when there is none. */
  function Meaning(m: Spelling): Affinity
    requires Legal(m)
  {
    Affinity(Value(16, m.hex), if m.group.None? then 0 else Value(10, m.group.value) % 0x1_0000)
  }

  /** The text cannot be taken for more of the mask. */
  predicate CanFollow(m: Spelling, rest: string) {
    rest == ""
    || if m.group.Some? then !IsDigit(rest[0])
       else !IsHex(rest[0]) && rest[0] != ':' && (m == Spelling(false, "0", None) ==> rest[0] != 'x')
  }

  // ---- one mask ----------------------------------------------------------------------

  lemma PrefixIs(m: Spelling, rest: string)
    requires Legal(m) && CanFollow(m, rest)
    ensures SkipPrefix(MaskText(m) + rest) == m.hex + (GroupText(m.group) + rest)
  {
    var t, tail := MaskText(m) + rest, GroupText(m.group) + rest;
    if m.prefixed {
      assert t == "0x" + (m.hex + tail);
    } else {
      assert t == m.hex + tail;
      if |m.hex| == 1 {
        assert t[1..] == tail && (tail != "" ==> t[1] == tail[0]);
        assert tail != "" ==> tail[0] == if m.group.Some? then ':' else rest[0];
      } else {
        assert t[1] == m.hex[1];
      }
    }
  }

  lemma HexEnds(m: Spelling, rest: string)
    requires Legal(m) && CanFollow(m, rest)
    ensures var tail := GroupText(m.group) + rest;
            && Span(IsHex, m.hex + tail) == |m.hex| && Skip(IsHex, m.hex + tail) == tail
            && (m.hex + tail)[..|m.hex|] == m.hex
  {
    var tail := GroupText(m.group) + rest;
    assert m.group.Some? ==> tail[0] == ':';
    assert m.group.None? ==> tail == rest;
    SpanIs(IsHex, m.hex, tail);
  }

  lemma GroupEnds(digits: string, rest: string)
    requires IsDigits(digits) && (rest == "" || !IsDigit(rest[0]))
    ensures Span(IsDigit, digits + rest) == |digits| && Skip(IsDigit, digits + rest) == rest
    ensures (digits + rest)[..|digits|] == digits
  {
    SpanIs(IsDigit, digits, rest);
  }

  lemma MaskReads(m: Spelling, rest: string)
    requires Legal(m) && CanFollow(m, rest)
    ensures Mask(MaskText(m) + rest) == Some((Meaning(m), rest))
  {
    PrefixIs(m, rest);
    HexEnds(m, rest);
    if m.group.Some? {
      var tail := GroupText(m.group) + rest;
      assert tail[1..] == m.group.value + rest;
      GroupEnds(m.group.value, rest);
    } else {
      assert GroupText(m.group) + rest == rest;
    }
  }

  /** Whatever is read as a mask is spelled like one. */
  lemma MaskSpelled(t: string) returns (m: Spelling, rest: string)
    requires Mask(t).Some?
    ensures Legal(m) && CanFollow(m, rest) && t == MaskText(m) + rest
  {
    var u := SkipPrefix(t);
    var hex, v := MaskParts(t);
    var group;
    group, rest := GroupSpelled(v);
    m := Spelling(|u| < |t|, hex, group);
    PrefixSplit(t);
    SpanSplits(IsHex, u);
    Regroup(if m.prefixed then "0x" else "", hex, GroupText(group), rest);
    if m == Spelling(false, "0", None) && rest != "" {
      NotPrefix(t, rest);
    }
  }

  lemma MaskParts(t: string) returns (hex: string, v: string)
    requires Mask(t).Some?
    ensures var u := SkipPrefix(t);
            hex == u[..Span(IsHex, u)] && v == Skip(IsHex, u) && hex != "" && AllHex(hex) && (v == "" || !IsHex(v[0]))
    ensures Head(v) == ':' ==> Span(IsDigit, v[1..]) != 0
  {
    var u := SkipPrefix(t);
    hex, v := u[..Span(IsHex, u)], Skip(IsHex, u);
  }

  lemma PrefixSplit(t: string)
    ensures t == (if |SkipPrefix(t)| < |t| then "0x" else "") + SkipPrefix(t)
  {
  }

  lemma NotPrefix(t: string, rest: string)
    requires t == "0" + rest && rest != "" && SkipPrefix(t) == t
    ensures rest[0] != 'x'
  {
    assert t[0] == '0' && t[1] == rest[0];
  }

  lemma SpanSplits(kind: char -> bool, t: string)
    ensures t == t[..Span(kind, t)] + Skip(kind, t)
  {
    SliceJoins(t, Span(kind, t));
  }

  lemma SliceJoins(t: string, n: nat)
    requires n <= |t|
    ensures t == t[..n] + t[n..]
  {
  }

  lemma Regroup(a: string, b: string, c: string, d: string)
    ensures a + (b + (c + d)) == (a + (b + c)) + d
  {
  }

  /** What is behind the hex digits: a group, or none. */
  lemma GroupSpelled(v: string) returns (group: Option<string>, rest: string)
    requires Head(v) == ':' ==> Span(IsDigit, v[1..]) != 0
    ensures v == GroupText(group) + rest && (group.Some? ==> IsDigits(group.value) && (rest == "" || !IsDigit(rest[0])))
    ensures if Head(v) == ':' then group == Some(v[1..][..Span(IsDigit, v[1..])]) && rest == Skip(IsDigit, v[1..])
            else group == None && rest == v
  {
    if Head(v) == ':' {
      SpanSplits(IsDigit, v[1..]);
      group, rest := Some(v[1..][..Span(IsDigit, v[1..])]), Skip(IsDigit, v[1..]);
    } else {
      group, rest := None, v;
    }
  }

  // ---- a list of masks ---------------------------------------------------------------

  function MasksText(ms: seq<Spelling>): string {
    if ms == [] then "" else "," + (MaskText(ms[0]) + MasksText(ms[1..]))
  }

  predicate AllLegal(ms: seq<Spelling>) { forall k :: 0 <= k < |ms| ==> Legal(ms[k]) }

  /** A list of n masks, and a rest that is not part of the last. */
  predicate Spells(t: string, n: nat, ms: seq<Spelling>, rest: string) {
    && |ms| == n && AllLegal(ms) && t == MasksText(ms) + rest
    && (ms != [] ==> CanFollow(ms[|ms| - 1], rest))
  }

  /** The masks that are read, last first. */
  predicate AreMeant(read: seq<Affinity>, ms: seq<Spelling>)
    requires AllLegal(ms)
  {
    |read| == |ms| && forall k :: 0 <= k < |ms| ==> read[|ms| - 1 - k] == Meaning(ms[k])
  }

  lemma MeantMore(read: seq<Affinity>, ms: seq<Spelling>)
    requires ms != [] && AllLegal(ms) && AreMeant(read, ms[1..])
    ensures AreMeant(read + [Meaning(ms[0])], ms) == true
  {
    forall k | 0 <= k < |ms| ensures (read + [Meaning(ms[0])])[|ms| - 1 - k] == Meaning(ms[k]) {
      if k > 0 {
        assert ms[1..][k - 1] == ms[k];
      }
    }
  }

  lemma CommaFollows(m: Spelling, ms: seq<Spelling>, rest: string)
    requires ms != [] || CanFollow(m, rest)
    ensures CanFollow(m, MasksText(ms) + rest)
  {
    if ms == [] {
      assert MasksText(ms) + rest == rest;
    } else {
      assert (MasksText(ms) + rest)[0] == ',';
    }
  }

  /** A spelled list is read as what it spells, last mask first. */
  lemma {:induction false} MasksRead(t: string, ms: seq<Spelling>, rest: string)
    requires Spells(t, |ms|, ms, rest)
    ensures Masks(t, |ms|).Some? && AreMeant(Masks(t, |ms|).value, ms)
    decreases |ms|
  {
    if ms != [] {
      var more := FirstMask(t, ms, rest);
      MasksRead(more, ms[1..], rest);
      MeantMore(Masks(more, |ms| - 1).value, ms);
    }
  }

  /** The first mask of a list, and the list behind it. */
  lemma FirstMask(t: string, ms: seq<Spelling>, rest: string) returns (more: string)
    requires ms != [] && Spells(t, |ms|, ms, rest)
    ensures Head(t) == ',' && Mask(t[1..]) == Some((Meaning(ms[0]), more)) && Spells(more, |ms| - 1, ms[1..], rest) == true
  {
    more := MasksText(ms[1..]) + rest;
    ListIs(MaskText(ms[0]), MasksText(ms[1..]), rest);
    TailSpells(t, ms, rest);
    MaskReads(ms[0], more);
  }

  lemma TailSpells(t: string, ms: seq<Spelling>, rest: string)
    requires ms != [] && Spells(t, |ms|, ms, rest)
    ensures var more := MasksText(ms[1..]) + rest;
            Spells(more, |ms| - 1, ms[1..], rest) == true && CanFollow(ms[0], more) == true
  {
    CommaFollows(ms[0], ms[1..], rest);
  }

  lemma ListIs(mask: string, list: string, rest: string)
    ensures var t := ("," + (mask + list)) + rest;
            && t != "" && t[0] == ',' && t[1..] == mask + (list + rest) && t == "," + (mask + (list + rest))
  {
  }

  /** Whatever is read as a list of n masks is spelled like one. */
  lemma {:induction false} MasksSpelled(t: string, n: nat) returns (ms: seq<Spelling>, rest: string)
    requires Masks(t, n).Some?
    ensures Spells(t, n, ms, rest)
    decreases n
  {
    if n == 0 {
      ms, rest := [], t;
      assert t == "" + t;
    } else {
      var m, r := MaskSpelled(t[1..]);
      MaskReads(m, r);
      var more;
      more, rest := MasksSpelled(r, n - 1);
      ms := MaskBefore(t, m, r, n, more, rest);
    }
  }

  lemma MaskBefore(t: string, m: Spelling, r: string, n: nat, more: seq<Spelling>, rest: string) returns (ms: seq<Spelling>)
    requires 0 < n && Head(t) == ',' && t[1..] == MaskText(m) + r && Legal(m) && CanFollow(m, r)
    requires Spells(r, n - 1, more, rest)
    ensures Spells(t, n, ms, rest) == true
  {
    ms := [m] + more;
    assert ms[0] == m && ms[1..] == more;
    ListIs(MaskText(m), MasksText(more), rest);
    assert t == "," + t[1..];
    if more == [] {
      assert MasksText(more) + rest == rest;
    }
  }

  /** A host's masks are read exactly when they are spelled, and as what they spell. */
  lemma MasksIff(t: string, n: nat)
    ensures Masks(t, n).Some? <==> exists ms, rest :: Spells(t, n, ms, rest)
    ensures forall ms, rest :: Spells(t, n, ms, rest) ==> Masks(t, n).Some? && AreMeant(Masks(t, n).value, ms)
  {
    forall ms, rest | Spells(t, n, ms, rest) ensures Masks(t, n).Some? && AreMeant(Masks(t, n).value, ms) {
      MasksRead(t, ms, rest);
    }
    if Masks(t, n).Some? {
      var ms, rest := MasksSpelled(t, n);
    }
  }

  // ---- hex digits --------------------------------------------------------------------

  function HexChar(d: nat, upper: bool): char
    requires d < 16
  {
    if d < 10 then d as char + '0' else (d - 10) as char + if upper then 'A' else 'a'
  }

  /** A number in base 16, in capitals or not. */
  function Hexadecimal(n: nat, upper: bool): string {
    (if n < 16 then "" else Hexadecimal(n / 16, upper)) + [HexChar(n % 16, upper)]
  }

  lemma OneMoreHexDigit(s: string, d: nat, upper: bool)
    requires d < 16 && AllHex(s)
    ensures var t := s + [HexChar(d, upper)];
            AllHex(t) && Value(16, t) == 16 * Value(16, s) + d
  {
    var t := s + [HexChar(d, upper)];
    assert t[..|t| - 1] == s;
  }

  /** Hex digits read back as the number they are, with zeros in front or not. */
  lemma {:induction false} HexValue(n: nat, upper: bool, zeros: string)
    requires IsZeros(zeros)
    ensures AllHex(zeros + Hexadecimal(n, upper)) && Value(16, zeros + Hexadecimal(n, upper)) == n
    decreases n
  {
    var front := if n < 16 then "" else Hexadecimal(n / 16, upper);
    if n < 16 {
      ZerosValue(zeros);
      assert zeros + front == zeros;
    } else {
      HexValue(n / 16, upper, zeros);
    }
    OneMoreHexDigit(zeros + front, n % 16, upper);
    assert zeros + Hexadecimal(n, upper) == zeros + front + [HexChar(n % 16, upper)];
  }

  lemma {:induction false} ZerosValue(zeros: string)
    requires IsZeros(zeros)
    ensures AllHex(zeros) && Value(16, zeros) == 0
  {
    if zeros != "" {
      ZerosValue(zeros[..|zeros| - 1]);
    }
  }

  // ---- a host ------------------------------------------------------------------------

  /** A count and as many masks: the host has that many processes, and those masks, last first. */
  lemma CountedSpelled(name: string, digits: string, ms: seq<Spelling>)
    requires IsDigits(digits) && |digits| < DIGITS && Value(10, digits) == |ms| && ms != [] && AllLegal(ms)
    ensures var t := digits + MasksText(ms);
            && IsExplicit(t) && Counted(name, t).Some?
            && Counted(name, t).value.nproc == |ms| && AreMeant(Counted(name, t).value.affinity, ms)
  {
    var list := MasksText(ms);
    assert list[0] == ',';
    SpanIs(IsDigit, digits, list);
    assert (digits + list)[..|digits|] == digits;
    assert list == list + "";
    MasksRead(list, ms, "");
  }

  /** A plain count: that many processes, and no masks. */
  lemma CountedPlain(name: string, n: nat)
    ensures var t := Decimal(n);
            && IsCount(t) && !IsExplicit(t)
            && Counted(name, t) == if n < 1 then None else Some(Host(name, n, []))
  {
    DecimalValue(n);
    var t := Decimal(n);
    assert t + "" == t;
    SpanIs(IsDigit, t, "");
    assert Head(t) != '-';
  }
}
