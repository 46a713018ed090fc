/**
 How the lines of a machine file are spelled: which lines name a host, and what they say of it,
 which are passed over, and that every other line is bad.
 */
module MachineLines {
  import opened HostsParser
  import opened HostMasks
  import opened Machinefile
  import opened Sealing

  // ---- a count, with masks or without ------------------------------------------------

  predicate AllDigits(t: string) { forall i :: 0 <= i < |t| ==> IsDigit(t[i]) }

  /** A mask as it may stand in a file: nothing is missed there when its digits are. */
  predicate Loose(m: Spelling) {
    AllHex(m.hex) && (m.group.Some? ==> AllDigits(m.group.value))
  }

  predicate AllLoose(ms: seq<Spelling>) { forall k :: 0 <= k < |ms| ==> Loose(ms[k]) }

  /** Digits, and then any number of masks. */
  predicate FieldIs(f: string, digits: string, ms: seq<Spelling>) {
    AllDigits(digits) && AllLoose(ms) && f == digits + MasksText(ms)
  }

  ghost predicate IsField(f: string) { exists digits, ms :: FieldIs(f, digits, ms) }

  /** What ends a field: the end of the line, white space, a comment, or the next mask. */
  predicate Stops(t: string) { t == "" || IsSpace(t[0]) || t[0] == '#' || t[0] == ',' }

  /** What ends it for good. */
  predicate Over(t: string) { Stops(t) && Head(t) != ',' }

  lemma LoosePrefix(m: Spelling, rest: string)
    requires Loose(m) && Stops(rest)
    ensures SkipPrefix(MaskText(m) + rest) == m.hex + (GroupText(m.group) + rest)
  {
    var tail := GroupText(m.group) + rest;
    if m.prefixed {
      assert MaskText(m) + rest == "0x" + (m.hex + tail);
    } else {
      assert MaskText(m) + rest == m.hex + tail;
      NoX(m.hex, tail);
      assert tail != "" ==> tail[0] == if m.group.Some? then ':' else rest[0];
    }
  }

  /** Behind a hex digit there is an x only where the hex digits end. */
  lemma NoX(hex: string, tail: string)
    requires AllHex(hex) && (tail == "" || (tail[0] != 'x' && tail[0] != '0'))
    ensures SkipPrefix(hex + tail) == hex + tail
  {
    var t := hex + tail;
    if |t| >= 2 {
      assert t[0] == if hex == "" then tail[0] else hex[0];
      assert |hex| == 1 ==> t[1] == tail[0];
      assert |hex| > 1 ==> t[1] == hex[1];
    }
  }

  lemma LooseMask(m: Spelling, rest: string)
    requires Loose(m) && Stops(rest)
    ensures SkipMask(MaskText(m) + rest) == rest
  {
    var tail := GroupText(m.group) + rest;
    LoosePrefix(m, rest);
    if m.group.Some? {
      assert tail[0] == ':' && tail[1..] == m.group.value + rest;
      SpanIs(IsDigit, m.group.value, rest);
    } else {
      assert tail == rest;
    }
    SpanIs(IsHex, m.hex, tail);
  }

  lemma {:induction false} MasksSkipped(ms: seq<Spelling>, rest: string)
    requires AllLoose(ms) && Over(rest)
    ensures SkipMasks(MasksText(ms) + rest) == rest
    decreases |ms|
  {
    if ms == [] {
      assert MasksText(ms) + rest == rest;
    } else {
      var more := MasksText(ms[1..]) + rest;
      ListIs(MaskText(ms[0]), MasksText(ms[1..]), rest);
      assert ms[1..] != [] ==> more[0] == ',';
      assert ms[1..] == [] ==> more == rest;
      LooseMask(ms[0], more);
      MasksSkipped(ms[1..], rest);
    }
  }

  /** A field is passed over whole. */
  lemma FieldSkipped(f: string, rest: string)
    requires IsField(f) && Over(rest)
    ensures SkipMasks(Skip(IsDigit, f + rest)) == rest
  {
    var digits, ms :| FieldIs(f, digits, ms);
    var list := MasksText(ms);
    assert f + rest == digits + (list + rest);
    assert list != "" ==> (list + rest)[0] == ',';
    assert list == "" ==> list + rest == rest;
    SpanIs(IsDigit, digits, list + rest);
    MasksSkipped(ms, rest);
  }

  // ---- what is passed over is a field ------------------------------------------------

  lemma MaskSkips(t: string) returns (m: Spelling)
    ensures Loose(m) && t == MaskText(m) + SkipMask(t)
  {
    var u := SkipPrefix(t);
    var hex, v := HexSkips(t);
    PrefixSplit(t);
    var group, rest := GroupSkips(v);
    m := Spelling(|u| < |t|, hex, group);
    Regroup(if m.prefixed then "0x" else "", hex, GroupText(group), rest);
  }

  lemma HexSkips(t: string) returns (hex: string, v: string)
    ensures AllHex(hex) && SkipPrefix(t) == hex + v && SkipMask(t) == if Head(v) == ':' then Skip(IsDigit, v[1..]) else v
  {
    var u := SkipPrefix(t);
    hex, v := u[..Span(IsHex, u)], Skip(IsHex, u);
    SpanSplits(IsHex, u);
  }

  lemma GroupSkips(v: string) returns (group: Option<string>, rest: string)
    ensures v == GroupText(group) + rest && (group.Some? ==> AllDigits(group.value))
    ensures rest == if Head(v) == ':' then Skip(IsDigit, v[1..]) else v
  {
    if Head(v) == ':' {
      SpanSplits(IsDigit, v[1..]);
      group, rest := Some(v[1..][..Span(IsDigit, v[1..])]), Skip(IsDigit, v[1..]);
    } else {
      group, rest := None, v;
    }
  }

  lemma {:induction false} MasksSkip(t: string) returns (ms: seq<Spelling>)
    ensures AllLoose(ms) && t == MasksText(ms) + SkipMasks(t)
    decreases |t|
  {
    if Head(t) == ',' {
      var m := MaskSkips(t[1..]);
      var more := MasksSkip(SkipMask(t[1..]));
      ms := MaskInFront(t, m, more, SkipMasks(t));
    } else {
      ms := [];
      NoMasks(t);
      assert t == "" + t;
    }
  }

  lemma MaskInFront(t: string, m: Spelling, more: seq<Spelling>, rest: string) returns (ms: seq<Spelling>)
    requires Head(t) == ',' && Loose(m) && AllLoose(more) && t[1..] == MaskText(m) + (MasksText(more) + rest)
    ensures AllLoose(ms) && t == MasksText(ms) + rest
  {
    ms := [m] + more;
    assert ms[0] == m && ms[1..] == more;
    ListIs(MaskText(m), MasksText(more), rest);
    assert t == "," + t[1..];
  }

  lemma FieldSkips(r: string, e: string)
    requires e == SkipMasks(Skip(IsDigit, r)) && |e| <= |r|
    ensures IsField(r[..|r| - |e|])
  {
    var digits, s := r[..Span(IsDigit, r)], Skip(IsDigit, r);
    var ms := MasksSkip(s);
    SpanSplits(IsDigit, r);
    Cut(digits, MasksText(ms), e, r);
    assert FieldIs(r[..|r| - |e|], digits, ms);
  }

  lemma Cut(a: string, b: string, c: string, t: string)
    requires t == a + (b + c)
    ensures t[..|t| - |c|] == a + b
  {
  }

  // ---- lines -------------------------------------------------------------------------

  predicate Graphic(t: string) { forall i :: 0 <= i < |t| ==> IsGraph(t[i]) }

  /** White space, and a comment or none. */
  predicate Passed(t: string, lead: string, comment: string) {
    Blank(lead) && (comment == "" || comment[0] == '#') && t == lead + comment
  }

  /** A host as a line may name it. */
  ghost predicate Spelled(e: Entry) {
    && Blank(e.lead) && e.name != "" && Graphic(e.name) && e.name[0] != '#'
    && Blank(e.gap) && (e.gap == "" <==> e.field == "") && IsField(e.field)
  }

  /** The line of a host, white space, and a comment or none; the comment may not touch the name. */
  ghost predicate Names(t: string, e: Entry, w: string, comment: string) {
    && Spelled(e) && Blank(w) && (comment == "" || comment[0] == '#') && t == Kept(e) + w + comment
    && (e.field == "" && comment != "" ==> w != "")
  }

  lemma PassedIsNothing(t: string, lead: string, comment: string)
    requires Passed(t, lead, comment)
    ensures ReadLine(t) == Nothing
  {
    SpanIs(IsSpace, lead, comment);
  }

  lemma NothingIsPassed(t: string)
    requires ReadLine(t) == Nothing
    ensures exists lead, comment :: Passed(t, lead, comment)
  {
    SpanSplits(IsSpace, t);
    assert Passed(t, t[..Span(IsSpace, t)], Skip(IsSpace, t));
  }

  /** The parts of a line of a host that has a count. */
  lemma WholeParts(e: Entry, w: string, comment: string)
    ensures Kept(e) + w + comment == e.lead + (e.name + (e.gap + (e.field + (w + comment))))
  {
  }

  lemma FieldStarts(f: string, rest: string)
    requires IsField(f) && f != ""
    ensures (f + rest)[0] == f[0] && !IsSpace(f[0])
  {
    var digits, ms :| FieldIs(f, digits, ms);
    assert f[0] == if digits == "" then ',' else digits[0];
  }

  lemma TailOver(w: string, comment: string)
    requires Blank(w) && (comment == "" || comment[0] == '#')
    ensures Over(w + comment) && Span(IsSpace, w + comment) == |w| && Skip(IsSpace, w + comment) == comment
  {
    SpanIs(IsSpace, w, comment);
    assert w + comment != "" ==> (w + comment)[0] == if w == "" then comment[0] else w[0];
  }

  /** Where the pieces of a line begin. */
  lemma LeadEnds(lead: string, name: string, rest: string)
    requires Blank(lead) && name != "" && Graphic(name) && (rest == "" || IsSpace(rest[0]))
    ensures var (t, p) := (lead + (name + rest), name + rest);
            && Span(IsSpace, t) == |lead| && Skip(IsSpace, t) == p && p != "" && p[0] == name[0]
            && Span(IsGraph, p) == |name| && Skip(IsGraph, p) == rest
            && t[..|lead|] == lead && p[..|name|] == name
  {
    SpanIs(IsSpace, lead, name + rest);
    SpanIs(IsGraph, name, rest);
  }

  lemma NamesWhole(t: string, e: Entry, w: string, comment: string)
    requires Names(t, e, w, comment) && e.field != ""
    ensures ReadLine(t) == Data(e)
  {
    var tail := w + comment;
    var r := e.field + tail;
    var q := e.gap + r;
    WholeParts(e, w, comment);
    assert q[0] == e.gap[0];
    LeadEnds(e.lead, e.name, q);
    FieldStarts(e.field, tail);
    SpanIs(IsSpace, e.gap, r);
    TailOver(w, comment);
    FieldSkipped(e.field, tail);
    assert q[..|e.gap|] == e.gap && r[..|r| - |tail|] == e.field;
  }

  lemma NamesBare(t: string, e: Entry, w: string, comment: string)
    requires Names(t, e, w, comment) && e.field == ""
    ensures ReadLine(t) == Data(e)
  {
    var q := w + comment;
    BareParts(e, w, comment);
    assert q != "" ==> q[0] == w[0];
    LeadEnds(e.lead, e.name, q);
    TailOver(w, comment);
    NoFieldAt(comment);
  }

  lemma BareParts(e: Entry, w: string, comment: string)
    requires e.gap == "" && e.field == ""
    ensures Kept(e) + w + comment == e.lead + (e.name + (w + comment))
  {
    assert Kept(e) == e.lead + e.name;
  }

  lemma NoFieldAt(comment: string)
    requires comment == "" || comment[0] == '#'
    ensures Skip(IsDigit, comment) == comment && SkipMasks(comment) == comment && Skip(IsSpace, comment) == comment
  {
    SpanNone(IsDigit, comment);
    SpanNone(IsSpace, comment);
    NoMasks(comment);
  }

  lemma NoMasks(t: string)
    requires Head(t) != ','
    ensures SkipMasks(t) == t
  {
  }

  /** The places a line is read at. */
  lemma LineParts(t: string, e: Entry) returns (p: string, q: string, r: string, end: string, z: string)
    requires ReadLine(t) == Data(e)
    ensures Scanned(t, p, q, r, end, z, e) == true && (z == "" || z[0] == '#') && p != "" && p[0] != '#'
    ensures e.name == p[..Span(IsGraph, p)] && IsField(e.field)
  {
    p, q, r, end, z := LinePlaces(t, e);
    PlacesScanned(t, p, q, r, end, z, e);
    FieldSkips(r, end);
  }

  lemma LinePlaces(t: string, e: Entry) returns (p: string, q: string, r: string, end: string, z: string)
    requires ReadLine(t) == Data(e)
    ensures p == Skip(IsSpace, t) && q == Skip(IsGraph, p) && r == Skip(IsSpace, q)
    ensures end == SkipMasks(Skip(IsDigit, r)) && z == Skip(IsSpace, end) && |end| <= |r| && e == EntryOf(t, p, q, r, end)
    ensures p != "" && p[0] != '#' && (z == "" || z[0] == '#')
  {
    p := Skip(IsSpace, t);
    q := Skip(IsGraph, p);
    r := Skip(IsSpace, q);
    end := SkipMasks(Skip(IsDigit, r));
    z := Skip(IsSpace, end);
  }

  lemma PlacesScanned(t: string, p: string, q: string, r: string, end: string, z: string, e: Entry)
    requires p == Skip(IsSpace, t) && q == Skip(IsGraph, p) && r == Skip(IsSpace, q)
    requires end == SkipMasks(Skip(IsDigit, r)) && z == Skip(IsSpace, end) && |end| <= |r| && e == EntryOf(t, p, q, r, end)
    ensures Scanned(t, p, q, r, end, z, e) == true
  {
  }

  lemma DataNames(t: string, e: Entry)
    requires ReadLine(t) == Data(e)
    ensures exists w, comment :: Names(t, e, w, comment)
  {
    var p, q, r, end, z := LineParts(t, e);
    LineProper(t);
    var w := LineSplit(t, p, q, r, end, z, e);
    Touches(t, p, q, r, end, z, e, w);
    NameSpelled(e, p);
    assert Names(t, e, w, z);
  }

  lemma NameSpelled(e: Entry, p: string)
    requires Proper(e) && IsField(e.field) && p != "" && p[0] != '#' && e.name == p[..Span(IsGraph, p)]
    ensures Spelled(e) == true
  {
  }

  /** A comment that touched the name would be part of it. */
  lemma Touches(t: string, p: string, q: string, r: string, end: string, z: string, e: Entry, w: string)
    requires Scanned(t, p, q, r, end, z, e) == true && Proper(e) && Pieces(t, Kept(e), w, z)
    requires z == "" || z[0] == '#'
    ensures e.field == "" && z != "" ==> w != ""
  {
    if e.field == "" && z != "" {
      LeadSplit(t, p, q, r, end, z, e);
      assert Key(Parting, 0, 0);
      BareParts(e, w, z);
      SameTail(e.lead, e.name, q, w + z);
      NotGraphic(t, p, q, r, end, z, e);
      assert w == "" ==> w + z == z;
    }
  }

  lemma SameTail(lead: string, name: string, q: string, q': string)
    requires lead + (name + q) == lead + (name + q')
    ensures q == q'
  {
    assert (lead + (name + q))[|lead|..] == name + q && (lead + (name + q'))[|lead|..] == name + q';
    assert (name + q)[|name|..] == q && (name + q')[|name|..] == q';
  }

  lemma NotGraphic(t: string, p: string, q: string, r: string, end: string, z: string, e: Entry)
    requires Scanned(t, p, q, r, end, z, e) == true && z != "" && z[0] == '#'
    ensures q != z
  {
    assert Key(Scanning, 0, 0);
  }

  /** Which lines are passed over. */
  lemma NothingIff(t: string)
    ensures ReadLine(t) == Nothing <==> exists lead, comment :: Passed(t, lead, comment)
  {
    if lead, comment :| Passed(t, lead, comment) {
      PassedIsNothing(t, lead, comment);
    }
    if ReadLine(t) == Nothing {
      NothingIsPassed(t);
    }
  }

  /** Which lines name a host, and what they say of it; every other line is bad. */
  lemma DataIff(t: string, e: Entry)
    ensures ReadLine(t) == Data(e) <==> exists w, comment :: Names(t, e, w, comment)
  {
    if w, comment :| Names(t, e, w, comment) {
      if e.field == "" {
        NamesBare(t, e, w, comment);
      } else {
        NamesWhole(t, e, w, comment);
      }
    }
    if ReadLine(t) == Data(e) {
      DataNames(t, e);
    }
  }

  // ---- a file ------------------------------------------------------------------------

  function Read(lines: seq<string>): (ls: seq<Line>)
    ensures |ls| == |lines|
  {
    if lines == [] then [] else [ReadLine(lines[0])] + Read(lines[1..])
  }

  lemma {:induction false} ReadAt(lines: seq<string>, k: nat)
    requires k < |lines|
    ensures Read(lines)[k] == ReadLine(lines[k])
  {
    if k > 0 {
      ReadAt(lines[1..], k - 1);
    }
  }

  /** How many of the lines name a host. */
  function Hosting(ls: seq<Line>): nat {
    if ls == [] then 0 else (if ls[0].Data? then 1 else 0) + Hosting(ls[1..])
  }

  /** The entries of the lines that name a host, in order. */
  ghost predicate InOrder(es: seq<Entry>, ls: seq<Line>) {
    && |es| == Hosting(ls)
    && forall k :: 0 <= k < |ls| && ls[k].Data? ==> Hosting(ls[..k]) < |es| && es[Hosting(ls[..k])] == ls[k].entry
  }

  lemma InOrderOn(l: Line, es: seq<Entry>, ls: seq<Line>)
    requires InOrder(es, ls)
    ensures InOrder(if l.Data? then [l.entry] + es else es, [l] + ls) == true
  {
    var es', ls' := if l.Data? then [l.entry] + es else es, [l] + ls;
    assert ls'[1..] == ls;
    forall k | 0 <= k < |ls'| && ls'[k].Data?
      ensures Hosting(ls'[..k]) < |es'| && es'[Hosting(ls'[..k])] == ls'[k].entry
    {
      if k > 0 {
        assert ls'[..k][1..] == ls[..k - 1] && ls'[..k][0] == l;
        assert ls[k - 1] == ls'[k];
      } else {
        assert ls'[..0] == [];
      }
    }
  }

  ghost predicate AllGood(ls: seq<Line>) { forall k :: 0 <= k < |ls| ==> ls[k] != Bad }

  lemma GoodOn(l: Line, ls: seq<Line>)
    ensures AllGood([l] + ls) <==> l != Bad && AllGood(ls)
  {
    assert forall k :: 0 <= k < |ls| ==> ([l] + ls)[k + 1] == ls[k];
    if AllGood([l] + ls) {
      assert ([l] + ls)[0] == l;
    }
  }

  /** A file is read unless some line is bad, and its entries are those of the lines that name a host, in order. */
  lemma {:induction false} EntriesAre(lines: seq<string>)
    ensures Entries(lines).Some? <==> AllGood(Read(lines))
    ensures Entries(lines).Some? ==> InOrder(Entries(lines).value, Read(lines))
  {
    if lines != [] {
      EntriesAre(lines[1..]);
      var l, ls := ReadLine(lines[0]), Read(lines[1..]);
      EntriesOn(lines, l);
      GoodOn(l, ls);
      if Entries(lines[1..]).Some? {
        InOrderOn(l, Entries(lines[1..]).value, ls);
      }
    }
  }

  lemma EntriesOn(lines: seq<string>, l: Line)
    requires lines != [] && l == ReadLine(lines[0])
    ensures var more := Entries(lines[1..]);
            Entries(lines) == if l.Bad? || more.None? then None
                              else Some(if l.Data? then [l.entry] + more.value else more.value)
    ensures Read(lines) == [l] + Read(lines[1..])
  {
  }
}
