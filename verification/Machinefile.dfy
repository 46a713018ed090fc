/**
 read_machinefile puts the hosts of a machine file into one string, which mp_parse_hosts_string
 reads again (machinefile.cpp).
 */
module Machinefile {
  import opened HostsParser
  import opened Sealing

  // ------------------------------------------------------------ a line

  /** A line that names a host, as it is kept: its trailing white space and comment are gone. */
  datatype Entry = Entry(lead: string, name: string, gap: string, field: string)

  datatype Line = Nothing | Bad | Data(entry: Entry)

  function SkipMask(t: string): (r: string)
    ensures |r| <= |t|
  {
    var u := SkipHex(t);
    if Head(u) == ':' then Skip(IsDigit, u[1..]) else u
  }

  /** The masks of a line: what follows them. */
  function SkipMasks(t: string): (r: string)
    ensures |r| <= |t|
    decreases |t|
  {
    if Head(t) == ',' then SkipMasks(SkipMask(t[1..])) else t
  }

  /** Leading white space, a name, white space, a count with or without masks, white space, and perhaps a comment. */
  function ReadLine(t: string): Line {
    var p := Skip(IsSpace, t);
    if p == "" || p[0] == '#' then Nothing
    else
      var q := Skip(IsGraph, p);
      var r := Skip(IsSpace, q);
      var e := SkipMasks(Skip(IsDigit, r));
      var z := Skip(IsSpace, e);
      if z != "" && z[0] != '#' then Bad else Data(EntryOf(t, p, q, r, e))
  }

  function EntryOf(t: string, p: string, q: string, r: string, e: string): Entry
    requires |e| <= |r|
  {
    var field := r[..|r| - |e|];
    EntryFrom(t[..Span(IsSpace, t)], p[..Span(IsGraph, p)], q[..Span(IsSpace, q)], field)
  }

  function EntryFrom(lead: string, name: string, gap: string, field: string): Entry {
    Entry(lead, name, if field == "" then "" else gap, field)
  }

  function Kept(e: Entry): string { e.lead + e.name + e.gap + e.field }

  predicate Proper(e: Entry) {
    && Blank(e.lead) && Solid(e.name) && e.name != "" && Blank(e.gap) && Solid(e.field)
    && (e.gap == "" <==> e.field == "")
    && (e.field != "" ==> IsCount(e.field))
  }

  /** From t to its rest r there is no white space. */
  predicate Clear(t: string, r: string) {
    |r| <= |t| && r == t[|t| - |r|..] && forall i :: 0 <= i < |t| - |r| ==> !IsSpace(t[i])
  }

  lemma ClearThen(a: string, b: string, c: string)
    requires Clear(a, b) == true && Clear(b, c) == true
    ensures Clear(a, c) == true
  {
    forall i | 0 <= i < |a| - |c| ensures !IsSpace(a[i]) {
      if i >= |a| - |b| {
        assert a[i] == b[i - (|a| - |b|)];
      }
    }
    assert c == a[|a| - |b|..][|b| - |c|..];
  }

  lemma SpanClear(kind: char -> bool, t: string)
    requires forall c :: kind(c) ==> !IsSpace(c)
    ensures Clear(t, Skip(kind, t)) == true
  {
  }

  lemma MaskClear(t: string)
    ensures Clear(t, SkipMask(t)) == true
  {
    var u := SkipHex(t);
    HexClear(t);
    if Head(u) == ':' {
      assert Clear(u, u[1..]);
      SpanClear(IsDigit, u[1..]);
      ClearThen(t, u, u[1..]);
      ClearThen(t, u[1..], Skip(IsDigit, u[1..]));
    }
  }

  lemma HexClear(t: string)
    ensures Clear(t, SkipHex(t)) == true
  {
    var u := SkipPrefix(t);
    assert Clear(t, u);
    SpanClear(IsHex, u);
    ClearThen(t, u, Skip(IsHex, u));
  }

  /** The characters of a mask list are no white space, and a list begins with a comma. */
  lemma {:induction false} MasksClear(t: string)
    ensures Clear(t, SkipMasks(t)) == true
    ensures if Head(t) == ',' then |SkipMasks(t)| < |t| else SkipMasks(t) == t
    decreases |t|
  {
    if Head(t) == ',' {
      var v := CommaClear(t);
      MasksClear(v);
      ClearThen(t, v, SkipMasks(v));
    }
  }

  lemma CommaClear(t: string) returns (v: string)
    requires Head(t) == ','
    ensures v == SkipMask(t[1..]) && |v| < |t| && Clear(t, v) == true
  {
    var u := t[1..];
    v := SkipMask(u);
    MaskClear(u);
    ClearThen(t, u, v);
  }

  lemma FieldClear(r: string)
    ensures Clear(r, SkipMasks(Skip(IsDigit, r))) == true
  {
    SpanClear(IsDigit, r);
    MasksClear(Skip(IsDigit, r));
    ClearThen(r, Skip(IsDigit, r), SkipMasks(Skip(IsDigit, r)));
  }

  lemma FieldCounts(r: string, e: string)
    requires e == SkipMasks(Skip(IsDigit, r)) && |e| < |r|
    ensures IsCount(r[..|r| - |e|]) == true
  {
    var s := Skip(IsDigit, r);
    var n := Span(IsDigit, r);
    MasksClear(s);
    CountShape(r[..n], s[..|s| - |e|]);
    SliceTwo(r, n, |r| - |e|);
  }

  lemma SliceTwo(r: string, n: nat, m: nat)
    requires n <= m <= |r|
    ensures r[..m] == r[..n] + r[n..][..m - n]
  {
  }

  /** Digits, or digits and a comma and whatever comes then. */
  lemma CountShape(digits: string, masks: string)
    requires digits + masks != "" && forall i :: 0 <= i < |digits| ==> IsDigit(digits[i])
    requires masks == "" || masks[0] == ','
    ensures IsCount(digits + masks) == true
  {
    SpanIs(IsDigit, digits, masks);
    if masks == "" {
      NoMore(digits);
      DigitsCount(digits);
    }
  }

  lemma DigitsCount(t: string)
    requires IsDigits(t)
    ensures IsNumber(t)
  {
  }

  lemma LineProper(t: string)
    requires ReadLine(t).Data?
    ensures Proper(ReadLine(t).entry) == true
  {
    var p := Skip(IsSpace, t);
    var q := Skip(IsGraph, p);
    var r := Skip(IsSpace, q);
    var e := SkipMasks(Skip(IsDigit, r));
    LineShape(p, q, r, e);
    EntryProper(t, p, q, r, e);
  }

  /** A good line has a name, and white space before its count. */
  lemma LineShape(p: string, q: string, r: string, e: string)
    requires p != "" && !IsSpace(p[0]) && q == Skip(IsGraph, p) && r == Skip(IsSpace, q)
    requires e == SkipMasks(Skip(IsDigit, r)) && (Skip(IsSpace, e) == "" || Skip(IsSpace, e)[0] == '#')
    ensures 0 < Span(IsGraph, p) && Clear(r, e)
    ensures |e| < |r| ==> IsCount(r[..|r| - |e|]) && 0 < Span(IsSpace, q)
  {
    FieldClear(r);
    if |e| < |r| {
      FieldCounts(r, e);
    }
    if Span(IsGraph, p) == 0 {
      SpanNone(IsSpace, p);
      NoField(p);
      SpanNone(IsSpace, p);
    } else if Span(IsSpace, q) == 0 && r != "" {
      NoField(r);
    }
  }

  lemma SpanNone(kind: char -> bool, t: string)
    requires t == "" || !kind(t[0])
    ensures Span(kind, t) == 0 && Skip(kind, t) == t
  {
  }

  lemma EntryProper(t: string, p: string, q: string, r: string, e: string)
    requires 0 < Span(IsGraph, p) && Clear(r, e) == true
    requires |e| < |r| ==> IsCount(r[..|r| - |e|]) == true && 0 < Span(IsSpace, q)
    ensures Proper(EntryOf(t, p, q, r, e)) == true
  {
    SpanBlank(t);
    SpanBlank(q);
    SpanSolid(p);
    ClearSplit(r, e);
    ProperParts(t[..Span(IsSpace, t)], p[..Span(IsGraph, p)], q[..Span(IsSpace, q)], r[..|r| - |e|]);
  }

  lemma SpanBlank(t: string)
    ensures Blank(t[..Span(IsSpace, t)]) == true
  {
  }

  lemma SpanSolid(t: string)
    ensures Solid(t[..Span(IsGraph, t)]) == true
  {
  }

  lemma ProperParts(lead: string, name: string, gap: string, field: string)
    requires Blank(lead) == true && Solid(name) == true && name != "" && Blank(gap) == true && Solid(field) == true
    requires field != "" ==> IsCount(field) == true && gap != ""
    ensures Proper(EntryFrom(lead, name, gap, field)) == true
  {
  }

  /** Nothing is read of what begins neither like a count nor like white space. */
  lemma NoField(r: string)
    requires r != "" && !IsGraph(r[0])
    ensures SkipMasks(Skip(IsDigit, r)) == r
  {
    assert Span(IsDigit, r) == 0;
  }

  // ------------------------------------------------------------ a file

  /** The entries of the lines from the k-th on, unless one of them is bad. */
  function Entries(lines: seq<string>): Option<seq<Entry>> {
    if lines == [] then Some([])
    else
      var more := Entries(lines[1..]);
      match ReadLine(lines[0])
      case Bad => None
      case Nothing => more
      case Data(e) => if more.None? then None else Some([e] + more.value)
  }

  /** From the i-th name on: the entries, with one space and the next line's own between them. */
  function Onward(es: seq<Entry>, i: nat): string
    requires i < |es|
    decreases |es| - i, 1
  {
    es[i].name + if es[i].field == "" then Next(es, i) else es[i].gap + (es[i].field + Next(es, i))
  }

  /** What follows the i-th entry. */
  function Next(es: seq<Entry>, i: nat): string
    requires i < |es|
    decreases |es| - i, 0
  {
    if i + 1 == |es| then "" else (" " + es[i + 1].lead) + Onward(es, i + 1)
  }

  const X_SPACE: nat := 8

  function Spaces(n: nat): string { seq(n, _ => ' ') }

  /** The string: how many hosts there are, and the hosts. */
  function Text(es: seq<Entry>): string
    requires es != [] && |Decimal(|es|)| < X_SPACE
  {
    Decimal(|es|) + (Gap(es) + Onward(es, 0))
  }

  /** The white space between the number of hosts and the first name. */
  function Gap(es: seq<Entry>): string
    requires es != [] && |Decimal(|es|)| < X_SPACE
  {
    Spaces(X_SPACE - |Decimal(|es|)|) + es[0].lead
  }

  /** The arguments that the entries from the i-th on come to. */
  function Flat(es: seq<Entry>, i: nat): seq<string>
    requires i <= |es|
    decreases |es| - i
  {
    if i == |es| then []
    else [es[i].name] + (if es[i].field == "" then [] else [es[i].field]) + Flat(es, i + 1)
  }

  predicate AllProper(es: seq<Entry>) { forall k :: 0 <= k < |es| ==> Proper(es[k]) }

  ghost predicate Cuts(t: string, args: seq<string>) {
    forall z: int :: Key(Parting, 0, z) ==> Args(t) == args
  }

  lemma CutsOne(s: string)
    requires Solid(s)
    ensures Cuts(s, [s]) == true
  {
    LastArg(s);
  }

  lemma CutsMore(s: string, gap: string, rest: string, args: seq<string>)
    requires Solid(s) && Blank(gap) && gap != "" && (rest == "" || !IsSpace(rest[0])) && Cuts(rest, args) == true
    ensures Cuts(s + (gap + rest), [s] + args) == true
  {
    assert Key(Parting, 0, 0);
    ArgsOf(s, gap, rest);
  }

  lemma OnwardBegins(es: seq<Entry>, i: nat)
    requires i < |es| && Proper(es[i])
    ensures Onward(es, i) != "" && !IsSpace(Onward(es, i)[0])
  {
    assert Onward(es, i)[0] == es[i].name[0];
  }

  lemma {:induction false} OnwardCuts(es: seq<Entry>, i: nat)
    requires i < |es| && AllProper(es)
    ensures Cuts(Onward(es, i), Flat(es, i)) == true
    decreases |es| - i
  {
    var e := es[i];
    assert Proper(e);
    if i + 1 < |es| {
      assert Proper(es[i + 1]);
      OnwardCuts(es, i + 1);
      OnwardBegins(es, i + 1);
      EntryCuts(e, " " + es[i + 1].lead, Onward(es, i + 1), Flat(es, i + 1));
    } else {
      LastCuts(e);
    }
    FlatIs(es, i);
  }

  lemma FlatIs(es: seq<Entry>, i: nat)
    requires i < |es|
    ensures Flat(es, i) == if es[i].field == "" then [es[i].name] + Flat(es, i + 1)
                           else [es[i].name] + ([es[i].field] + Flat(es, i + 1))
  {
    assert [es[i].name] + [] == [es[i].name];
  }

  lemma EntryCuts(e: Entry, gap: string, rest: string, args: seq<string>)
    requires Proper(e) && Blank(gap) && gap != "" && rest != "" && !IsSpace(rest[0]) && Cuts(rest, args) == true
    ensures e.field == "" ==> Cuts(e.name + (gap + rest), [e.name] + args) == true
    ensures e.field != "" ==> Cuts(e.name + (e.gap + (e.field + (gap + rest))), [e.name] + ([e.field] + args)) == true
  {
    if e.field == "" {
      CutsMore(e.name, gap, rest, args);
    } else {
      CutsMore(e.field, gap, rest, args);
      var more := e.field + (gap + rest);
      assert more[0] == e.field[0];
      CutsMore(e.name, e.gap, more, [e.field] + args);
    }
  }

  lemma LastCuts(e: Entry)
    requires Proper(e)
    ensures e.field == "" ==> Cuts(e.name + "", [e.name] + []) == true
    ensures e.field != "" ==> Cuts(e.name + (e.gap + (e.field + "")), [e.name] + ([e.field] + [])) == true
  {
    NoMore(e.name);
    NoMore(e.field);
    if e.field == "" {
      CutsOne(e.name);
    } else {
      CutsOne(e.field);
      CutsMore(e.name, e.gap, e.field, [e.field]);
    }
  }

  lemma NoMore(s: string)
    ensures s + "" == s && [s] + [] == [s]
  {
  }

  /** What the string is cut into: the number of hosts, then name and count of each, in the order of the file. */
  lemma TextArgs(es: seq<Entry>)
    requires es != [] && AllProper(es) && |Decimal(|es|)| < X_SPACE
    ensures Args(Text(es)) == [Decimal(|es|)] + Flat(es, 0)
  {
    assert Proper(es[0]);
    OnwardCuts(es, 0);
    OnwardBegins(es, 0);
    CountSolid(|es|);
    assert Gap(es)[0] == ' ';
    CutsMore(Decimal(|es|), Gap(es), Onward(es, 0), Flat(es, 0));
    assert Key(Parting, 0, 0);
  }

  lemma CountSolid(n: nat)
    ensures Solid(Decimal(n))
  {
    DecimalValue(n);
  }

  // ------------------------------------------------------------ the routine

  /** How many calls of fgetws with a buffer of 128 a line takes. */
  function Calls(line: string): nat { (|line| + 126) / 127 }

  /** machinefile_size */
  function FileSize(lines: seq<string>): nat {
    if lines == [] then 3 else 128 * Calls(lines[0]) + FileSize(lines[1..])
  }

  /** What fgetws returns: never nothing, and no terminators. */
  predicate IsFile(lines: seq<string>) {
    forall k :: 0 <= k < |lines| ==> lines[k] != "" && '\0' !in lines[k]
  }

  function Room(lines: seq<string>): nat {
    if lines == [] then 0 else |lines[0]| + 1 + Room(lines[1..])
  }

  lemma {:induction false} SizeIsRoom(lines: seq<string>)
    requires IsFile(lines)
    ensures Room(lines) + 3 <= FileSize(lines)
  {
    if lines != [] {
      SizeIsRoom(lines[1..]);
    }
  }

  /** The kept lines, each with a space behind it. */
  function Body(es: seq<Entry>): string {
    if es == [] then "" else Body(es[..|es| - 1]) + Kept(es[|es| - 1]) + " "
  }

  lemma Assoc(a: string, b: string, c: string)
    ensures a + b + c == a + (b + c)
  {
  }

  lemma {:induction false} BodyOn(es: seq<Entry>, i: nat)
    requires i < |es| && AllProper(es)
    ensures Body(es) == Body(es[..i]) + es[i].lead + Onward(es, i) + " "
    decreases |es| - i
  {
    var e := es[i];
    assert Proper(e);
    assert es[..i + 1][..i] == es[..i];
    assert Body(es[..i + 1]) == Body(es[..i]) + Kept(e) + " ";
    if i + 1 < |es| {
      BodyOn(es, i + 1);
      KeptOn(e, Body(es[..i]), es[i + 1].lead, Onward(es, i + 1));
    } else {
      assert es[..i + 1] == es;
      KeptLast(e, Body(es[..i]));
    }
  }

  lemma KeptOn(e: Entry, before: string, lead: string, rest: string)
    requires Proper(e)
    ensures before + Kept(e) + " " + lead + rest
         == before + e.lead + (e.name + if e.field == "" then (" " + lead) + rest else e.gap + (e.field + ((" " + lead) + rest)))
  {
    var next := (" " + lead) + rest;
    assert before + Kept(e) + " " + lead + rest == before + Kept(e) + next;
    assert before + Kept(e) + next == before + e.lead + (e.name + (e.gap + (e.field + next)));
    if e.field == "" {
      assert e.gap + (e.field + next) == next;
    }
  }

  lemma KeptLast(e: Entry, before: string)
    requires Proper(e)
    ensures before + Kept(e) == before + e.lead + (e.name + if e.field == "" then "" else e.gap + (e.field + ""))
  {
    if e.field == "" {
      assert Kept(e) == e.lead + (e.name + "");
    } else {
      assert Kept(e) == e.lead + (e.name + (e.gap + (e.field + "")));
    }
    Assoc(before, e.lead, e.name + if e.field == "" then "" else e.gap + (e.field + ""));
  }

  // ---- scanning a line -----------------------------------------------------------------

  /** The loop over the masks of a line. */
  method PassMasks(t: string) returns (r: string)
    ensures r == SkipMasks(t)
  {
    r := t;
    while Head(r) == ','
      invariant SkipMasks(r) == SkipMasks(t)
      decreases |r|
    {
      r := r[1..];
      if r != "" {
        r := SkipHex(r);
        if Head(r) == ':' {
          r := r[1..];
          if r != "" {
            r := Skip(IsDigit, r);
          }
        }
      }
    }
  }

  datatype Scan = Pass | Fail | Keep(len: nat)

  /** What is to be kept of a line. */
  method ScanLine(t: string) returns (s: Scan)
    ensures s == match ReadLine(t) case Nothing => Pass case Bad => Fail case Data(e) => Keep(|Kept(e)|)
    ensures ReadLine(t).Data? ==> Kept(ReadLine(t).entry) <= t
  {
    var p := Skip(IsSpace, t);
    if p == "" || p[0] == '#' {
      return Pass;
    }
    var q := Skip(IsGraph, p);
    var r := Skip(IsSpace, q);
    var e := PassMasks(Skip(IsDigit, r));
    var z := Skip(IsSpace, e);
    if z != "" && z[0] != '#' {
      return Fail;
    }
    ghost var en := ReadLine(t).entry;
    LineProper(t);
    ghost var w := LineSplit(t, p, q, r, e, z, en);
    var n := TrimEnd(t, |t| - |z|, Kept(en), w, z);
    return Keep(n);
  }

  ghost predicate Joins(t: string, a: string, b: string) {
    forall z: int :: Key(Parting, 0, z) ==> t == a + b
  }

  lemma SpanSplit(kind: char -> bool, t: string)
    ensures Joins(t, t[..Span(kind, t)], Skip(kind, t)) == true
  {
    SliceSplit(t, Span(kind, t));
  }

  lemma SliceSplit(t: string, n: nat)
    requires n <= |t|
    ensures Joins(t, t[..n], t[n..]) == true
  {
  }

  lemma ClearSplit(r: string, e: string)
    requires Clear(r, e) == true
    ensures Joins(r, r[..|r| - |e|], e) == true && Solid(r[..|r| - |e|])
  {
    SliceSplit(r, |r| - |e|);
  }

  /** The pieces of a good line: what is kept, white space, and the comment. */
  ghost predicate Pieces(t: string, k: string, w: string, z: string) {
    t == k + w + z && Blank(w) && k != "" && !IsSpace(k[|k| - 1])
  }

  /** A line, where its name, the white space behind that, its count and the white space behind that begin, and where they end. */
  ghost predicate Scanned(t: string, p: string, q: string, r: string, e: string, z: string, en: Entry) {
    forall k: int :: Key(Scanning, 0, k) ==>
      && p == Skip(IsSpace, t) && q == Skip(IsGraph, p) && r == Skip(IsSpace, q)
      && e == SkipMasks(Skip(IsDigit, r)) && z == Skip(IsSpace, e)
      && |e| <= |r| && en == EntryOf(t, p, q, r, e)
  }

  lemma LeadSplit(t: string, p: string, q: string, r: string, e: string, z: string, en: Entry)
    requires Scanned(t, p, q, r, e, z, en) == true
    ensures Joins(t, en.lead, p) == true && Joins(p, en.name, q) == true
  {
    assert Key(Scanning, 0, 0);
    SpanSplit(IsSpace, t);
    SpanSplit(IsGraph, p);
  }

  lemma GapSplit(t: string, p: string, q: string, r: string, e: string, z: string, en: Entry) returns (gap: string, end: string)
    requires Scanned(t, p, q, r, e, z, en) == true
    ensures Joins(q, gap, r) == true && Joins(e, end, z) == true && Blank(gap) && Blank(end)
    ensures en.gap == (if en.field == "" then "" else gap) && (r == "" || !IsSpace(r[0]))
  {
    assert Key(Scanning, 0, 0);
    SpanSplit(IsSpace, q);
    SpanSplit(IsSpace, e);
    gap, end := q[..Span(IsSpace, q)], e[..Span(IsSpace, e)];
  }

  lemma FieldSplit(t: string, p: string, q: string, r: string, e: string, z: string, en: Entry)
    requires Scanned(t, p, q, r, e, z, en) == true
    ensures Joins(r, en.field, e) == true
  {
    assert Key(Scanning, 0, 0);
    FieldClear(r);
    ClearSplit(r, e);
  }

  lemma LineSplit(t: string, p: string, q: string, r: string, e: string, z: string, en: Entry) returns (w: string)
    requires Scanned(t, p, q, r, e, z, en) == true && Proper(en) == true
    ensures Pieces(t, Kept(en), w, z) == true
  {
    LeadSplit(t, p, q, r, e, z, en);
    FieldSplit(t, p, q, r, e, z, en);
    var gap, end := GapSplit(t, p, q, r, e, z, en);
    w := SplitPieces(t, p, q, r, e, z, en, gap, end);
  }

  lemma SplitPieces(t: string, p: string, q: string, r: string, e: string, z: string, en: Entry, gap: string, end: string)
    returns (w: string)
    requires Joins(t, en.lead, p) == true && Joins(p, en.name, q) == true && Joins(q, gap, r) == true
    requires Joins(r, en.field, e) == true && Joins(e, end, z) == true
    requires en.gap == (if en.field == "" then "" else gap) && Blank(gap) && Blank(end) && Proper(en) == true
    requires r == "" || !IsSpace(r[0])
    ensures Pieces(t, Kept(en), w, z) == true
  {
    assert Key(Parting, 0, 0);
    w := if en.field == "" then gap else end;
    if en.field == "" {
      Front(end, z, r);
      KeptBare(en.lead, en.name, gap, z);
    } else {
      KeptWhole(en.lead, en.name, gap, en.field, end, z);
    }
  }

  /** White space in front of what begins with none is none. */
  lemma Front(end: string, z: string, r: string)
    requires r == "" + (end + z) && Blank(end) && (r == "" || !IsSpace(r[0]))
    ensures end == "" && r == z
  {
    assert "" + (end + z) == end + z;
    FrontIs(end, z);
    assert end == "" ==> end + z == z;
  }

  lemma FrontIs(end: string, z: string)
    ensures end != "" ==> end + z != "" && (end + z)[0] == end[0]
  {
  }

  lemma KeptBare(lead: string, name: string, gap: string, z: string)
    requires name != "" && Solid(name)
    ensures lead + (name + (gap + z)) == lead + name + "" + "" + gap + z
    ensures var k := lead + name + "" + ""; k != "" && !IsSpace(k[|k| - 1])
  {
    var k := lead + name + "" + "";
    assert k == lead + name;
    assert k[|k| - 1] == name[|name| - 1];
  }

  lemma KeptWhole(lead: string, name: string, gap: string, field: string, w: string, z: string)
    requires field != "" && Solid(field)
    ensures lead + (name + (gap + (field + (w + z)))) == lead + name + gap + field + w + z
    ensures var k := lead + name + gap + field; k != "" && !IsSpace(k[|k| - 1])
  {
    var k := lead + name + gap + field;
    assert k[|k| - 1] == field[|field| - 1];
  }

  /** The white space at the end of a line is cut off. */
  method TrimEnd(t: string, end: nat, ghost k: string, ghost w: string, ghost z: string) returns (n: nat)
    requires Pieces(t, k, w, z) == true && end == |t| - |z|
    ensures n == |k| && k == t[..n]
  {
    n := end;
    assert t[|k| - 1] == k[|k| - 1];
    while IsSpace(t[n - 1])
      invariant |k| <= n <= end
      decreases n
    {
      n := n - 1;
    }
    NotBlank(t, k, w, z, n);
  }

  lemma NotBlank(t: string, k: string, w: string, z: string, n: nat)
    requires t == k + w + z && Blank(w) && |k| <= n <= |k| + |w|
    ensures |k| < n ==> IsSpace(t[n - 1])
  {
    if |k| < n {
      assert t[n - 1] == w[n - 1 - |k|];
    }
  }

  // ---- read_machinefile ----------------------------------------------------------------

  /** The entries read so far, and then those of the other lines. */
  function AfterLines(es: seq<Entry>, rest: Option<seq<Entry>>): Option<seq<Entry>> {
    if rest.None? then None else Some(es + rest.value)
  }

  lemma {:induction false} EntriesProper(lines: seq<string>)
    ensures Entries(lines).Some? ==> AllProper(Entries(lines).value) == true && |Entries(lines).value| <= |lines|
  {
    if lines != [] {
      EntriesProper(lines[1..]);
      if ReadLine(lines[0]).Data? && Entries(lines[1..]).Some? {
        LineProper(lines[0]);
        ProperOn(ReadLine(lines[0]).entry, Entries(lines[1..]).value);
      }
    }
  }

  lemma ProperOn(e: Entry, es: seq<Entry>)
    requires Proper(e) == true && AllProper(es) == true
    ensures AllProper([e] + es) == true
  {
  }

  function Pow10(d: nat): nat { if d == 0 then 1 else 10 * Pow10(d - 1) }

  lemma {:induction false} DecimalShort(n: nat, d: nat)
    requires n < Pow10(d) && 0 < d
    ensures |Decimal(n)| <= d
    decreases d
  {
    if n >= 10 {
      DecimalShort(n / 10, d - 1);
    }
  }

  const MANY: nat := 10_000_000

  lemma FewDigits(n: nat)
    requires n < MANY
    ensures |Decimal(n)| < X_SPACE
  {
    assert Pow10(3) == 1000;
    assert Pow10(5) == 100_000;
    assert Pow10(7) == MANY;
    DecimalShort(n, 7);
  }

  /** Copies a line to place `at`, as fgetws does. */
  method PutLine(hosts: array<char>, at: nat, t: string)
    requires at + |t| < hosts.Length
    modifies hosts
    ensures hosts[..at] == old(hosts[..at]) && hosts[at..at + |t|] == t && hosts[at + |t|] == '\0'
  {
    for i := 0 to |t|
      invariant hosts[..at] == old(hosts[..at]) && hosts[at..at + i] == t[..i]
    {
      hosts[at + i] := t[i];
    }
    hosts[at + |t|] := '\0';
  }

  /** Keeps the first n characters of the line at `line`, and puts a space behind them. */
  method KeepLine(hosts: array<char>, line: nat, t: string, n: nat) returns (end: nat)
    requires n < hosts.Length - line && line + |t| < hosts.Length && n <= |t|
    requires hosts[line..line + |t|] == t
    modifies hosts
    ensures end == line + n + 1 && hosts[..end] == old(hosts[..line]) + t[..n] + " "
  {
    Prefix(hosts, line, t, n);
    hosts[line + n] := ' ';
    end := line + n + 1;
    assert hosts[..end] == hosts[..line + n] + [' '];
  }

  lemma Prefix(hosts: array<char>, line: nat, t: string, n: nat)
    requires line + |t| <= hosts.Length && hosts[line..line + |t|] == t && n <= |t|
    ensures hosts[..line + n] == hosts[..line] + t[..n]
  {
    forall k | 0 <= k < n ensures hosts[line + k] == t[k] {
      assert hosts[line..line + |t|][k] == t[k];
    }
  }

  method NewBuffer(size: nat) returns (hosts: array<char>)
    requires X_SPACE <= size
    ensures fresh(hosts) && hosts.Length == size && Holds(hosts, X_SPACE, [])
  {
    hosts := new char[size](_ => ' ');
    assert Body([]) == "";
    forall k | 0 <= k < X_SPACE ensures hosts[..X_SPACE][k] == ' ' {
      assert hosts[k] == ' ';
    }
  }

  /** What the buffer holds behind the eight spaces. */
  ghost predicate Holds(hosts: array<char>, line: nat, es: seq<Entry>)
    reads hosts
  {
    X_SPACE <= line <= hosts.Length && hosts[..line] == Spaces(X_SPACE) + Body(es) && '\0' !in hosts[..line]
  }

  /** One line of the file, read to where the last one kept has ended. */
  method ReadOne(hosts: array<char>, line: nat, t: string, ghost es: seq<Entry>)
    returns (s: Scan, end: nat, ghost es': seq<Entry>)
    requires Holds(hosts, line, es) == true && line + |t| < hosts.Length && '\0' !in t
    modifies hosts
    ensures s == match ReadLine(t) case Nothing => Pass case Bad => Fail case Data(e) => Keep(|Kept(e)|)
    ensures es' == if ReadLine(t).Data? then es + [ReadLine(t).entry] else es
    ensures Holds(hosts, end, es') == true && end <= line + |t| + 1
  {
    end, es' := line, es;
    PutLine(hosts, line, t);
    s := ScanLine(t);
    if s.Keep? {
      ghost var e := ReadLine(t).entry;
      end := KeepLine(hosts, line, t, s.len);
      es' := es + [e];
      BodyMore(es, e);
      assert t[..s.len] == Kept(e);
      Append(Spaces(X_SPACE), Body(es), Kept(e));
    }
  }

  lemma BodyMore(es: seq<Entry>, e: Entry)
    ensures Body(es + [e]) == Body(es) + Kept(e) + " "
  {
    assert (es + [e])[..|es|] == es;
  }

  lemma Append(a: string, b: string, c: string)
    ensures a + b + c + " " == a + (b + c + " ")
  {
  }

  /** The count of the hosts goes over the first spaces. */
  method PutCount(hosts: array<char>, n: nat)
    requires |Decimal(n)| < X_SPACE <= hosts.Length && hosts[..X_SPACE] == Spaces(X_SPACE)
    modifies hosts
    ensures hosts[..X_SPACE] == Decimal(n) + Spaces(X_SPACE - |Decimal(n)|)
    ensures hosts[X_SPACE..] == old(hosts[X_SPACE..])
  {
    var d := Decimal(n);
    for i := 0 to |d|
      invariant hosts[..i] == d[..i]
      invariant forall k :: i <= k < X_SPACE ==> hosts[k] == ' '
      invariant hosts[X_SPACE..] == old(hosts[X_SPACE..])
    {
      hosts[i] := d[i];
    }
    hosts[|d|] := '\0';
    hosts[|d|] := ' ';
    assert d[..|d|] == d;
    assert hosts[..X_SPACE] == hosts[..|d|] + hosts[|d|..X_SPACE];
  }

  /** read_machinefile: the string of the file's hosts, or nothing when a line is bad or there is no host. */
  method ReadMachinefile(lines: seq<string>) returns (hosts: array<char>, n: int)
    requires IsFile(lines) && |lines| < MANY && FileSize(lines) <= 0x7fff_ffff
    ensures n >= 0 <==> Entries(lines).Some? && Entries(lines).value != []
    ensures n >= 0 ==>
      var es := Entries(lines).value;
      AllProper(es) && |Decimal(|es|)| < X_SPACE && n < hosts.Length && hosts[..n] == Text(es)
    ensures n >= 0 ==> n < hosts.Length && hosts[n] == '\0' && '\0' !in hosts[..n]
    ensures fresh(hosts)
  {
    SizeIsRoom(lines);
    EntriesProper(lines);
    hosts := NewBuffer(FileSize(lines) + X_SPACE);
    ReadingBegins(lines);
    var ok, line, nhosts;
    ghost var es;
    ok, line, nhosts, es := ReadLines(hosts, lines);
    if !ok || nhosts == 0 {
      return hosts, -1;
    }
    n := Finish(hosts, line, nhosts, es);
  }

  /** The loop over the lines of the file. */
  method ReadLines(hosts: array<char>, lines: seq<string>) returns (ok: bool, line: nat, nhosts: nat, ghost es: seq<Entry>)
    requires IsFile(lines) && Holds(hosts, X_SPACE, []) == true && Reading(lines, 0, [], hosts.Length - X_SPACE) == true
    modifies hosts
    ensures ok ==> Entries(lines) == Some(es) && Holds(hosts, line, es) == true && nhosts == |es|
    ensures !ok ==> Entries(lines) == None
  {
    line, nhosts, es := X_SPACE, 0, [];
    for k := 0 to |lines|
      invariant Holds(hosts, line, es) == true && nhosts == |es|
      invariant Reading(lines, k, es, hosts.Length - line) == true
    {
      RoomFor(lines, k, es, hosts.Length - line);
      ghost var before, left := es, hosts.Length - line;
      var s;
      s, line, es := ReadOne(hosts, line, lines[k], es);
      ReadingGoesOn(lines, k, before, left, es, hosts.Length - line);
      if s.Fail? {
        return false, line, nhosts, es;
      }
      if s.Keep? {
        nhosts := nhosts + 1;
      }
    }
    ReadingEnds(lines, es, hosts.Length - line);
    ok := true;
  }

  /** The first k lines have been read, and there is room for the others. */
  ghost predicate Reading(lines: seq<string>, k: nat, es: seq<Entry>, left: int) {
    forall z: int :: Key(Scanning, 1, z) ==>
      k <= |lines| && Room(lines[k..]) + 3 <= left && AfterLines(es, Entries(lines[k..])) == Entries(lines)
  }

  lemma ReadingBegins(lines: seq<string>)
    requires Room(lines) + 3 <= FileSize(lines)
    ensures Reading(lines, 0, [], FileSize(lines)) == true
  {
    assert lines[0..] == lines;
    if Entries(lines).Some? {
      assert [] + Entries(lines).value == Entries(lines).value;
    }
  }

  lemma RoomFor(lines: seq<string>, k: nat, es: seq<Entry>, left: int)
    requires k < |lines| && Reading(lines, k, es, left) == true
    ensures |lines[k]| < left
  {
    assert Key(Scanning, 1, 0);
    LinesOn(lines, k, es);
  }

  lemma ReadingGoesOn(lines: seq<string>, k: nat, es: seq<Entry>, left: int, es': seq<Entry>, left': int)
    requires k < |lines| && Reading(lines, k, es, left) == true && left - |lines[k]| - 1 <= left'
    requires es' == if ReadLine(lines[k]).Data? then es + [ReadLine(lines[k]).entry] else es
    ensures ReadLine(lines[k]).Bad? ==> Entries(lines).None?
    ensures !ReadLine(lines[k]).Bad? ==> Reading(lines, k + 1, es', left') == true
  {
    assert Key(Scanning, 1, 0);
    LinesOn(lines, k, es);
  }

  lemma ReadingEnds(lines: seq<string>, es: seq<Entry>, left: int)
    requires Reading(lines, |lines|, es, left) == true
    ensures Entries(lines) == Some(es)
  {
    assert Key(Scanning, 1, 0);
    assert lines[|lines|..] == [] && es + [] == es;
  }

  lemma LinesOn(lines: seq<string>, k: nat, es: seq<Entry>)
    requires k < |lines|
    ensures Room(lines[k..]) == |lines[k]| + 1 + Room(lines[k + 1..])
    ensures ReadLine(lines[k]).Bad? ==> Entries(lines[k..]).None?
    ensures ReadLine(lines[k]).Nothing? ==> Entries(lines[k..]) == Entries(lines[k + 1..])
    ensures ReadLine(lines[k]).Data? ==>
      AfterLines(es, Entries(lines[k..])) == AfterLines(es + [ReadLine(lines[k]).entry], Entries(lines[k + 1..]))
  {
    assert lines[k..][1..] == lines[k + 1..] && lines[k..][0] == lines[k];
    if ReadLine(lines[k]).Data? && Entries(lines[k + 1..]).Some? {
      var e := ReadLine(lines[k]).entry;
      assert es + ([e] + Entries(lines[k + 1..]).value) == es + [e] + Entries(lines[k + 1..]).value;
    }
  }

  method Finish(hosts: array<char>, line: nat, nhosts: nat, ghost es: seq<Entry>) returns (n: int)
    requires Holds(hosts, line, es) == true && nhosts == |es| && 0 < nhosts < MANY && AllProper(es)
    modifies hosts
    ensures |Decimal(|es|)| < X_SPACE && 0 <= n < hosts.Length && hosts[..n] == Text(es)
    ensures hosts[n] == '\0' && '\0' !in hosts[..n]
  {
    FewDigits(nhosts);
    BodyAll(es);
    var end := line - 1;
    TextIs(es, es[0].lead, Onward(es, 0), hosts[..line]);
    ghost var rest := hosts[X_SPACE..end];
    Close(hosts, nhosts, end, rest);
    NoneIn(Decimal(nhosts), X_SPACE - |Decimal(nhosts)|);
    n := end;
  }

  /** The end of the string, and the count in front of it. */
  method Close(hosts: array<char>, nhosts: nat, end: nat, ghost rest: string)
    requires |Decimal(nhosts)| < X_SPACE <= end < hosts.Length
    requires hosts[..X_SPACE] == Spaces(X_SPACE) && rest == hosts[X_SPACE..end]
    modifies hosts
    ensures hosts[end] == '\0'
    ensures hosts[..end] == (Decimal(nhosts) + Spaces(X_SPACE - |Decimal(nhosts)|)) + rest
  {
    hosts[end] := '\0';
    assert rest == hosts[X_SPACE..][..end - X_SPACE] && hosts[X_SPACE..][end - X_SPACE] == '\0';
    PutCount(hosts, nhosts);
    assert hosts[X_SPACE..end] == hosts[X_SPACE..][..end - X_SPACE];
    assert hosts[..end] == hosts[..X_SPACE] + hosts[X_SPACE..end];
  }

  lemma NoneIn(d: string, n: nat)
    ensures '\0' !in Spaces(n)
    ensures (exists k: nat :: d == Decimal(k)) ==> '\0' !in d
  {
    if k: nat :| d == Decimal(k) {
      DecimalValue(k);
    }
  }

  lemma BodyAll(es: seq<Entry>)
    requires es != [] && AllProper(es)
    ensures Body(es) == (es[0].lead + Onward(es, 0)) + " "
  {
    BodyOn(es, 0);
    assert es[..0] == [] && "" + es[0].lead == es[0].lead;
  }

  /** The buffer without its last space, and with the count in front. */
  lemma TextIs(es: seq<Entry>, lead: string, rest: string, t: string)
    requires es != [] && |Decimal(|es|)| < X_SPACE && lead == es[0].lead && rest == Onward(es, 0)
    requires t == Spaces(X_SPACE) + ((lead + rest) + " ")
    ensures |t| > X_SPACE && t[..X_SPACE] == Spaces(X_SPACE)
    ensures Text(es) == (Decimal(|es|) + Spaces(X_SPACE - |Decimal(|es|)|)) + t[X_SPACE..|t| - 1]
  {
    var d, s := Decimal(|es|), Spaces(X_SPACE - |Decimal(|es|)|);
    Middle(Spaces(X_SPACE), lead + rest);
    Assoc(s, lead, rest);
    Assoc(d, s, lead + rest);
  }

  lemma Middle(a: string, b: string)
    ensures var t := a + (b + " "); |t| > |a| && t[..|a|] == a && t[|a|..|t| - 1] == b
  {
  }
}
