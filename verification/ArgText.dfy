/**
 What the quoted-token strings of argstr.cpp say: how strings and "key = value" entries are
 spelled, and how tokens are read from the rest of a text. A text is a C string without its
 terminator, and the empty rest stands for the null pointer too.
 */
module ArgText {
  const SEPAR: char := ' '
  const QUOTE: char := '"'
  const DELIM: char := '='
  const ESCAPE: char := '\\'

  datatype Option<T> = None | Some(value: T)

  predicate CString(s: string) { '\0' !in s }

  /** *p, for p at the rest of a text. */
  function Head(t: string): char { if t == "" then '\0' else t[0] }

  // ------------------------------------------------------------ spelling

  function Escaped(c: char): string {
    if c == QUOTE || c == ESCAPE then [ESCAPE, c] else [c]
  }

  function Escape(s: string): string {
    if s == "" then "" else Escaped(s[0]) + Escape(s[1..])
  }

  function Quoted(s: string): string { [QUOTE] + Escape(s) + [QUOTE] }

  /** MPIU_Str_add_string quotes what holds a separator, a quote or a delimiter. */
  predicate Special(v: string) { SEPAR in v || QUOTE in v || DELIM in v }

  function Printed(v: string): string {
    if Special(v) then Quoted(v) + [SEPAR] else if v == "" then [QUOTE, QUOTE] else v + [SEPAR]
  }

  function Joined(ss: seq<string>): string {
    if ss == [] then "" else Printed(ss[0]) + Joined(ss[1..])
  }

  /** The text of added strings; a quoted last one can have filled the room of its separator. */
  predicate IsText(t: string, ss: seq<string>) {
    t == Joined(ss) || (ss != [] && Special(ss[|ss| - 1]) && t + [SEPAR] == Joined(ss))
  }

  /** MPIU_Str_add_string_arg does not quote for a quote inside. */
  predicate NeedsQuotes(s: string) { SEPAR in s || DELIM in s || Head(s) == QUOTE }

  function KeyForm(key: string): string { if NeedsQuotes(key) then Quoted(key) else key }

  function ValueForm(v: string): string { if v == "" then [QUOTE, QUOTE] else KeyForm(v) }

  datatype Arg = Arg(key: string, value: string)

  function Entry(a: Arg): string { KeyForm(a.key) + [DELIM] + ValueForm(a.value) + [SEPAR] }

  function Entries(args: seq<Arg>): string {
    if args == [] then "" else Entry(args[0]) + Entries(args[1..])
  }

  lemma {:induction false} JoinedMore(ss: seq<string>, v: string)
    ensures Joined(ss + [v]) == Joined(ss) + Printed(v)
  {
    if ss == [] {
      assert (ss + [v])[1..] == [];
    } else {
      assert (ss + [v])[1..] == ss[1..] + [v];
      JoinedMore(ss[1..], v);
    }
  }

  lemma {:induction false} EntriesMore(args: seq<Arg>, a: Arg)
    ensures Entries(args + [a]) == Entries(args) + Entry(a)
  {
    if args == [] {
      assert (args + [a])[1..] == [];
    } else {
      assert (args + [a])[1..] == args[1..] + [a];
      EntriesMore(args[1..], a);
    }
  }

  // ------------------------------------------------------------ reading

  /** The text from its first token on. */
  function FirstToken(t: string): (r: string)
    ensures |r| <= |t|
    ensures r != "" ==> r[0] != SEPAR
  {
    if t == "" then "" else if t[0] == SEPAR then FirstToken(t[1..]) else t
  }

  /** The characters of a quoted token, up to its closing quote or to the end of the text. */
  function Run(u: string): string {
    if u == "" || u[0] == QUOTE then ""
    else if u[0] == ESCAPE then (if |u| == 1 then "" else [u[1]] + Run(u[2..]))
    else [u[0]] + Run(u[1..])
  }

  /** Whether the quoted token has its closing quote. */
  predicate Closed(u: string) {
    if u == "" then false
    else if u[0] == QUOTE then true
    else if u[0] == ESCAPE then |u| != 1 && Closed(u[2..])
    else Closed(u[1..])
  }

  /** What follows the closing quote. */
  function AfterQuote(u: string): (r: string)
    ensures |r| <= |u|
  {
    if u == "" then ""
    else if u[0] == QUOTE then u[1..]
    else if u[0] == ESCAPE then (if |u| <= 2 then "" else AfterQuote(u[2..]))
    else AfterQuote(u[1..])
  }

  predicate EndsLiteral(t: string) { t == "" || t[0] == SEPAR || t[0] == DELIM }

  function Literal(t: string): (r: string)
    ensures |r| <= |t| && r == t[..|r|]
  {
    if EndsLiteral(t) then "" else [t[0]] + Literal(t[1..])
  }

  function TokenOf(t: string): string {
    if Head(t) == DELIM then [DELIM] else if Head(t) == QUOTE then Run(t[1..]) else Literal(t)
  }

  predicate Whole(t: string) { Head(t) == QUOTE ==> Closed(t[1..]) }

  function NextToken(t: string): (r: string)
    ensures |r| <= |t| && (t != "" && t[0] != SEPAR ==> |r| < |t|)
  {
    if t == "" then ""
    else if t[0] == QUOTE then FirstToken(AfterQuote(t[1..]))
    else if t[0] == DELIM then FirstToken(t[1..])
    else
      assert t[0] != SEPAR ==> Literal(t) != "";
      FirstToken(t[|Literal(t)|..])
  }

  /** What MPIU_Str_get_string gives, call by call, until no token is left. */
  function ReadAll(t: string): seq<string>
    decreases |t|
  {
    var f := FirstToken(t);
    if f == "" then [] else [TokenOf(f)] + ReadAll(NextToken(f))
  }

  /** None of these calls meets a token without its closing quote. */
  predicate AllWhole(t: string)
    decreases |t|
  {
    var f := FirstToken(t);
    f == "" || (Whole(f) && AllWhole(NextToken(f)))
  }

  // ------------------------------------------------------------ strings come back

  lemma {:induction false} QuotedReads(v: string, rest: string)
    ensures var u := Escape(v) + ([QUOTE] + rest);
            Run(u) == v && Closed(u) && AfterQuote(u) == rest
  {
    var end := [QUOTE] + rest;
    var u := Escape(v) + end;
    if v == "" {
      assert u == end;
    } else {
      QuotedReads(v[1..], rest);
      Assoc(Escaped(v[0]), Escape(v[1..]), end);
      RunChar(v[0], Escape(v[1..]) + end);
      assert [v[0]] + v[1..] == v;
    }
  }

  lemma RunChar(c: char, more: string)
    requires more != ""
    ensures var u := Escaped(c) + more;
            Run(u) == [c] + Run(more) && Closed(u) == Closed(more) && AfterQuote(u) == AfterQuote(more)
  {
    var u := Escaped(c) + more;
    if c == QUOTE || c == ESCAPE {
      assert u[2..] == more;
    } else {
      assert u[1..] == more;
    }
  }

  lemma {:induction false} LiteralReads(v: string, rest: string)
    requires SEPAR !in v && DELIM !in v && EndsLiteral(rest)
    ensures Literal(v + rest) == v
  {
    if v == "" {
      assert v + rest == rest;
    } else {
      assert (v + rest)[1..] == v[1..] + rest;
      LiteralReads(v[1..], rest);
    }
  }

  /** The text begins with a token that says v, whole, and `rest` follows it. */
  predicate Reads(t: string, v: string, rest: string) {
    && t != "" && t[0] != SEPAR
    && TokenOf(t) == v && Whole(t)
    && NextToken(t) == FirstToken(rest)
  }

  lemma Assoc(a: string, b: string, c: string)
    ensures a + b + c == a + (b + c)
  {
  }

  lemma QuotedToken(v: string, rest: string)
    ensures Reads(Quoted(v) + rest, v, rest) == true
  {
    var t, u := Quoted(v) + rest, Escape(v) + ([QUOTE] + rest);
    QuotedReads(v, rest);
    QuotedSplit(v, rest);
    assert t[0] == QUOTE && t[1..] == u;
  }

  lemma LiteralToken(v: string, rest: string)
    requires v != "" && SEPAR !in v && DELIM !in v && v[0] != QUOTE && EndsLiteral(rest)
    ensures Reads(v + rest, v, rest) == true
  {
    LiteralReads(v, rest);
    assert (v + rest)[0] == v[0] && (v + rest)[|v|..] == rest;
  }

  /** A printed string is read as itself. */
  lemma PrintedReads(v: string, rest: string)
    ensures Reads(Printed(v) + rest, v, rest) == true
  {
    var sep := [SEPAR] + rest;
    assert sep[1..] == rest;
    if v == "" {
      QuotedToken(v, rest);
      assert Quoted(v) == [QUOTE, QUOTE];
    } else if Special(v) {
      QuotedToken(v, sep);
      Assoc(Quoted(v), [SEPAR], rest);
    } else {
      LiteralToken(v, sep);
      Assoc(v, [SEPAR], rest);
    }
  }

  lemma ReadAllFirst(t: string)
    ensures ReadAll(FirstToken(t)) == ReadAll(t) && AllWhole(FirstToken(t)) == AllWhole(t)
  {
    FirstTwice(t);
  }

  lemma {:induction false} FirstTwice(t: string)
    ensures FirstToken(FirstToken(t)) == FirstToken(t)
  {
    if t != "" && t[0] == SEPAR {
      FirstTwice(t[1..]);
    }
  }

  lemma ReadsOn(t: string, v: string, rest: string)
    requires Reads(t, v, rest) == true
    ensures ReadAll(t) == [v] + ReadAll(rest)
    ensures AllWhole(t) == AllWhole(rest)
  {
    ReadAllFirst(rest);
  }

  /** The round trip: the strings that were added are the strings that are read. */
  lemma {:induction false} StringsComeBack(t: string, ss: seq<string>)
    requires IsText(t, ss)
    ensures ReadAll(t) == ss && AllWhole(t)
    decreases |ss|
  {
    if ss == [] {
      assert t == "";
    } else if t != Joined(ss) && |ss| == 1 {
      LastOpen(t, ss[0]);
    } else {
      var rest := Joined(ss[1..]);
      if t != Joined(ss) {
        rest := OpenRest(t, ss);
      }
      PrintedReads(ss[0], rest);
      ReadsOn(t, ss[0], rest);
      StringsComeBack(rest, ss[1..]);
      assert ss == [ss[0]] + ss[1..];
    }
  }

  lemma LastOpen(t: string, v: string)
    requires Special(v) && t + [SEPAR] == Joined([v])
    ensures ReadAll(t) == [v] && AllWhole(t)
  {
    assert [v][1..] == [];
    assert Joined([v]) == Quoted(v) + [SEPAR];
    assert t == (t + [SEPAR])[..|t|] == Quoted(v) + "";
    QuotedToken(v, "");
    ReadsOn(t, v, "");
    assert ReadAll("") == [] && AllWhole("");
  }

  lemma OpenRest(t: string, ss: seq<string>) returns (rest: string)
    requires |ss| >= 2 && t + [SEPAR] == Joined(ss)
    ensures t == Printed(ss[0]) + rest && rest + [SEPAR] == Joined(ss[1..])
  {
    assert Joined(ss[1..]) != "";
    rest := CutFront(t, SEPAR, Printed(ss[0]), Joined(ss[1..]));
  }

  lemma CutFront(t: string, c: char, p: string, j: string) returns (rest: string)
    requires t + [c] == p + j && j != ""
    ensures t == p + rest && rest + [c] == j
  {
    assert |t| + 1 == |p| + |j|;
    rest := t[|p|..];
    assert t[..|p|] == (t + [c])[..|p|] == p;
    assert rest + [c] == (t + [c])[|p|..] == j;
  }

  /** A literal that did not fit is read back cut short. */
  lemma CutLiteralReads(v: string, n: nat)
    requires !Special(v) && 0 < n <= |v|
    ensures ReadAll(Printed(v)[..n]) == [v[..n]]
  {
    assert Printed(v)[..n] == v[..n] + "";
    LiteralToken(v[..n], "");
    ReadsOn(Printed(v)[..n], v[..n], "");
    assert ReadAll("") == [];
  }

  // ------------------------------------------------------------ looking up a key

  predicate MatchesQuoted(u: string, f: string)
    decreases |u|
  {
    var v := if Head(u) == ESCAPE then u[1..] else u;
    if v == "" || f == "" || v[0] != f[0] || (Head(u) != ESCAPE && v[0] == QUOTE) then
      f == "" && Head(v) == QUOTE
    else
      MatchesQuoted(v[1..], f[1..])
  }

  predicate MatchesLiteral(t: string, f: string) {
    if t != "" && f != "" && t[0] == f[0] && !EndsLiteral(t) then MatchesLiteral(t[1..], f[1..])
    else f == "" && EndsLiteral(t)
  }

  /** compare_token gives 0. */
  predicate Matches(t: string, f: string) {
    if Head(t) == QUOTE then MatchesQuoted(t[1..], f)
    else if Head(t) == DELIM then f == [DELIM]
    else MatchesLiteral(t, f)
  }

  /** Where MPIU_Str_get_string_arg finds the value, from a token on. */
  function Lookup(t: string, f: string): Option<string>
    requires t != "" ==> t[0] != SEPAR
    decreases |t|
  {
    if t == "" then None
    else
      var u := NextToken(t);
      FirstIsFirst(t);
      if Matches(t, f) && u != "" && Matches(u, [DELIM]) then
        var w := NextToken(u);
        if w == "" then None else Some(w)
      else Lookup(u, f)
  }

  lemma FirstIsFirst(t: string)
    ensures NextToken(t) != "" ==> NextToken(t)[0] != SEPAR
  {
  }

  /** The key begins with f and goes on with a quote. */
  predicate GoesOn(key: string, f: string) {
    if f == "" then Head(key) == QUOTE
    else key != "" && key[0] == f[0] && GoesOn(key[1..], f[1..])
  }

  lemma {:induction false} GoesOnIs(key: string, f: string)
    ensures GoesOn(key, f) <==> |f| < |key| && key[..|f|] == f && key[|f|] == QUOTE
  {
    if f != "" && key != "" {
      GoesOnIs(key[1..], f[1..]);
      if key[0] == f[0] && |f| < |key| {
        assert key[..|f|] == [key[0]] + key[1..][..|f| - 1];
        assert f == [f[0]] + f[1..];
      }
    }
  }

  /** The keys a search takes: its own, and any quoted one that goes on with a quote after it. */
  predicate Takes(key: string, f: string) {
    key == f || (NeedsQuotes(key) && GoesOn(key, f))
  }

  lemma {:induction false} QuotedMatches(key: string, f: string, rest: string)
    ensures MatchesQuoted(Escape(key) + ([QUOTE] + rest), f) <==> key == f || GoesOn(key, f)
  {
    var u := Escape(key) + ([QUOTE] + rest);
    if key == "" {
      assert u == [QUOTE] + rest;
    } else {
      var more := Escape(key[1..]) + ([QUOTE] + rest);
      Assoc(Escaped(key[0]), Escape(key[1..]), [QUOTE] + rest);
      QuotedChar(key[0], more, f);
      if f != "" && key[0] == f[0] {
        QuotedMatches(key[1..], f[1..], rest);
        assert key[1..] == f[1..] ==> key == [key[0]] + key[1..] == f;
      }
    }
  }

  lemma QuotedChar(c: char, more: string, f: string)
    ensures MatchesQuoted(Escaped(c) + more, f)
         == if f != "" && c == f[0] then MatchesQuoted(more, f[1..]) else f == "" && c == QUOTE
  {
    var u := Escaped(c) + more;
    var v := [c] + more;
    assert v[1..] == more;
    if c == QUOTE || c == ESCAPE {
      assert u[1..] == v;
    } else {
      assert u == v;
    }
  }

  lemma {:induction false} LiteralMatches(key: string, f: string, rest: string)
    requires SEPAR !in key && DELIM !in key && EndsLiteral(rest)
    ensures MatchesLiteral(key + rest, f) <==> key == f
  {
    var t := key + rest;
    if key == "" {
      assert t == rest;
    } else if f != "" {
      assert t[1..] == key[1..] + rest;
      LiteralMatches(key[1..], f[1..], rest);
      assert key == f <==> key[0] == f[0] && key[1..] == f[1..];
    }
  }

  lemma KeyMatches(key: string, f: string, rest: string)
    requires key != ""
    ensures Matches(KeyForm(key) + ([DELIM] + rest), f) == Takes(key, f)
  {
    var d := [DELIM] + rest;
    if NeedsQuotes(key) {
      QuotedMatches(key, f, d);
      MatchesInQuotes(Escape(key) + ([QUOTE] + d), f);
      QuotedSplit(key, d);
    } else {
      LiteralMatches(key, f, d);
      MatchesPlain(key, d, f);
    }
  }

  lemma QuotedSplit(v: string, rest: string)
    ensures Quoted(v) + rest == [QUOTE] + (Escape(v) + ([QUOTE] + rest))
  {
    Assoc([QUOTE] + Escape(v), [QUOTE], rest);
    Assoc([QUOTE], Escape(v), [QUOTE] + rest);
  }

  lemma MatchesInQuotes(u: string, f: string)
    ensures Matches([QUOTE] + u, f) == MatchesQuoted(u, f)
  {
    assert ([QUOTE] + u)[1..] == u;
  }

  lemma MatchesPlain(key: string, rest: string, f: string)
    requires key != "" && key[0] != QUOTE && key[0] != DELIM
    ensures Matches(key + rest, f) == MatchesLiteral(key + rest, f)
  {
  }

  /** The first value whose key the search takes. */
  function FirstValue(args: seq<Arg>, f: string): Option<string> {
    if args == [] then None
    else if Takes(args[0].key, f) then Some(args[0].value)
    else FirstValue(args[1..], f)
  }

  /** Keys that can be told from the delimiter. */
  predicate Keys(args: seq<Arg>) {
    forall i :: 0 <= i < |args| ==> args[i].key != "" && !Takes(args[i].key, [DELIM])
  }

  /** One entry as it is read: its key, the delimiter, its value, and what follows. */
  lemma EntryReads(a: Arg, rest: string) returns (t: string, d: string, w: string)
    requires a.key != "" && FirstToken(rest) == rest
    ensures t == Entry(a) + rest && d == [DELIM] + w && t == KeyForm(a.key) + d
    ensures t != "" && t[0] != SEPAR && NextToken(t) == d
    ensures NextToken(d) == w
    ensures Reads(w, a.value, rest) == true
  {
    w := ValueForm(a.value) + ([SEPAR] + rest);
    d := [DELIM] + w;
    t := KeyForm(a.key) + d;
    EntrySplit(a, rest);
    KeyReads(a.key, d);
    ValueReads(a.value, rest);
    assert d[1..] == w;
  }

  lemma EntrySplit(a: Arg, rest: string)
    ensures Entry(a) + rest == KeyForm(a.key) + ([DELIM] + (ValueForm(a.value) + ([SEPAR] + rest)))
  {
    var k, v, d, s := KeyForm(a.key), ValueForm(a.value), [DELIM], [SEPAR];
    Assoc(k + d + v, s, rest);
    Assoc(k + d, v, s + rest);
    Assoc(k, d, v + (s + rest));
  }

  lemma KeyReads(key: string, d: string)
    requires key != "" && Head(d) == DELIM
    ensures Reads(KeyForm(key) + d, key, d) == true
  {
    if NeedsQuotes(key) {
      QuotedToken(key, d);
    } else {
      LiteralToken(key, d);
    }
  }

  lemma ValueReads(v: string, rest: string)
    ensures Reads(ValueForm(v) + ([SEPAR] + rest), v, rest) == true
  {
    var sep := [SEPAR] + rest;
    assert sep[1..] == rest;
    if v == "" {
      QuotedToken(v, sep);
      assert Quoted(v) == [QUOTE, QUOTE];
    } else {
      if NeedsQuotes(v) {
        QuotedToken(v, sep);
      } else {
        LiteralToken(v, sep);
      }
    }
  }

  lemma EntriesStart(args: seq<Arg>)
    requires Keys(args)
    ensures FirstToken(Entries(args)) == Entries(args)
    ensures args != [] ==> Entries(args) != "" && !Matches(Entries(args), [DELIM])
    ensures Entries(args) != "" ==> Entries(args)[0] != SEPAR
  {
    if args != [] {
      var a := args[0];
      var rest := ValueForm(a.value) + ([SEPAR] + Entries(args[1..]));
      EntrySplit(a, Entries(args[1..]));
      KeyMatches(a.key, [DELIM], rest);
      KeyReads(a.key, [DELIM] + rest);
    }
  }

  /** A search gives the first value whose key it takes, whole, and fails when there is none. */
  lemma {:induction false} LookupFinds(args: seq<Arg>, f: string)
    requires Keys(args) && f != [DELIM]
    ensures Entries(args) != "" ==> Entries(args)[0] != SEPAR
    ensures var r := Lookup(Entries(args), f);
            (r.None? <==> FirstValue(args, f).None?)
            && (r.Some? ==> TokenOf(r.value) == FirstValue(args, f).value && Whole(r.value))
  {
    EntriesStart(args);
    if args != [] {
      var a, rest := args[0], Entries(args[1..]);
      EntriesStart(args[1..]);
      var t, d, w := EntryReads(a, rest);
      KeyMatches(a.key, f, w);
      if Takes(a.key, f) {
        LookupHits(t, d, w, f);
      } else {
        LookupPasses(t, d, w, rest, f);
        LookupFinds(args[1..], f);
      }
    }
  }

  lemma LookupHits(t: string, d: string, w: string, f: string)
    requires t != "" && t[0] != SEPAR && NextToken(t) == d && Head(d) == DELIM
    requires NextToken(d) == w && w != "" && Matches(t, f)
    ensures Lookup(t, f) == Some(w)
  {
  }

  lemma LookupPasses(t: string, d: string, w: string, rest: string, f: string)
    requires t != "" && t[0] != SEPAR && NextToken(t) == d && Head(d) == DELIM
    requires NextToken(d) == w && w != "" && w[0] != SEPAR && NextToken(w) == rest
    requires rest != "" ==> rest[0] != SEPAR && !Matches(rest, [DELIM])
    requires !Matches(t, f) && f != [DELIM]
    ensures Lookup(t, f) == Lookup(rest, f)
  {
    assert Lookup(t, f) == Lookup(d, f);
    assert Lookup(d, f) == Lookup(w, f);
    assert Lookup(w, f) == Lookup(rest, f);
  }

  /** With no quotes in the keys, a search takes its own key alone. */
  lemma PlainKeys(key: string, f: string)
    requires QUOTE !in key
    ensures Takes(key, f) <==> key == f
  {
    GoesOnIs(key, f);
  }

  /** The first value that was added under a key. */
  function FirstUnder(args: seq<Arg>, f: string): Option<string> {
    if args == [] then None
    else if args[0].key == f then Some(args[0].value)
    else FirstUnder(args[1..], f)
  }

  /** With no quotes in the keys a search finds what was first added under its key. */
  lemma {:induction false} SearchIsRight(args: seq<Arg>, f: string)
    requires forall i :: 0 <= i < |args| ==> QUOTE !in args[i].key
    ensures FirstValue(args, f) == FirstUnder(args, f)
    ensures (forall i :: 0 <= i < |args| ==> args[i].key != "" && args[i].key != [DELIM]) ==> Keys(args)
  {
    forall i | 0 <= i < |args| ensures Takes(args[i].key, [DELIM]) <==> args[i].key == [DELIM] {
      PlainKeys(args[i].key, [DELIM]);
    }
    if args != [] {
      PlainKeys(args[0].key, f);
      SearchIsRight(args[1..], f);
    }
  }

  /** A key with a quote in it can be taken for another: a b"c for a b. */
  lemma QuoteTakesOther()
    ensures var args := [Arg("a b\"c", "1"), Arg("a b", "2")];
            FirstValue(args, "a b") == Some("1") && Keys(args)
  {
    GoesOnIs("a b\"c", "a b");
    GoesOnIs("a b\"c", "=");
    GoesOnIs("a b", "=");
    assert SEPAR == "a b\"c"[1];
  }
}
