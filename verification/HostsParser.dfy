/**
 The -hosts option: a string is cut into arguments at its white space, and the arguments say how
 many hosts there are, and each host's name, count and affinity masks (mp_parse_command_line.cpp).
 */
module HostsParser {
  import opened Sealing

  const MSMPI_MAX_RANKS: nat := 32768

  // ------------------------------------------------------------ characters

  predicate IsSpace(c: char) { c == ' ' || '\t' <= c <= '\r' }
  predicate IsGraph(c: char) { '!' <= c <= '~' }
  predicate IsDigit(c: char) { '0' <= c <= '9' }
  predicate IsHex(c: char) { IsDigit(c) || 'a' <= c <= 'f' || 'A' <= c <= 'F' }

  function Head(t: string): char { if t == "" then '\0' else t[0] }

  /** How many characters at the front are of one kind. */
  function Span(kind: char -> bool, t: string): (n: nat)
    ensures n <= |t| && (n < |t| ==> !kind(t[n]))
    ensures forall i :: 0 <= i < n ==> kind(t[i])
  {
    if t == "" || !kind(t[0]) then 0 else 1 + Span(kind, t[1..])
  }

  function Skip(kind: char -> bool, t: string): string { t[Span(kind, t)..] }

  lemma {:induction false} SpanIs(kind: char -> bool, a: string, b: string)
    requires forall i :: 0 <= i < |a| ==> kind(a[i])
    requires b == "" || !kind(b[0])
    ensures Span(kind, a + b) == |a| && Skip(kind, a + b) == b
  {
    if a == "" {
      assert a + b == b;
    } else {
      assert (a + b)[1..] == a[1..] + b;
      SpanIs(kind, a[1..], b);
    }
  }

  /** skip_hex, with the prefix it takes. */
  function SkipPrefix(t: string): string { if |t| >= 2 && t[0] == '0' && t[1] == 'x' then t[2..] else t }

  function SkipHex(t: string): string { Skip(IsHex, SkipPrefix(t)) }

  // ------------------------------------------------------------ numbers

  predicate IsDigits(t: string) { t != "" && forall i :: 0 <= i < |t| ==> IsDigit(t[i]) }
  predicate IsZeros(t: string) { forall i :: 0 <= i < |t| ==> t[i] == '0' }
  predicate IsPosNumber(t: string) { IsDigits(t) && !IsZeros(t) }
  predicate IsNumber(t: string) { IsDigits(if Head(t) == '-' then t[1..] else t) }

  function HexDigit(c: char): nat
    requires IsHex(c)
  {
    if IsDigit(c) then (c - '0') as nat else if 'a' <= c then (c - 'a') as nat + 10 else (c - 'A') as nat + 10
  }

  /** The number that is written in base 10 or 16. */
  function Value(base: nat, t: string): nat
    requires forall i :: 0 <= i < |t| ==> IsHex(t[i])
  {
    if t == "" then 0
    else
      var front := Value(base, t[..|t| - 1]);
      (if base == 10 then 10 * front else 16 * front) + HexDigit(t[|t| - 1])
  }

  /** _wtoi on a number, with a sign or none; beyond its width it stays too large for every test made of it. */
  function Number(t: string): int
    requires IsNumber(t)
  {
    if Head(t) == '-' then 0 - (Value(10, t[1..]) as int) else Value(10, t)
  }

  /** What _itow_s prints. */
  function Decimal(n: nat): string {
    (if n < 10 then "" else Decimal(n / 10)) + [(n % 10) as char + '0']
  }

  lemma {:induction false} DecimalValue(n: nat)
    ensures IsDigits(Decimal(n)) && Value(10, Decimal(n)) == n
    decreases n
  {
    if n >= 10 {
      DecimalValue(n / 10);
    }
    OneMoreDigit(if n < 10 then "" else Decimal(n / 10), n % 10);
  }

  lemma OneMoreDigit(s: string, d: nat)
    requires d < 10 && (s == "" || IsDigits(s))
    ensures var t := s + [d as char + '0'];
            IsDigits(t) && Value(10, t) == 10 * Value(10, s) + d
  {
    var t := s + [d as char + '0'];
    assert t[..|t| - 1] == s;
  }

  // ------------------------------------------------------------ arguments

  /** mp_parse_hosts_string's argv: cut at every run of white space. */
  function Args(t: string): (args: seq<string>)
    ensures args != []
    decreases |t|
  {
    if t == "" then [""]
    else if IsSpace(t[0]) then [""] + Args(Skip(IsSpace, t))
    else
      var args := Args(t[1..]);
      [[t[0]] + args[0]] + args[1..]
  }

  predicate Solid(s: string) { forall i :: 0 <= i < |s| ==> !IsSpace(s[i]) }
  predicate Blank(s: string) { forall i :: 0 <= i < |s| ==> IsSpace(s[i]) }

  /** A solid piece before white space, or at the end, is an argument. */
  lemma {:induction false} ArgsOf(s: string, gap: string, rest: string)
    requires Solid(s) && Blank(gap) && gap != "" && (rest == "" || !IsSpace(rest[0]))
    ensures Args(s + (gap + rest)) == [s] + Args(rest)
  {
    if s == "" {
      assert s + (gap + rest) == gap + rest;
      SpanIs(IsSpace, gap, rest);
    } else {
      ArgsOf(s[1..], gap, rest);
      assert (s + (gap + rest))[1..] == s[1..] + (gap + rest);
      assert [s[0]] + s[1..] == s;
    }
  }

  lemma {:induction false} LastArg(s: string)
    requires Solid(s)
    ensures Args(s) == [s]
  {
    if s != "" {
      LastArg(s[1..]);
      assert [s[0]] + s[1..] == s;
    }
  }

  // ------------------------------------------------------------ hosts

  datatype Affinity = Affinity(mask: nat, group: nat)

  /** explicit_affinity holds the masks of a host back to front. */
  datatype Host = Host(name: string, nproc: nat, affinity: seq<Affinity>)

  datatype Option<T> = None | Some(value: T)

  /** One mask: hex digits, behind 0x or not, and a group behind a colon; what follows it. */
  function Mask(t: string): Option<(Affinity, string)> {
    var u := SkipPrefix(t);
    var hex := u[..Span(IsHex, u)];
    var v := Skip(IsHex, u);
    if hex == "" then None
    else if Head(v) != ':' then Some((Affinity(Value(16, hex), 0), v))
    else
      var digits := v[1..][..Span(IsDigit, v[1..])];
      if digits == "" then None
      else Some((Affinity(Value(16, hex), Value(10, digits) % 0x1_0000), Skip(IsDigit, v[1..])))
  }

  /** The n masks of a host, each behind a comma; what follows the last is not looked at. */
  function Masks(t: string, n: nat): Option<seq<Affinity>> {
    if n == 0 then Some([])
    else if Head(t) != ',' then None
    else
      match Mask(t[1..])
      case None => None
      case Some((a, rest)) =>
        match Masks(rest, n - 1)
        case None => None
        case Some(more) => Some(more + [a])
  }

  /** A count with masks behind it. */
  predicate IsExplicit(t: string) { Head(Skip(IsDigit, t)) == ',' }

  predicate IsCount(t: string) { IsExplicit(t) || IsNumber(t) }

  const DIGITS: nat := 64

  /** What the argument after a host's name says of the host. */
  function Counted(name: string, t: string): (r: Option<Host>)
    requires IsCount(t)
    ensures r.Some? ==> 1 <= r.value.nproc && r.value.name == name
  {
    if IsExplicit(t) then
      var digits := t[..Span(IsDigit, t)];
      if |digits| >= DIGITS || Value(10, digits) < 1 then None
      else
        match Masks(Skip(IsDigit, t), Value(10, digits))
        case None => None
        case Some(masks) => Some(Host(name, Value(10, digits), masks))
    else if Number(t) < 1 then None
    else Some(Host(name, Number(t), []))
  }

  datatype Parsed = Error | Hosts(hosts: seq<Host>, nproc: nat)

  /** The next host, how many arguments it has taken, whether some host has had masks, and how many processes there are. */
  datatype Taken = Refused | Taken(host: Host, used: nat, masks: bool, nproc: nat)

  /** The i-th host. */
  function Take(args: seq<string>, i: nat, masks: bool, nproc: nat): (t: Taken)
    ensures t.Taken? ==> 0 < t.used <= |args|
  {
    if args == [] then Refused
    else if |args| == 1 || !IsCount(args[1]) then
      if |args| > 1 && i > 0 && masks then Refused
      else Taken(Host(args[0], 1, []), 1, masks, nproc)
    else if i > 0 && masks != IsExplicit(args[1]) then Refused
    else
      match Counted(args[0], args[1])
      case None => Refused
      case Some(host) =>
        if host.nproc + nproc - 1 > MSMPI_MAX_RANKS then Refused
        else Taken(host, 2, IsExplicit(args[1]) || masks, (host.nproc - 1) + nproc)
  }

  /** The hosts from the i-th on, of nhosts. */
  function ParseFrom(args: seq<string>, nhosts: nat, i: nat, masks: bool, nproc: nat): Parsed
    requires i <= nhosts
    decreases nhosts - i
  {
    if i == nhosts then Hosts([], nproc)
    else
      match Take(args, i, masks, nproc)
      case Refused => Error
      case Taken(host, used, masks', nproc') => Prepend(host, ParseFrom(args[used..], nhosts, i + 1, masks', nproc'))
  }

  function Prepend(h: Host, p: Parsed): Parsed {
    if p.Error? then Error else Hosts([h] + p.hosts, p.nproc)
  }

  function Parse(args: seq<string>): Parsed {
    if args == [] || !IsPosNumber(args[0]) || Value(10, args[0]) > MSMPI_MAX_RANKS then Error
    else ParseFrom(args[1..], Value(10, args[0]), 0, false, Value(10, args[0]))
  }

  function Total(hosts: seq<Host>): nat {
    if hosts == [] then 0 else hosts[0].nproc + Total(hosts[1..])
  }

  /** Whatever is accepted, the pool's count is the sum over its hosts, of which there are as many as announced. */
  lemma {:induction false} CountIsSum(args: seq<string>, nhosts: nat, i: nat, masks: bool, nproc: nat)
    requires i <= nhosts && nhosts - i <= nproc
    ensures SumsUp(ParseFrom(args, nhosts, i, masks, nproc), nhosts - i, nproc)
    decreases nhosts - i
  {
    if i < nhosts {
      var t := Take(args, i, masks, nproc);
      if t.Taken? {
        CountIsSum(args[t.used..], nhosts, i + 1, t.masks, t.nproc);
        SumsOn(t.host, ParseFrom(args[t.used..], nhosts, i + 1, t.masks, t.nproc), nhosts - i - 1, nproc);
      }
    }
  }

  /** n hosts, of which each counts for one in nproc already, make up what is accepted. */
  predicate SumsUp(p: Parsed, n: nat, nproc: nat) {
    p.Hosts? ==>
      && |p.hosts| == n && p.nproc == nproc - n + Total(p.hosts)
      && (nproc <= MSMPI_MAX_RANKS ==> p.nproc <= MSMPI_MAX_RANKS)
      && forall k :: 0 <= k < |p.hosts| ==> 1 <= p.hosts[k].nproc
  }

  lemma SumsOn(h: Host, p: Parsed, n: nat, nproc: nat)
    requires 1 <= h.nproc && SumsUp(p, n, nproc + h.nproc - 1)
    ensures nproc + h.nproc - 1 <= MSMPI_MAX_RANKS ==> SumsUp(Prepend(h, p), n + 1, nproc)
    ensures h.nproc == 1 ==> SumsUp(Prepend(h, p), n + 1, nproc)
  {
    if p.Hosts? {
      assert ([h] + p.hosts)[1..] == p.hosts;
    }
  }

  lemma AcceptedCounts(args: seq<string>)
    ensures var p := Parse(args);
            p.Hosts? ==> p.nproc == Total(p.hosts) && 1 <= |p.hosts| <= p.nproc <= MSMPI_MAX_RANKS
  {
    if Parse(args).Hosts? {
      var n := Value(10, args[0]);
      CountIsSum(args[1..], n, 0, false, n);
      TotalAtLeast(Parse(args).hosts);
      PositiveIs(args[0]);
    }
  }

  lemma {:induction false} TotalAtLeast(hosts: seq<Host>)
    requires forall k :: 0 <= k < |hosts| ==> 1 <= hosts[k].nproc
    ensures |hosts| <= Total(hosts)
  {
    if hosts != [] {
      TotalAtLeast(hosts[1..]);
    }
  }

  lemma {:induction false} PositiveIs(t: string)
    requires IsDigits(t)
    ensures Value(10, t) == 0 <==> IsZeros(t)
  {
    var m := t[..|t| - 1];
    if m != "" {
      PositiveIs(m);
    }
    assert t == m + [t[|t| - 1]];
  }

  // ------------------------------------------------------------ the routines

  /** The hosts read so far, and then those of the rest. */
  function After(hosts: seq<Host>, rest: Parsed): Parsed {
    if rest.Error? then Error else Hosts(hosts + rest.hosts, rest.nproc)
  }

  lemma AfterMore(hosts: seq<Host>, h: Host, rest: Parsed)
    ensures After(hosts, Prepend(h, rest)) == After(hosts + [h], rest)
  {
    if rest.Hosts? {
      assert hosts + ([h] + rest.hosts) == hosts + [h] + rest.hosts;
    }
  }

  /** mp_parse_hosts_argv */
  method ParseHostsArgv(args: seq<string>) returns (r: Parsed)
    ensures r == Parse(args)
  {
    if args == [] || !IsPosNumber(args[0]) {
      return Error;
    }
    var nhosts := Number(args[0]);
    if nhosts > MSMPI_MAX_RANKS {
      return Error;
    }
    var nproc: nat, masks, at: nat, hosts := nhosts, false, 1, [];
    ghost var rest := Parse(args);
    assert After([], rest) == rest;
    for i := 0 to nhosts
      invariant at <= |args| && After(hosts, rest) == Parse(args)
      invariant Rest(args, at, nhosts, i, masks, nproc, rest) == true
    {
      var t;
      ghost var more;
      t, more := NextHost(args, at, nhosts, i, masks, nproc, rest);
      if t.Refused? {
        return Error;
      }
      AfterMore(hosts, t.host, more);
      hosts, rest := hosts + [t.host], more;
      at, masks, nproc := at + t.used, t.masks, t.nproc;
    }
    assert Key(Hosting, nhosts, 0);
    assert hosts + [] == hosts;
    return Hosts(hosts, nproc);
  }

  /** What is parsed from the argument `at` on. */
  ghost predicate Rest(args: seq<string>, at: nat, nhosts: nat, i: nat, masks: bool, nproc: nat, rest: Parsed) {
    forall z: int :: Key(Hosting, i, z) ==>
      at <= |args| && i <= nhosts && rest == ParseFrom(args[at..], nhosts, i, masks, nproc)
  }

  lemma RestNext(args: seq<string>, at: nat, nhosts: nat, i: nat, masks: bool, nproc: nat, rest: Parsed, t: Taken)
    returns (more: Parsed)
    requires at <= |args| && i < nhosts && Rest(args, at, nhosts, i, masks, nproc, rest) == true
    requires t == Take(args[at..], i, masks, nproc)
    ensures t.Refused? ==> rest == Error
    ensures t.Taken? ==> rest == Prepend(t.host, more) && Rest(args, at + t.used, nhosts, i + 1, t.masks, t.nproc, more) == true
  {
    assert Key(Hosting, i, 0);
    if t.Taken? {
      more := ParseFrom(args[at..][t.used..], nhosts, i + 1, t.masks, t.nproc);
      assert args[at..][t.used..] == args[at + t.used..];
    } else {
      more := Error;
    }
  }

  method NextHost(args: seq<string>, at: nat, ghost nhosts: nat, i: nat, masks: bool, nproc: nat, ghost rest: Parsed)
    returns (t: Taken, ghost more: Parsed)
    requires at <= |args| && i < nhosts && Rest(args, at, nhosts, i, masks, nproc, rest) == true
    ensures t.Refused? ==> rest == Error
    ensures t.Taken? ==> at + t.used <= |args| && rest == Prepend(t.host, more)
    ensures t.Taken? ==> Rest(args, at + t.used, nhosts, i + 1, t.masks, t.nproc, more) == true
  {
    t := TakeHost(args, at, i, masks, nproc);
    more := RestNext(args, at, nhosts, i, masks, nproc, rest, t);
  }

  /** The i-th host, from the argument `at` on. */
  method TakeHost(args: seq<string>, at: nat, i: nat, masks: bool, nproc: nat) returns (t: Taken)
    requires at <= |args|
    ensures t == Take(args[at..], i, masks, nproc)
  {
    if at == |args| {
      return Refused;
    }
    if at + 1 == |args| {
      return Taken(Host(args[at], 1, []), 1, masks, nproc);
    }
    var ok, counted, host, masks', nproc' := ParseCount(args[at], args[at + 1], i, masks, nproc);
    return if ok then Taken(host, if counted then 2 else 1, masks', nproc') else Refused;
  }

  /** What follows a host's name: its count, with masks or without, or the next name. */
  method ParseCount(name: string, t: string, i: nat, masks: bool, nproc: nat)
    returns (ok: bool, counted: bool, host: Host, masks': bool, nproc': nat)
    ensures counted == IsCount(t)
    ensures !counted ==> ok == !(i > 0 && masks) && host == Host(name, 1, []) && masks' == masks && nproc' == nproc
    ensures counted ==>
      var c := Counted(name, t);
      && ok == (!(i > 0 && masks != IsExplicit(t)) && c.Some? && c.value.nproc + nproc - 1 <= MSMPI_MAX_RANKS)
      && (ok ==> host == c.value && masks' == (IsExplicit(t) || masks) && nproc' == nproc + host.nproc - 1)
  {
    ok, counted, host, masks', nproc' := false, IsCount(t), Host(name, 1, []), masks, nproc;
    if Head(Skip(IsDigit, t)) == ',' {
      if i > 0 && !masks {
        return;
      }
      masks' := true;
      var digits := t[..Span(IsDigit, t)];
      if |digits| >= DIGITS {
        return;
      }
      var count := Value(10, digits);
      if count < 1 || count + nproc - 1 > MSMPI_MAX_RANKS {
        return;
      }
      var affinity;
      ok, affinity := ReadMasks(Skip(IsDigit, t), count);
      host, nproc' := Host(name, count, affinity), nproc + count - 1;
    } else {
      if i > 0 && masks {
        return;
      }
      if IsNumber(t) {
        var count := Number(t);
        if count < 1 || count + nproc - 1 > MSMPI_MAX_RANKS {
          return;
        }
        host, nproc' := Host(name, count, []), nproc + count - 1;
      }
      ok := true;
    }
  }

  /** The loop over the masks of a host; each goes in front of the ones before it. */
  method ReadMasks(t: string, n: nat) returns (ok: bool, affinity: seq<Affinity>)
    ensures ok == Masks(t, n).Some?
    ensures ok ==> affinity == Masks(t, n).value
  {
    var rest := t;
    affinity, ok := [], true;
    ghost var left := Masks(t, n);
    for j := 0 to n
      invariant left.Some? == Masks(t, n).Some?
      invariant left.Some? ==> Masks(t, n).value == left.value + affinity
      invariant Left(rest, n - j, left) == true
    {
      var m := NextMask(rest, n - j, left);
      if m.None? {
        return false, [];
      }
      ghost var more := Masks(m.value.1, n - j - 1);
      Behind(left, more, m.value.0, affinity);
      rest, affinity, left := m.value.1, [m.value.0] + affinity, more;
    }
    assert Key(Masking, 0, 0);
  }

  ghost predicate Left(t: string, n: nat, left: Option<seq<Affinity>>) {
    forall z: int :: Key(Masking, n, z) ==> left == Masks(t, n)
  }

  method NextMask(t: string, n: nat, ghost left: Option<seq<Affinity>>) returns (m: Option<(Affinity, string)>)
    requires 0 < n && Left(t, n, left) == true
    ensures m.None? ==> left.None?
    ensures m.Some? ==>
      var more := Masks(m.value.1, n - 1);
      left == if more.None? then None else Some(more.value + [m.value.0])
  {
    assert Key(Masking, n, 0);
    if Head(t) != ',' {
      return None;
    }
    m := Mask(t[1..]);
  }

  lemma Behind(left: Option<seq<Affinity>>, more: Option<seq<Affinity>>, a: Affinity, behind: seq<Affinity>)
    requires left == if more.None? then None else Some(more.value + [a])
    ensures left.Some? ==> left.value + behind == more.value + ([a] + behind)
  {
  }

  /** count_white_spaces, as a function of the text. */
  function Gaps(t: string): nat
    decreases |t|
  {
    if t == "" then 0 else if IsSpace(t[0]) then 1 + Gaps(Skip(IsSpace, t)) else Gaps(t[1..])
  }

  /** The table of arguments is allocated for exactly as many as there are. */
  lemma {:induction false} ArgsAreGaps(t: string)
    ensures |Args(t)| == Gaps(t) + 1
    decreases |t|
  {
    if t != "" {
      ArgsAreGaps(if IsSpace(t[0]) then Skip(IsSpace, t) else t[1..]);
    }
  }

  /** From place s of the buffer on there is this string. */
  ghost predicate StringAt(p: array<char>, s: nat, t: string)
    reads p
  {
    s + |t| < p.Length && p[s..s + |t|] == t && p[s + |t|] == '\0'
  }

  /** The argument that has begun with `part`, and those after it. */
  function Glue(part: string, rest: seq<string>): seq<string>
    requires rest != []
  {
    [part + rest[0]] + rest[1..]
  }

  /** Where the white space ends. */
  method SkipSpaces(p: array<char>, i: nat, n: nat) returns (r: nat)
    requires i <= n < p.Length && p[n] == '\0'
    ensures i <= r <= n && p[r..n] == Skip(IsSpace, p[i..n])
  {
    r := i;
    while IsSpace(p[r])
      invariant i <= r <= n && Skip(IsSpace, p[r..n]) == Skip(IsSpace, p[i..n])
      decreases n - r
    {
      assert p[r..n][0] == p[r] && p[r..n][1..] == p[r + 1..n];
      r := r + 1;
    }
    assert r < n ==> p[r..n][0] == p[r];
  }

  /** The arguments so far, and where they are. */
  ghost predicate Cut(p: array<char>, argv: seq<nat>, done: seq<string>, c: nat)
    reads p
  {
    && |argv| == |done| + 1 && argv[|done|] == c
    && forall k :: 0 <= k < |done| ==> argv[k] + |done[k]| < c && StringAt(p, argv[k], done[k])
  }

  /** mp_parse_hosts_string's first half: white space is overwritten with terminators where arguments end. */
  method SplitArgs(p: array<char>, n: nat) returns (argv: seq<nat>)
    requires n < p.Length && p[n] == '\0' && '\0' !in p[..n]
    modifies p
    ensures var args := Args(old(p[..n]));
            |argv| == |args| && forall k :: 0 <= k < |args| ==> StringAt(p, argv[k], args[k])
  {
    ghost var args := Args(p[..n]);
    ghost var done: seq<string>, c: nat := [], 0;
    argv := [0];
    var i: nat := 0;
    GlueNone(args);
    assert p[0..n] == p[..n] && p[0..0] == "";
    while p[i] != '\0'
      invariant Splitting(p, i, n, argv, done, c, args) == true
      invariant i <= n < p.Length
      decreases n - i
    {
      if IsSpace(p[i]) {
        i, argv, done, c := NextArg(p, i, n, argv, done, c, args);
      } else {
        InArg(p, i, n, argv, done, c, args);
        i := i + 1;
      }
    }
    SplitDone(p, i, n, argv, done, c, args);
  }

  /** The white space before i has been cut out; what is left of the arguments begins at c. */
  ghost predicate Splitting(p: array<char>, i: nat, n: nat, argv: seq<nat>, done: seq<string>, c: nat, args: seq<string>)
    reads p
  {
    && c <= i <= n < p.Length && p[n] == '\0' && '\0' !in p[i..n]
    && Cut(p, argv, done, c)
    && done + Glue(p[c..i], Args(p[i..n])) == args
  }

  method NextArg(p: array<char>, i: nat, n: nat, argv: seq<nat>, ghost done: seq<string>, ghost c: nat, ghost args: seq<string>)
    returns (i': nat, argv': seq<nat>, ghost done': seq<string>, ghost c': nat)
    requires Splitting(p, i, n, argv, done, c, args) == true && i < n && IsSpace(p[i])
    modifies p
    ensures Splitting(p, i', n, argv', done', c', args) == true && i < i' <= n
  {
    ghost var part := p[c..i];
    SpaceAt(p[i..n], p[i + 1..n]);
    Later(p, i, i + 1, n);
    EndArg(p, i, n, argv, done, c);
    i' := SkipSpaces(p, i + 1, n);
    Later(p, i + 1, i', n);
    GlueEnds(done, part, Args(p[i'..n]));
    CutMore(p, argv, done, c, part, i');
    done', argv', c' := done + [part], argv + [i'], i';
    assert p[c'..i'] == "";
  }

  lemma SpaceAt(t: string, rest: string)
    requires t != "" && IsSpace(t[0]) && rest == t[1..]
    ensures Args(t) == [""] + Args(Skip(IsSpace, rest))
  {
    assert Skip(IsSpace, t) == Skip(IsSpace, rest);
  }

  lemma InArg(p: array<char>, i: nat, n: nat, argv: seq<nat>, done: seq<string>, c: nat, args: seq<string>)
    requires Splitting(p, i, n, argv, done, c, args) == true && i < n && !IsSpace(p[i])
    ensures Splitting(p, i + 1, n, argv, done, c, args) == true
  {
    assert p[i..n][0] == p[i] && p[i..n][1..] == p[i + 1..n];
    GlueGoesOn(p[c..i], p[i], Args(p[i + 1..n]));
    assert p[c..i] + [p[i]] == p[c..i + 1];
  }

  lemma NotEnded(p: array<char>, i: nat, n: nat)
    requires i < n < p.Length && '\0' !in p[i..n]
    ensures p[i] != '\0'
  {
    assert p[i..n][0] == p[i];
  }

  lemma Later(p: array<char>, i: nat, r: nat, n: nat)
    requires i <= r <= n < p.Length && '\0' !in p[i..n]
    ensures '\0' !in p[r..n]
  {
    assert p[r..n] == p[i..n][r - i..];
  }

  lemma SplitDone(p: array<char>, i: nat, n: nat, argv: seq<nat>, done: seq<string>, c: nat, args: seq<string>)
    requires Splitting(p, i, n, argv, done, c, args) == true && p[i] == '\0'
    ensures |argv| == |args| && forall k :: 0 <= k < |args| ==> StringAt(p, argv[k], args[k])
  {
    if i < n {
      NotEnded(p, i, n);
    }
    assert p[c..i] + "" == p[c..i];
    assert args == done + [p[c..n]];
  }

  /** The terminator goes where the argument ends. */
  method EndArg(p: array<char>, i: nat, n: nat, ghost argv: seq<nat>, ghost done: seq<string>, ghost c: nat)
    requires c <= i < n < p.Length && Cut(p, argv, done, c) == true && p[n] == '\0'
    modifies p
    ensures p[i + 1..n] == old(p[i + 1..n]) && p[n] == '\0' && StringAt(p, c, old(p[c..i]))
    ensures Cut(p, argv, done, c) == true
  {
    p[i] := '\0';
    forall k | 0 <= k < |done| ensures StringAt(p, argv[k], done[k]) {
      assert old(StringAt(p, argv[k], done[k]));
      assert p[argv[k]..argv[k] + |done[k]|] == old(p[argv[k]..argv[k] + |done[k]|]);
    }
  }

  lemma CutMore(p: array<char>, argv: seq<nat>, done: seq<string>, c: nat, part: string, r: nat)
    requires Cut(p, argv, done, c) == true && StringAt(p, c, part) && c + |part| < r
    ensures Cut(p, argv + [r], done + [part], r) == true
  {
  }

  lemma GlueNone(rest: seq<string>)
    requires rest != []
    ensures Glue("", rest) == rest && [] + rest == rest
  {
    assert "" + rest[0] == rest[0];
  }

  lemma GlueEnds(done: seq<string>, part: string, rest: seq<string>)
    requires rest != []
    ensures done + Glue(part, [""] + rest) == done + [part] + Glue("", rest)
  {
    assert part + "" == part;
    assert Glue(part, [""] + rest) == [part] + rest;
    GlueNone(rest);
  }

  lemma GlueGoesOn(part: string, c: char, rest: seq<string>)
    requires rest != []
    ensures Glue(part, [[c] + rest[0]] + rest[1..]) == Glue(part + [c], rest)
  {
    assert part + ([c] + rest[0]) == part + [c] + rest[0];
  }

  lemma {:induction false} ArgsEnd(t: string, k: nat)
    requires '\0' !in t && k < |Args(t)|
    ensures '\0' !in Args(t)[k]
    decreases |t|
  {
    if t != "" {
      if IsSpace(t[0]) {
        if k > 0 {
          ArgsEnd(Skip(IsSpace, t), k - 1);
        }
      } else {
        ArgsEnd(t[1..], k);
      }
    }
  }

  /** The string that a pointer into the buffer points to. */
  method ReadString(p: array<char>, s: nat, ghost t: string) returns (r: string)
    requires StringAt(p, s, t) && '\0' !in t
    ensures r == t
  {
    var n: nat := 0;
    while p[s + n] != '\0'
      invariant n <= |t| && (n < |t| ==> p[s + n] == t[n])
      decreases |t| - n
    {
      n := n + 1;
      assert n < |t| ==> p[s..s + |t|][n] == t[n];
    }
    r := p[s..s + n];
  }

  /** mp_parse_hosts_string */
  method ParseHostsString(p: array<char>, n: nat) returns (r: Parsed)
    requires n < p.Length && p[n] == '\0' && '\0' !in p[..n]
    modifies p
    ensures r == Parse(Args(old(p[..n])))
  {
    ghost var t := p[..n];
    var argv := SplitArgs(p, n);
    var args := ReadStrings(p, argv, t);
    r := ParseHostsArgv(args);
  }

  method ReadStrings(p: array<char>, argv: seq<nat>, ghost t: string) returns (args: seq<string>)
    requires '\0' !in t && |argv| == |Args(t)| && forall k :: 0 <= k < |argv| ==> StringAt(p, argv[k], Args(t)[k])
    ensures args == Args(t)
  {
    args := [];
    for k := 0 to |argv|
      invariant args == Args(t)[..k]
    {
      ArgsEnd(t, k);
      var arg := ReadString(p, argv[k], Args(t)[k]);
      args := args + [arg];
    }
  }
}
