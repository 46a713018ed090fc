/**
 The way back from a machine file: the hosts parser makes the file's hosts of its string, exactly
 when no name is taken for the count of the host before it in a way that matters.
 */
module MachinefileTheorems {
  import opened HostsParser
  import opened Machinefile
  import opened Sealing

  /** The host an entry stands for: one process when it has no count. */
  function HostOf(e: Entry): (h: Option<Host>)
    requires Proper(e)
    ensures h.Some? ==> 1 <= h.value.nproc
  {
    if e.field == "" then Some(Host(e.name, 1, [])) else Counted(e.name, e.field)
  }

  predicate HasMasks(e: Entry) { e.field != "" && IsExplicit(e.field) }

  /** All have masks or none does, but for a last host without a count. */
  predicate Matches(es: seq<Entry>, k: nat)
    requires k < |es|
  {
    HasMasks(es[k]) == HasMasks(es[0]) || (k == |es| - 1 && es[k].field == "")
  }

  predicate Right(es: seq<Entry>, k: nat)
    requires k < |es| && AllProper(es)
  {
    Matches(es, k) && HostOf(es[k]).Some?
  }

  predicate AllRight(es: seq<Entry>, i: nat)
    requires AllProper(es)
  {
    forall k :: i <= k < |es| ==> Right(es, k)
  }

  /** The name is no count, and so cannot be taken for that of the host before it, which has none. */
  predicate NamesTold(es: seq<Entry>) {
    forall k :: 0 < k < |es| && es[k - 1].field == "" ==> !IsCount(es[k].name)
  }

  function HostsOf(es: seq<Entry>, i: nat): (hosts: seq<Host>)
    requires i <= |es| && AllProper(es) && AllRight(es, i)
    ensures |hosts| == |es| - i
    ensures forall k :: 0 <= k < |hosts| ==> 1 <= hosts[k].nproc
    decreases |es| - i
  {
    if i == |es| then [] else assert Right(es, i); [HostOf(es[i]).value] + HostsOf(es, i + 1)
  }

  /** In the order of the file. */
  lemma {:induction false} HostsOfAt(es: seq<Entry>, i: nat, k: nat)
    requires i <= k < |es| && AllProper(es) && AllRight(es, i)
    ensures Right(es, k) && HostsOf(es, i)[k - i] == HostOf(es[k]).value
    decreases k - i
  {
    assert Right(es, i);
    var h, more := HostOf(es[i]).value, HostsOf(es, i + 1);
    if i < k {
      HostsOfAt(es, i + 1, k);
      OneOn(h, more, k - i);
    }
  }

  lemma OneOn(h: Host, more: seq<Host>, j: nat)
    requires 0 < j <= |more|
    ensures ([h] + more)[j] == more[j - 1]
  {
  }

  /** What the entry makes of the arguments that begin with its own. */
  lemma TakeEntry(es: seq<Entry>, i: nat, nproc: nat)
    requires i < |es| && AllProper(es) && NamesTold(es) && nproc <= MSMPI_MAX_RANKS
    ensures var (masks, t) := (0 < i && HasMasks(es[0]), Take(Flat(es, i), i, 0 < i && HasMasks(es[0]), nproc));
            && (t.Taken? <==> Right(es, i) && HostOf(es[i]).value.nproc + nproc - 1 <= MSMPI_MAX_RANKS)
            && (t.Taken? ==> t.host == HostOf(es[i]).value && t.nproc == nproc + t.host.nproc - 1
                             && t.masks == (HasMasks(es[i]) || masks) && Flat(es, i)[t.used..] == Flat(es, i + 1))
  {
    var e, flat := es[i], Flat(es, i);
    assert Proper(e);
    if e.field == "" {
      assert flat[1..] == Flat(es, i + 1);
      if i + 1 < |es| {
        assert flat[1] == es[i + 1].name;
      }
    } else {
      assert flat == [e.name, e.field] + Flat(es, i + 1);
      assert flat[2..] == Flat(es, i + 1);
    }
  }

  /** What is parsed of the entries from the i-th on, and when. */
  ghost predicate ParsedRight(es: seq<Entry>, i: nat, nproc: nat, p: Parsed)
    requires i <= |es| && AllProper(es)
  {
    && (p.Hosts? <==> AllRight(es, i) && nproc + Total(HostsOf(es, i)) - (|es| - i) <= MSMPI_MAX_RANKS)
    && (p.Hosts? ==> p.hosts == HostsOf(es, i))
  }

  lemma {:induction false} FlatParsed(es: seq<Entry>, i: nat, nproc: nat)
    requires i <= |es| && AllProper(es) && NamesTold(es) && nproc <= MSMPI_MAX_RANKS
    ensures ParsedRight(es, i, nproc, ParseFrom(Flat(es, i), |es|, i, 0 < i && HasMasks(es[0]), nproc)) == true
    decreases |es| - i
  {
    if i < |es| {
      var masks := 0 < i && HasMasks(es[0]);
      TakeEntry(es, i, nproc);
      var t := Take(Flat(es, i), i, masks, nproc);
      ParseOn(Flat(es, i), |es|, i, masks, nproc, t);
      if t.Taken? {
        if i + 1 < |es| {
          assert t.masks == HasMasks(es[0]);
        }
        FlatParsed(es, i + 1, t.nproc);
        HostParsed(es, i, nproc, t, ParseFrom(Flat(es, i + 1), |es|, i + 1, t.masks, t.nproc));
      } else {
        NotParsed(es, i, nproc);
      }
    }
  }

  lemma HostParsed(es: seq<Entry>, i: nat, nproc: nat, t: Taken, p: Parsed)
    requires i < |es| && AllProper(es) && t.Taken? && Right(es, i) && t.host == HostOf(es[i]).value
    requires t.nproc == nproc + t.host.nproc - 1 && ParsedRight(es, i + 1, t.nproc, p) == true
    ensures ParsedRight(es, i, nproc, Prepend(t.host, p)) == true
  {
    RightOn(es, i);
  }

  lemma NotParsed(es: seq<Entry>, i: nat, nproc: nat)
    requires i < |es| && AllProper(es)
    requires !(Right(es, i) && HostOf(es[i]).value.nproc + nproc - 1 <= MSMPI_MAX_RANKS)
    ensures ParsedRight(es, i, nproc, Error) == true
  {
    RightOn(es, i);
  }

  lemma RightOn(es: seq<Entry>, i: nat)
    requires i < |es| && AllProper(es)
    ensures AllRight(es, i) <==> Right(es, i) && AllRight(es, i + 1)
    ensures AllRight(es, i) ==> HostsOf(es, i) == [HostOf(es[i]).value] + HostsOf(es, i + 1)
    ensures AllRight(es, i) ==> Total(HostsOf(es, i)) == HostOf(es[i]).value.nproc + Total(HostsOf(es, i + 1))
    ensures AllRight(es, i + 1) ==> |es| - i - 1 <= Total(HostsOf(es, i + 1))
  {
    if AllRight(es, i) {
      assert Right(es, i);
      TotalOn(HostOf(es[i]).value, HostsOf(es, i + 1));
    }
    if AllRight(es, i + 1) {
      AllCount(es, i + 1);
    }
  }

  lemma TotalOn(h: Host, hosts: seq<Host>)
    ensures Total([h] + hosts) == h.nproc + Total(hosts)
  {
    assert ([h] + hosts)[1..] == hosts;
  }

  lemma AllCount(es: seq<Entry>, i: nat)
    requires i <= |es| && AllProper(es) && AllRight(es, i)
    ensures |es| - i <= Total(HostsOf(es, i))
  {
    TotalAtLeast(HostsOf(es, i));
  }

  /** What the hosts parser makes of the string: the file's hosts when all are right and not too many, or an error. */
  ghost predicate ReadsBack(es: seq<Entry>, p: Parsed)
    requires AllProper(es)
  {
    && (p.Hosts? <==> |es| <= MSMPI_MAX_RANKS && AllRight(es, 0) && Total(HostsOf(es, 0)) <= MSMPI_MAX_RANKS)
    && (p.Hosts? ==> p.hosts == HostsOf(es, 0) && p.nproc == Total(p.hosts))
  }

  /** Without names that can be taken for counts, a file is read back or refused. */
  lemma PlainFile(es: seq<Entry>)
    requires es != [] && AllProper(es) && |Decimal(|es|)| < X_SPACE && NamesTold(es)
    ensures ReadsBack(es, Parse(Args(Text(es))))
  {
    var n := |es|;
    TextParsed(es);
    if n <= MSMPI_MAX_RANKS {
      FlatParsed(es, 0, n);
      AcceptedCounts(Args(Text(es)));
    }
  }

  /** The number of hosts is parsed, and then the hosts. */
  lemma TextParsed(es: seq<Entry>)
    requires es != [] && AllProper(es) && |Decimal(|es|)| < X_SPACE
    ensures Parse(Args(Text(es))) == if |es| > MSMPI_MAX_RANKS then Error else ParseFrom(Flat(es, 0), |es|, 0, false, |es|)
  {
    TextArgs(es);
    DecimalValue(|es|);
    PositiveIs(Decimal(|es|));
    assert Args(Text(es))[1..] == Flat(es, 0);
  }

  // ------------------------------------------------------------ names that are counts

  /** The k-th host, as it is parsed, still takes a count from what follows its entry. */
  predicate Open(es: seq<Entry>, k: nat)
    requires k < |es|
    decreases k
  {
    es[k].field == "" || (0 < k && Open(es, k - 1) && IsCount(es[k].name))
  }

  predicate IsOne(t: string) { !IsExplicit(t) && IsNumber(t) && Number(t) == 1 }

  /** The k-th name is taken for the count of the host before. */
  predicate NameTaken(es: seq<Entry>, k: nat) {
    0 < k < |es| && Open(es, k - 1) && IsCount(es[k].name)
  }

  /** If the k-th name is taken for a count, that count is right, and the k-th count can be taken for the name. */
  predicate ToldAt(es: seq<Entry>, k: nat)
    requires k < |es|
  {
    NameTaken(es, k) ==> IsOne(es[k].name) && es[k].field == es[k].name
  }

  predicate Told(es: seq<Entry>, i: nat) {
    forall k :: i < k < |es| ==> ToldAt(es, k)
  }

  /** The arguments that the i-th host is parsed from, while all has been right. */
  function From(es: seq<Entry>, i: nat): seq<string>
    requires i <= |es|
  {
    if NameTaken(es, i) then Flat(es, i)[1..] else Flat(es, i)
  }

  /** What is left when the parser is late by an entry, or by its name. */
  predicate Late(es: seq<Entry>, j: nat, args: seq<string>) {
    j <= |es| && (args == Flat(es, j) || (j < |es| && es[j].field != "" && args == Flat(es, j)[1..]))
  }

  lemma FlatParts(es: seq<Entry>, j: nat)
    requires j < |es|
    ensures Flat(es, j)[0] == es[j].name
    ensures Flat(es, j)[1..] == if es[j].field == "" then Flat(es, j + 1) else [es[j].field] + Flat(es, j + 1)
    ensures es[j].field != "" ==> Flat(es, j)[2..] == Flat(es, j + 1) && Flat(es, j)[1] == es[j].field
  {
    FlatIs(es, j);
    Parts(es[j].name, es[j].field, Flat(es, j + 1));
  }

  lemma Parts(name: string, field: string, more: seq<string>)
    ensures ([name] + more)[0] == name && ([name] + more)[1..] == more
    ensures var args := [name] + ([field] + more);
            args[0] == name && args[1] == field && args[1..] == [field] + more && args[2..] == more
  {
  }

  /** Behind the first argument of an entry there may be the next entry, with its name or without. */
  lemma LateOn(es: seq<Entry>, j: nat, x: string, args: seq<string>, used: nat) returns (j': nat)
    requires j < |es| && args == [x] + Flat(es, j + 1) && 1 <= used <= 2 && used <= |args|
    ensures j < j' && Late(es, j', args[used..]) == true
  {
    j' := j + 1;
    if used == 1 {
      assert args[1..] == Flat(es, j + 1);
    } else {
      assert j + 1 < |es|;
      FlatParts(es, j + 1);
      assert args[2..] == Flat(es, j + 1)[1..];
      if es[j + 1].field == "" {
        j' := j + 2;
      }
    }
  }

  /** An entry has its name first, or has only its count left, if the parser is late. */
  lemma LateBegins(es: seq<Entry>, j: nat, args: seq<string>)
    requires j < |es| && Late(es, j, args) == true
    ensures args != []
    ensures es[j].field == "" ==> args == [args[0]] + Flat(es, j + 1)
    ensures es[j].field != "" ==> args == Flat(es, j) || args == [args[0]] + Flat(es, j + 1)
  {
    FlatIs(es, j);
    FlatParts(es, j);
  }

  /** One host of a late parser: it stays late. */
  lemma LateStays(es: seq<Entry>, j: nat, args: seq<string>, used: nat) returns (j': nat)
    requires j < |es| && AllProper(es) && Late(es, j, args) == true && 1 <= used <= 2 && used <= |args|
    requires used == 1 ==> |args| == 1 || !IsCount(args[1])
    ensures j < j' && Late(es, j', args[used..]) == true
  {
    LateBegins(es, j, args);
    if args == [args[0]] + Flat(es, j + 1) {
      j' := LateOn(es, j, args[0], args, used);
    } else {
      j' := j + 1;
      CountFollows(es, j);
    }
  }

  lemma CountFollows(es: seq<Entry>, j: nat)
    requires j < |es| && AllProper(es) && es[j].field != ""
    ensures var args := Flat(es, j);
            |args| > 1 && IsCount(args[1]) && Late(es, j + 1, args[2..]) == true
  {
    assert Proper(es[j]);
    FlatIs(es, j);
    FlatParts(es, j);
  }

  lemma LateEnds(es: seq<Entry>, j: nat, args: seq<string>)
    requires Late(es, j, args) == true
    ensures j <= |es| && (args != [] ==> j < |es|)
  {
  }

  lemma ParseOn(args: seq<string>, n: nat, i: nat, masks: bool, nproc: nat, t: Taken)
    requires i < n && t == Take(args, i, masks, nproc)
    ensures t.Refused? ==> ParseFrom(args, n, i, masks, nproc) == Error
    ensures t.Taken? ==> ParseFrom(args, n, i, masks, nproc)
                         == Prepend(t.host, ParseFrom(args[t.used..], n, i + 1, t.masks, t.nproc))
    ensures t.Taken? ==> 1 <= t.used <= 2 && t.used <= |args| && (t.used == 1 ==> |args| == 1 || !IsCount(args[1]))
  {
  }

  /** By the i-th host the parser has gone past more entries than that. */
  ghost predicate Behind(es: seq<Entry>, i: nat, args: seq<string>) {
    forall z: int :: Key(Hosting, i, z) ==> AllProper(es) && exists j: nat :: i < j && Late(es, j, args)
  }

  lemma BehindIs(es: seq<Entry>, i: nat, j: nat, args: seq<string>)
    requires i < j && AllProper(es) && Late(es, j, args) == true
    ensures Behind(es, i, args) == true && i < |es|
  {
    LateEnds(es, j, args);
  }

  /** It runs out of arguments. */
  lemma {:induction false} BehindFails(es: seq<Entry>, i: nat, args: seq<string>, masks: bool, nproc: nat)
    requires i < |es| && Behind(es, i, args) == true
    ensures Fails(args, |es|, i, masks, nproc) == true
    decreases |es| - i
  {
    var t := TakeIs(args, i, masks, nproc);
    if t.Taken? {
      BehindNext(es, i, args, masks, nproc, t);
      BehindFails(es, i + 1, args[t.used..], t.masks, t.nproc);
    }
    FailsOn(args, |es|, i, masks, nproc, t);
  }

  lemma BehindNext(es: seq<Entry>, i: nat, args: seq<string>, masks: bool, nproc: nat, t: Taken)
    requires Behind(es, i, args) == true && IsTake(args, i, masks, nproc, t) == true && t.Taken?
    ensures i + 1 < |es| && t.used <= |args| && Behind(es, i + 1, args[t.used..]) == true
  {
    assert Key(Hosting, i, 0);
    var j: nat :| i < j && Late(es, j, args);
    var j' := LateNext(es, j, args, i, masks, nproc, t);
    BehindIs(es, i + 1, j', args[t.used..]);
  }

  /** A parser that has gone past an entry without making a host of it fails. */
  lemma LateFails(es: seq<Entry>, i: nat, j: nat, args: seq<string>, masks: bool, nproc: nat)
    requires i < j && AllProper(es) && Late(es, j, args) == true
    ensures i <= |es| && ParseFrom(args, |es|, i, masks, nproc) == Error
  {
    BehindIs(es, i, j, args);
    BehindFails(es, i, args, masks, nproc);
    assert Key(Hosting, i, 0);
  }

  ghost predicate IsTake(args: seq<string>, i: nat, masks: bool, nproc: nat, t: Taken) {
    forall z: int :: Key(Hosting, i, z) ==> t == Take(args, i, masks, nproc)
  }

  lemma TakeIs(args: seq<string>, i: nat, masks: bool, nproc: nat) returns (t: Taken)
    ensures IsTake(args, i, masks, nproc, t) == true && (t.Taken? ==> 0 < t.used <= |args|)
  {
    t := Take(args, i, masks, nproc);
  }

  lemma LateNext(es: seq<Entry>, j: nat, args: seq<string>, i: nat, masks: bool, nproc: nat, t: Taken) returns (j': nat)
    requires AllProper(es) && Late(es, j, args) == true && IsTake(args, i, masks, nproc, t) == true && t.Taken?
    ensures j < j' && t.used <= |args| && Late(es, j', args[t.used..]) == true
  {
    assert Key(Hosting, i, 0);
    TakeUses(args, i, masks, nproc, t);
    LateEnds(es, j, args);
    assert args != [];
    j' := LateStays(es, j, args, t.used);
  }

  lemma TakeUses(args: seq<string>, i: nat, masks: bool, nproc: nat, t: Taken)
    requires t == Take(args, i, masks, nproc)
    ensures t.Taken? ==> 1 <= t.used <= 2 && t.used <= |args| && (t.used == 1 ==> |args| == 1 || !IsCount(args[1]))
  {
  }

  ghost predicate Fails(args: seq<string>, n: nat, i: nat, masks: bool, nproc: nat) {
    forall z: int :: Key(Hosting, i, z) ==> i <= n && ParseFrom(args, n, i, masks, nproc) == Error
  }

  lemma FailsOn(args: seq<string>, n: nat, i: nat, masks: bool, nproc: nat, t: Taken)
    requires i < n && IsTake(args, i, masks, nproc, t) == true
    requires t.Taken? ==> t.used <= |args| && Fails(args[t.used..], n, i + 1, t.masks, t.nproc) == true
    ensures Fails(args, n, i, masks, nproc) == true
  {
    assert Key(Hosting, i, 0);
    assert Key(Hosting, i + 1, 0);
  }

  /** A host that is open has no count, or the count 1 that its name gave: it stands for one process either way. */
  lemma OpenEntry(es: seq<Entry>, i: nat)
    requires i < |es| && AllProper(es) && Open(es, i) && ToldAt(es, i)
    ensures From(es, i) == [es[i].name] + Flat(es, i + 1) && HostOf(es[i]) == Some(Host(es[i].name, 1, []))
  {
    FlatParts(es, i);
    assert Proper(es[i]);
  }

  /** Where some host has masks, only the last can be open. */
  lemma {:induction false} OpenNoMasks(es: seq<Entry>, i: nat)
    requires i + 1 < |es| && AllProper(es) && AllRight(es, 0) && Open(es, i)
    ensures !HasMasks(es[0])
    decreases i
  {
    assert Right(es, i);
    if es[i].field != "" {
      OpenNoMasks(es, i - 1);
    }
  }

  lemma {:induction false} MasksCount(t: string, n: nat)
    requires Masks(t, n).Some?
    ensures |Masks(t, n).value| == n
    decreases n
  {
    if n != 0 {
      var rest := MasksStep(t, n);
      MasksCount(rest, n - 1);
    }
  }

  lemma MasksStep(t: string, n: nat) returns (rest: string)
    requires 0 < n && Masks(t, n).Some?
    ensures Masks(rest, n - 1).Some? && |Masks(t, n).value| == |Masks(rest, n - 1).value| + 1
  {
    rest := Mask(t[1..]).value.1;
  }

  /** A count other than a plain 1 makes another host. */
  lemma OtherCount(name: string, t: string)
    requires IsCount(t) && !IsOne(t)
    ensures Counted(name, t) != Some(Host(name, 1, []))
  {
    if IsExplicit(t) && Counted(name, t).Some? {
      MasksCount(Skip(IsDigit, t), Value(10, t[..Span(IsDigit, t)]));
    }
  }

  lemma OneCount(name: string, t: string)
    requires IsOne(t)
    ensures IsCount(t) && Counted(name, t) == Some(Host(name, 1, []))
  {
  }

  /** What is parsed of hosts that are expected to begin with h. */
  predicate Makes(p: Parsed, hosts: seq<Host>) { p.Hosts? && p.hosts == hosts }

  lemma MakesOn(h: Host, p: Parsed, g: Host, hosts: seq<Host>)
    ensures Makes(Prepend(h, p), [g] + hosts) <==> h == g && Makes(p, hosts)
  {
    if p.Hosts? {
      assert ([h] + p.hosts)[0] == h && ([g] + hosts)[0] == g;
      assert ([h] + p.hosts)[1..] == p.hosts && ([g] + hosts)[1..] == hosts;
    }
  }

  /** A parser that is about to make a host of another name, or of none, does not make the file's hosts. */
  lemma OtherName(args: seq<string>, n: nat, i: nat, masks: bool, nproc: nat, hosts: seq<Host>)
    requires i < n && hosts != [] && (args == [] || args[0] != hosts[0].name)
    ensures !Makes(ParseFrom(args, n, i, masks, nproc), hosts)
  {
    var t := Take(args, i, masks, nproc);
    if t.Taken? {
      var p := ParseFrom(args[t.used..], n, i + 1, t.masks, t.nproc);
      assert hosts == [hosts[0]] + hosts[1..];
      MakesOn(t.host, p, hosts[0], hosts[1..]);
    }
  }

  /** What is parsed from the i-th host on, while all has been right, is the rest of the file's hosts. */
  ghost predicate Made(es: seq<Entry>, i: nat, nproc: nat)
    requires i <= |es| && AllProper(es) && AllRight(es, 0)
  {
    Makes(ParseFrom(From(es, i), |es|, i, 0 < i && HasMasks(es[0]), nproc), HostsOf(es, i))
  }

  /** One host more. */
  lemma MadeOn(es: seq<Entry>, i: nat, nproc: nat, t: Taken, args: seq<string>)
    requires i < |es| && AllProper(es) && AllRight(es, 0) && HostOf(es[i]).Some?
    requires args == From(es, i) && t == Take(args, i, 0 < i && HasMasks(es[0]), nproc)
    ensures t.Refused? ==> !Made(es, i, nproc)
    ensures t.Taken? && t.host != HostOf(es[i]).value ==> !Made(es, i, nproc)
    ensures t.Taken? ==> t.used <= |args|
    ensures t.Taken? && t.host == HostOf(es[i]).value ==>
      (Made(es, i, nproc) <==> Makes(ParseFrom(args[t.used..], |es|, i + 1, t.masks, t.nproc), HostsOf(es, i + 1)))
  {
    RightOn(es, i);
    ParseOn(args, |es|, i, 0 < i && HasMasks(es[0]), nproc, t);
    if t.Taken? {
      MakesOn(t.host, ParseFrom(args[t.used..], |es|, i + 1, t.masks, t.nproc), HostOf(es[i]).value, HostsOf(es, i + 1));
    }
  }

  lemma TakeCounted(name: string, field: string, more: seq<string>, i: nat, masks: bool, nproc: nat, h: Host)
    requires IsCount(field) && Counted(name, field) == Some(h) && h.nproc + nproc - 1 <= MSMPI_MAX_RANKS
    requires 0 < i ==> masks == IsExplicit(field)
    ensures Take([name] + ([field] + more), i, masks, nproc)
         == Taken(h, 2, IsExplicit(field) || masks, (h.nproc - 1) + nproc)
  {
    var args := [name] + ([field] + more);
    assert args[0] == name && args[1] == field;
  }

  lemma TakeBare(name: string, more: seq<string>, i: nat, nproc: nat)
    requires more == [] || !IsCount(more[0])
    ensures Take([name] + more, i, false, nproc) == Taken(Host(name, 1, []), 1, false, nproc)
    ensures more == [] ==> forall masks :: Take([name] + more, i, masks, nproc) == Taken(Host(name, 1, []), 1, masks, nproc)
  {
    var args := [name] + more;
    assert args[0] == name && (more != [] ==> args[1] == more[0]);
  }

  lemma ClosedMade(es: seq<Entry>, i: nat, nproc: nat, more: nat)
    requires i < |es| && AllProper(es) && AllRight(es, 0) && !Open(es, i) && HostOf(es[i]).Some?
    requires more == (HostOf(es[i]).value.nproc - 1) + nproc && more <= MSMPI_MAX_RANKS
    ensures Made(es, i, nproc) == Made(es, i + 1, more)
  {
    var h, masks := HostOf(es[i]).value, 0 < i && HasMasks(es[0]);
    assert Proper(es[i]) && Right(es, i);
    FlatIs(es, i);
    TakeCounted(es[i].name, es[i].field, Flat(es, i + 1), i, masks, nproc, h);
    MadeOn(es, i, nproc, Take(Flat(es, i), i, masks, nproc), Flat(es, i));
    FlatParts(es, i);
  }

  lemma LastMade(es: seq<Entry>, i: nat, nproc: nat)
    requires i + 1 == |es| && AllProper(es) && AllRight(es, 0) && Open(es, i) && ToldAt(es, i)
    ensures Made(es, i, nproc)
  {
    OpenEntry(es, i);
    TakeBare(es[i].name, [], i, nproc);
    MadeOn(es, i, nproc, Take(From(es, i), i, 0 < i && HasMasks(es[0]), nproc), From(es, i));
  }

  /** The next name is no count. */
  lemma BareMade(es: seq<Entry>, i: nat, nproc: nat)
    requires i + 1 < |es| && AllProper(es) && AllRight(es, 0) && Open(es, i) && ToldAt(es, i) && !IsCount(es[i + 1].name)
    ensures Made(es, i, nproc) <==> Made(es, i + 1, nproc)
  {
    OpenEntry(es, i);
    OpenNoMasks(es, i);
    FlatParts(es, i + 1);
    var more := Flat(es, i + 1);
    TakeBare(es[i].name, more, i, nproc);
    MadeOn(es, i, nproc, Take(From(es, i), i, false, nproc), From(es, i));
    assert From(es, i)[1..] == more == From(es, i + 1);
  }

  /** The next name is taken for a count that is not 1. */
  lemma WrongMade(es: seq<Entry>, i: nat, nproc: nat)
    requires i + 1 < |es| && AllProper(es) && AllRight(es, 0) && Open(es, i) && ToldAt(es, i)
    requires IsCount(es[i + 1].name) && !IsOne(es[i + 1].name)
    ensures !Made(es, i, nproc)
  {
    OpenEntry(es, i);
    OpenNoMasks(es, i);
    FlatParts(es, i + 1);
    OtherCount(es[i].name, es[i + 1].name);
    var args := From(es, i);
    assert args[0] == es[i].name && args[1] == es[i + 1].name && |args| > 1;
    MadeOn(es, i, nproc, Take(args, i, false, nproc), args);
  }

  /** The next name is taken for the count 1. */
  lemma OneMade(es: seq<Entry>, i: nat, nproc: nat)
    requires i + 1 < |es| && AllProper(es) && AllRight(es, 0) && Open(es, i) && ToldAt(es, i)
    requires IsOne(es[i + 1].name) && nproc <= MSMPI_MAX_RANKS
    ensures Made(es, i, nproc) <==> es[i + 1].field == es[i + 1].name && Made(es, i + 1, nproc)
  {
    OpenNoMasks(es, i);
    FlatIs(es, i + 1);
    var next := es[i + 1].name;
    var rest := if es[i + 1].field == "" then Flat(es, i + 2) else [es[i + 1].field] + Flat(es, i + 2);
    assert Flat(es, i + 1) == [next] + rest;
    assert ([next] + rest)[1..] == rest;
    OneTaken(es, i, nproc, es[i].name, next, rest);
    OneCount("", next);
    AfterOne(es, i + 1, nproc, rest);
  }

  lemma OneTaken(es: seq<Entry>, i: nat, nproc: nat, name: string, next: string, rest: seq<string>)
    requires i + 1 < |es| && AllProper(es) && AllRight(es, 0) && Open(es, i) && ToldAt(es, i) && !HasMasks(es[0])
    requires name == es[i].name && IsOne(next) && nproc <= MSMPI_MAX_RANKS && Flat(es, i + 1) == [next] + rest
    ensures Made(es, i, nproc) <==> Makes(ParseFrom(rest, |es|, i + 1, false, nproc), HostsOf(es, i + 1))
  {
    OpenEntry(es, i);
    var args, t := TakeOne(name, next, rest, i, nproc);
    MadeOn(es, i, nproc, t, args);
  }

  lemma TakeOne(name: string, next: string, rest: seq<string>, i: nat, nproc: nat) returns (args: seq<string>, t: Taken)
    requires IsOne(next) && nproc <= MSMPI_MAX_RANKS
    ensures args == [name] + ([next] + rest) && args[2..] == rest
    ensures t == Take(args, i, false, nproc) == Taken(Host(name, 1, []), 2, false, nproc)
  {
    args := [name] + ([next] + rest);
    OneCount(name, next);
    TakeCounted(name, next, rest, i, false, nproc, Host(name, 1, []));
    t := Take(args, i, false, nproc);
  }

  /** Behind a name that was taken for a count there must be that name again. */
  lemma AfterOne(es: seq<Entry>, i: nat, nproc: nat, rest: seq<string>)
    requires 0 < i < |es| && AllProper(es) && AllRight(es, 0) && NameTaken(es, i) && rest == Flat(es, i)[1..]
    requires !HasMasks(es[0])
    ensures Makes(ParseFrom(rest, |es|, i, false, nproc), HostsOf(es, i)) <==> es[i].field == es[i].name && Made(es, i, nproc)
  {
    assert Proper(es[i]);
    FlatParts(es, i);
    if es[i].field == "" {
      LateFails(es, i, i + 1, rest, false, nproc);
    } else if es[i].field != es[i].name {
      HostsOfAt(es, i, i);
      NamedFor(es[i]);
      OtherName(rest, |es|, i, false, nproc, HostsOf(es, i));
    }
  }

  lemma NamedFor(e: Entry)
    requires Proper(e)
    ensures HostOf(e).Some? ==> HostOf(e).value.name == e.name
  {
  }

  lemma OpenMade(es: seq<Entry>, i: nat, nproc: nat)
    requires i < |es| && AllProper(es) && AllRight(es, 0) && Open(es, i) && ToldAt(es, i) && nproc <= MSMPI_MAX_RANKS
    ensures i + 1 == |es| ==> Made(es, i, nproc)
    ensures i + 1 < |es| && !ToldAt(es, i + 1) ==> !Made(es, i, nproc)
    ensures i + 1 < |es| && ToldAt(es, i + 1) ==> (Made(es, i, nproc) <==> Made(es, i + 1, nproc))
  {
    if i + 1 == |es| {
      LastMade(es, i, nproc);
    } else if !IsCount(es[i + 1].name) {
      BareMade(es, i, nproc);
    } else if IsOne(es[i + 1].name) {
      OneMade(es, i, nproc);
    } else {
      WrongMade(es, i, nproc);
    }
  }

  lemma EndMade(es: seq<Entry>, nproc: nat)
    requires es != [] && AllProper(es) && AllRight(es, 0)
    ensures Made(es, |es|, nproc)
  {
  }

  /** With not too many in all, there are not too many at any host. */
  lemma Bounds(es: seq<Entry>, i: nat, nproc: nat)
    requires i < |es| && AllProper(es) && AllRight(es, 0)
    requires nproc + Total(HostsOf(es, i)) - (|es| - i) <= MSMPI_MAX_RANKS
    ensures HostOf(es[i]).Some? && nproc <= MSMPI_MAX_RANKS
    ensures var more := (HostOf(es[i]).value.nproc - 1) + nproc;
            more <= MSMPI_MAX_RANKS && more + Total(HostsOf(es, i + 1)) - (|es| - (i + 1)) <= MSMPI_MAX_RANKS
  {
    assert Right(es, i);
    RightOn(es, i);
    AllCount(es, i);
  }

  /** With all told up to the i-th, the rest of the hosts is made exactly when the rest is told. */
  lemma {:induction false} MadeIffTold(es: seq<Entry>, i: nat, nproc: nat)
    requires i < |es| && AllProper(es) && AllRight(es, 0) && ToldAt(es, i)
    requires nproc + Total(HostsOf(es, i)) - (|es| - i) <= MSMPI_MAX_RANKS
    ensures Made(es, i, nproc) == Told(es, i)
    decreases |es| - i
  {
    Bounds(es, i, nproc);
    ToldOn(es, i);
    var more := (HostOf(es[i]).value.nproc - 1) + nproc;
    StepMade(es, i, nproc, more);
    if i + 1 < |es| && ToldAt(es, i + 1) {
      MadeIffTold(es, i + 1, more);
    }
  }

  lemma StepMade(es: seq<Entry>, i: nat, nproc: nat, more: nat)
    requires i < |es| && AllProper(es) && AllRight(es, 0) && ToldAt(es, i) && HostOf(es[i]).Some?
    requires nproc <= MSMPI_MAX_RANKS && more == (HostOf(es[i]).value.nproc - 1) + nproc && more <= MSMPI_MAX_RANKS
    ensures i + 1 == |es| ==> Made(es, i, nproc)
    ensures i + 1 < |es| && !ToldAt(es, i + 1) ==> !Made(es, i, nproc)
    ensures i + 1 < |es| && ToldAt(es, i + 1) ==> Made(es, i, nproc) == Made(es, i + 1, more)
  {
    if Open(es, i) {
      OpenStep(es, i, nproc, more);
    } else {
      ClosedStep(es, i, nproc, more);
    }
  }

  lemma ClosedStep(es: seq<Entry>, i: nat, nproc: nat, more: nat)
    requires i < |es| && AllProper(es) && AllRight(es, 0) && !Open(es, i) && HostOf(es[i]).Some?
    requires more == (HostOf(es[i]).value.nproc - 1) + nproc && more <= MSMPI_MAX_RANKS
    ensures Made(es, i, nproc) == Made(es, i + 1, more)
    ensures i + 1 == |es| ==> Made(es, i, nproc) == true
    ensures i + 1 < |es| ==> ToldAt(es, i + 1) == true
  {
    ClosedMade(es, i, nproc, more);
    if i + 1 == |es| {
      EndMade(es, more);
    } else {
      ClosedTells(es, i);
    }
  }

  lemma ClosedTells(es: seq<Entry>, i: nat)
    requires i + 1 < |es| && !Open(es, i)
    ensures ToldAt(es, i + 1) == true
  {
  }

  /** An open host stands for one process, and adds none to the count. */
  lemma OpenStep(es: seq<Entry>, i: nat, nproc: nat, more: nat)
    requires i < |es| && AllProper(es) && AllRight(es, 0) && Open(es, i) && ToldAt(es, i) && HostOf(es[i]).Some?
    requires nproc <= MSMPI_MAX_RANKS && more == (HostOf(es[i]).value.nproc - 1) + nproc
    ensures i + 1 == |es| ==> Made(es, i, nproc) == true
    ensures i + 1 < |es| && !ToldAt(es, i + 1) ==> Made(es, i, nproc) == false
    ensures i + 1 < |es| && ToldAt(es, i + 1) ==> Made(es, i, nproc) == Made(es, i + 1, more)
  {
    OpenEntry(es, i);
    assert more == nproc;
    OpenMade(es, i, nproc);
  }

  lemma ToldOn(es: seq<Entry>, i: nat)
    requires i < |es|
    ensures Told(es, i) <==> i + 1 == |es| || (ToldAt(es, i + 1) && Told(es, i + 1))
  {
  }

  /** All of the file's hosts in its order, each with its count and masks, and their sum. */
  ghost predicate ComesBack(es: seq<Entry>, p: Parsed)
    requires AllProper(es)
  {
    AllRight(es, 0) && p == Hosts(HostsOf(es, 0), Total(HostsOf(es, 0)))
  }

  /** Every entry is right, there are not too many, and every name that is taken for a count is told. */
  ghost predicate Readable(es: seq<Entry>)
    requires AllProper(es)
  {
    |es| <= MSMPI_MAX_RANKS && AllRight(es, 0) && Total(HostsOf(es, 0)) <= MSMPI_MAX_RANKS && Told(es, 0)
  }

  /** The hosts of a file come back exactly when it is readable. */
  lemma FileComesBack(es: seq<Entry>)
    requires es != [] && AllProper(es) && |Decimal(|es|)| < X_SPACE
    ensures ComesBack(es, Parse(Args(Text(es)))) <==> Readable(es)
  {
    TextParsed(es);
    AcceptedCounts(Args(Text(es)));
    if |es| <= MSMPI_MAX_RANKS && AllRight(es, 0) && Total(HostsOf(es, 0)) <= MSMPI_MAX_RANKS {
      MadeIffTold(es, 0, |es|);
    }
  }

  lemma OneDigit(t: string, d: nat)
    requires d < 10 && t == [d as char + '0']
    ensures IsDigits(t) && IsNumber(t) && Value(10, t) == d && (d != 0 ==> IsPosNumber(t)) && !IsExplicit(t)
  {
    OneMoreDigit("", d);
    assert "" + t == t && t[1..] == "";
  }

  lemma TakesSeven()
    ensures Take(["a", "7"], 0, false, 2) == Taken(Host("a", 7, []), 2, false, 8)
  {
    OneDigit("7", 7);
    assert Counted("a", "7") == Some(Host("a", 7, []));
  }

  lemma MisreadSeven()
    ensures Parse(["2", "a", "7"]) == Error
  {
    OneDigit("2", 2);
    TakesSeven();
    assert ["2", "a", "7"][1..] == ["a", "7"] && ["a", "7"][2..] == [];
    assert ParseFrom([], 2, 1, false, 8) == Error;
  }

  const A_AND_7: seq<Entry> := [Entry("", "a", "", ""), Entry("", "7", "", "")]

  lemma SevenRight()
    ensures AllProper(A_AND_7) && AllRight(A_AND_7, 0)
  {
    assert Proper(A_AND_7[0]) && Proper(A_AND_7[1]);
    assert HostOf(A_AND_7[0]).Some? && HostOf(A_AND_7[1]).Some?;
  }

  lemma TwoDigit()
    ensures Decimal(2) == "2"
  {
  }

  /** A second host named 7 is taken for the count of the first. */
  lemma NameTakenForCount()
    ensures AllProper(A_AND_7) && AllRight(A_AND_7, 0) && !Told(A_AND_7, 0)
    ensures |Decimal(2)| < X_SPACE && Parse(Args(Text(A_AND_7))) == Error
  {
    SevenRight();
    TwoDigit();
    SevenCuts(A_AND_7);
    MisreadSeven();
    SevenUntold();
  }

  lemma SevenUntold()
    ensures !Told(A_AND_7, 0)
  {
    OneDigit("7", 7);
    assert Open(A_AND_7, 0) && A_AND_7[1].name == "7" && A_AND_7[1].field == "";
    assert !ToldAt(A_AND_7, 1);
  }

  lemma SevenCuts(es: seq<Entry>)
    requires es == [Entry("", "a", "", ""), Entry("", "7", "", "")] && AllProper(es) && Decimal(2) == "2"
    ensures Args(Text(es)) == ["2", "a", "7"]
  {
    TextArgs(es);
    assert Flat(es, 2) == [] && Flat(es, 1) == ["7"] && Flat(es, 0) == ["a", "7"];
  }

  const A_AND_1: seq<Entry> := [Entry("", "a", "", ""), Entry("", "1", " ", "1")]

  /** A host named 1, with the count 1, is read right: name and count change places. */
  lemma NameTakenUnharmed()
    ensures AllProper(A_AND_1) && AllRight(A_AND_1, 0) && NameTaken(A_AND_1, 1) && Told(A_AND_1, 0)
  {
    OneDigit("1", 1);
    assert Proper(A_AND_1[0]) && Proper(A_AND_1[1]);
    assert HostOf(A_AND_1[0]).Some? && HostOf(A_AND_1[1]).Some?;
    assert Open(A_AND_1, 0);
  }

  // ------------------------------------------------------------ the file

  /** A machine file, read and parsed: its hosts, exactly when it is readable. */
  method HostsFromFile(lines: seq<string>) returns (ok: bool, p: Parsed)
    requires IsFile(lines) && |lines| < MANY && FileSize(lines) <= 0x7fff_ffff
    ensures ok <==> Entries(lines).Some? && Entries(lines).value != []
    ensures ok ==> AllProper(Entries(lines).value)
    ensures ok ==> (ComesBack(Entries(lines).value, p) <==> Readable(Entries(lines).value))
    ensures ok && NamesTold(Entries(lines).value) ==> ReadsBack(Entries(lines).value, p)
  {
    var hosts, n := ReadMachinefile(lines);
    p, ok := Error, n >= 0;
    if ok {
      ghost var es := Entries(lines).value;
      p := ParseHostsString(hosts, n);
      FileComesBack(es);
      if NamesTold(es) {
        PlainFile(es);
      }
    }
  }
}
