/** What mpiexec knows of its hosts, and what it has sent them, told from the answers that have come. */
module StartupHistory {
  import opened HostTree
  import opened Startup

  /** The host has been connected to, without asking for its user or after that. */
  predicate HasConnected(es: seq<Event>, h: nat) {
    h == 1 || Connected(h, false, true) in es || Connected(h, false, false) in es
  }

  ghost predicate GaveUp(es: seq<Event>) { exists h :: Connected(h, true, false) in es }

  /** How often the host's user has been asked for. */
  function Asked(es: seq<Event>, h: nat): nat { multiset(es)[Connected(h, true, true)] }

  /** Connects go to the hosts below a connected one, and again when their user has been asked for. */
  ghost predicate PostedFor(n: nat, connected: set<nat>, posted: multiset<Command>, es: seq<Event>) {
    forall h: nat :: posted[Connect(h)] == Bit(2 <= h <= n && Parent(h) in connected) + Asked(es, h)
  }

  ghost predicate Marked(s: State, es: seq<Event>) {
    && (forall h: nat :: h in s.connected <==> HasConnected(es, h))
    && (forall h: nat :: h in s.collected <==> Collected(h) in es)
    && (s.exited <==> GaveUp(es))
    && (s.launches == 1 <==> DbsStarted in es)
  }

  ghost predicate Recorded(s: State, es: seq<Event>) {
    Marked(s, es) && PostedFor(s.n, s.connected, s.posted, es)
  }

  lemma More(es: seq<Event>, e: Event)
    ensures forall d :: d in es + [e] <==> d in es || d == e
    ensures forall h :: Asked(es + [e], h) == Asked(es, h) + if e == Connected(h, true, true) then 1 else 0
  {
    assert multiset(es + [e]) == multiset(es) + multiset{e};
  }

  lemma SameGaveUp(es: seq<Event>, e: Event)
    ensures GaveUp(es + [e]) <==> GaveUp(es) || (e.Connected? && e.needsUser && !e.interactive)
  {
    More(es, e);
    if GaveUp(es) {
      var h :| Connected(h, true, false) in es;
      assert Connected(h, true, false) in es + [e];
    }
    if e.Connected? && e.needsUser && !e.interactive {
      assert Connected(e.h, true, false) in es + [e];
    }
  }

  lemma PostedConnects(s: State, h: nat)
    requires 1 <= h
    ensures forall c: nat :: NodeConnected(s, h).posted[Connect(c)] == s.posted[Connect(c)] + Bit(c <= s.n && IsParent(h, c))
  {
    SentAre(s, h);
    assert NodeConnected(s, h).posted == s.posted + Sent(s, h);
  }

  lemma ConnectMarks(s: State, s': State, es: seq<Event>, h: nat, interactive: bool)
    requires Marked(s, es) && !s.exited && 1 <= h
    requires s' == s.(connected := s.connected + {h}, outstanding := s'.outstanding, posted := s'.posted)
    ensures Marked(s', es + [Connected(h, false, interactive)]) == true
  {
    var e := Connected(h, false, interactive);
    More(es, e);
    SameGaveUp(es, e);
  }

  lemma ConnectPosts(s: State, posted: multiset<Command>, es: seq<Event>, h: nat, e: Event)
    requires PostedFor(s.n, s.connected, s.posted, es) && Front(s.connected, s.n, h) && e.Connected? && !e.needsUser
    requires forall c: nat :: posted[Connect(c)] == s.posted[Connect(c)] + Bit(c <= s.n && IsParent(h, c))
    ensures PostedFor(s.n, s.connected + {h}, posted, es + [e]) == true
  {
    More(es, e);
    forall c: nat ensures posted[Connect(c)] == Bit(2 <= c <= s.n && Parent(c) in s.connected + {h}) + Asked(es + [e], c) {
      assert Asked(es + [e], c) == Asked(es, c);
      assert Bit(2 <= c <= s.n && Parent(c) in s.connected + {h})
          == Bit(2 <= c <= s.n && Parent(c) in s.connected) + Bit(c <= s.n && IsParent(h, c));
    }
  }

  lemma ConnectRecords(s: State, es: seq<Event>, h: nat, interactive: bool)
    requires Inv(s) && Recorded(s, es) && Enabled(s, Connected(h, false, interactive))
    ensures Recorded(ConnectResult(s, h, false, interactive), es + [Connected(h, false, interactive)]) == true
  {
    var s1 := Answered(s, Connect(h));
    var s' := NodeConnected(s1, h);
    PostedConnects(s1, h);
    NodeConnectedWire(s1, h);
    assert Front(s.connected, s.n, h);
    ConnectMarks(s, s', es, h, interactive);
    ConnectPosts(s, s'.posted, es, h, Connected(h, false, interactive));
  }

  lemma SamePosted(s: State, posted: multiset<Command>, es: seq<Event>, e: Event)
    requires PostedFor(s.n, s.connected, s.posted, es)
    requires forall c: nat :: posted[Connect(c)] == s.posted[Connect(c)] + if e == Connected(c, true, true) then 1 else 0
    ensures PostedFor(s.n, s.connected, posted, es + [e]) == true
  {
    More(es, e);
    forall c: nat ensures posted[Connect(c)] == Bit(2 <= c <= s.n && Parent(c) in s.connected) + Asked(es + [e], c) {
      assert Asked(es + [e], c) == Asked(es, c) + if e == Connected(c, true, true) then 1 else 0;
    }
  }

  lemma AskRecords(s: State, es: seq<Event>, h: nat, interactive: bool)
    requires Recorded(s, es) && Enabled(s, Connected(h, true, interactive))
    ensures Recorded(ConnectResult(s, h, true, interactive), es + [Connected(h, true, interactive)]) == true
  {
    var e := Connected(h, true, interactive);
    More(es, e);
    SameGaveUp(es, e);
    SamePosted(s, ConnectResult(s, h, true, interactive).posted, es, e);
  }

  lemma CollectRecords(s: State, es: seq<Event>, h: nat)
    requires Recorded(s, es) && h !in s.collected && !s.exited
    ensures Recorded(CollectResult(s, h), es + [Collected(h)]) == true
  {
    More(es, Collected(h));
    SameGaveUp(es, Collected(h));
    SamePosted(s, CollectResult(s, h).posted, es, Collected(h));
  }

  lemma StartRecords(s: State, es: seq<Event>)
    requires Recorded(s, es) && s.launches == 0
    ensures Recorded(StartDbsResult(s), es + [DbsStarted]) == true
  {
    More(es, DbsStarted);
    SameGaveUp(es, DbsStarted);
    SamePosted(s, s.posted, es, DbsStarted);
  }

  lemma StepRecords(s: State, es: seq<Event>, e: Event)
    requires Inv(s) && Recorded(s, es) == true && Enabled(s, e)
    ensures Recorded(Apply(s, e), es + [e]) == true
  {
    match e {
      case Connected(h, needsUser, interactive) =>
        if needsUser { AskRecords(s, es, h, interactive); } else { ConnectRecords(s, es, h, interactive); }
      case Collected(h) =>
        CollectKeeps(s, h);
        CollectRecords(s, es, h);
      case DbsStarted => StartRecords(s, es);
    }
  }

  lemma {:induction false} RunRecords(s: State, past: seq<Event>, es: seq<Event>)
    requires Inv(s) == true && Recorded(s, past) == true && IsRun(s, es)
    ensures Recorded(Run(s, es), past + es) == true
    decreases |es|
  {
    if es == [] {
      assert past + es == past;
    } else {
      StepRecords(s, past, es[0]);
      StepKeepsInv(s, es[0]);
      RunRecords(Apply(s, es[0]), past + [es[0]], es[1..]);
      Regroup(past, es);
    }
  }

  lemma Regroup(past: seq<Event>, es: seq<Event>)
    requires es != []
    ensures past + [es[0]] + es[1..] == past + es
  {
  }

  lemma BeginRecords(n: nat)
    requires 1 <= n
    ensures Recorded(Begin(n), []) == true
  {
    var s := BeginIs(n);
    BeginMarks(n, s);
    BeginPosts(n, s.posted);
  }

  lemma BeginIs(n: nat) returns (s: State)
    requires 1 <= n
    ensures s == Begin(n) == Blank(n).(connected := {1}, outstanding := s.outstanding, posted := s.posted)
    ensures forall c: nat :: s.posted[Connect(c)] == Bit(c <= n && IsParent(1, c))
  {
    s := NodeConnected(Blank(n), 1);
    PostedConnects(Blank(n), 1);
    NodeConnectedWire(Blank(n), 1);
  }

  lemma BeginPosts(n: nat, posted: multiset<Command>)
    requires forall c: nat :: posted[Connect(c)] == Bit(c <= n && IsParent(1, c))
    ensures PostedFor(n, {1}, posted, []) == true
  {
    forall c: nat ensures posted[Connect(c)] == Bit(2 <= c <= n && Parent(c) in {1}) + Asked([], c) {
      assert Asked([], c) == 0;
    }
  }

  lemma BeginMarks(n: nat, s: State)
    requires s == Blank(n).(connected := {1}, outstanding := s.outstanding, posted := s.posted)
    ensures Marked(s, []) == true
  {
  }

  /**
   After any run: the hosts that are connected and collected are those whose answers have said so;
   mpiexec has given up exactly when a user was needed and nobody could be asked; and a connect has
   gone to each host below a connected one, and once more each time its user was asked for.
   */
  lemma StartupIsHistory(n: nat, es: seq<Event>)
    requires 1 <= n && IsRun(Begin(n), es)
    ensures Recorded(Run(Begin(n), es), es) == true
  {
    BeginInv(n);
    BeginRecords(n);
    HistoryFrom(Begin(n), es);
  }

  lemma HistoryFrom(s: State, es: seq<Event>)
    requires Inv(s) == true && Recorded(s, []) == true && IsRun(s, es)
    ensures Recorded(Run(s, es), es) == true
  {
    RunRecords(s, [], es);
    assert [] + es == es;
  }
}
