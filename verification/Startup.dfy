/**
 The phases mpiexec goes through before it launches anything: connect the tree of managers,
 collect each host's hardware summary, start the database, launch
 (mpiexec_connect.cpp and mpiexec_handle_command.cpp).
 */
module Startup {
  import opened HostTree

  datatype Command = Connect(host: nat) | Collect(host: nat) | StartDbs

  /** Hosts are numbered 1..n; `exited` means the progress engine was told to stop. */
  datatype State = State(
    n: nat, connected: set<nat>, collected: set<nat>, outstanding: multiset<Command>,
    posted: multiset<Command>, launches: nat, exited: bool)

  function PostAll(s: State, cs: multiset<Command>): State {
    s.(outstanding := s.outstanding + cs, posted := s.posted + cs)
  }

  function Answered(s: State, c: Command): State {
    s.(outstanding := s.outstanding - multiset{c})
  }

  /** mpiexec_connect_node_children */
  function ChildConnects(h: nat, n: nat): multiset<Command>
    requires 1 <= h
  {
    (if Left(h) <= n then multiset{Connect(Left(h))} else multiset{})
    + (if Right(h) <= n then multiset{Connect(Right(h))} else multiset{})
  }

  /** mpiexec_send_collect_commands, for hosts up to k */
  function Collects(k: nat): multiset<Command> {
    if k == 0 then multiset{} else Collects(k - 1) + multiset{Collect(k)}
  }

  /** mpiexec_tree_is_connected and its counterpart for the collect results */
  predicate All(hosts: set<nat>, n: nat) {
    forall h :: 1 <= h <= n ==> h in hosts
  }

  /** mpiexec_handle_node_connection */
  function NodeConnected(s: State, h: nat): State
    requires 1 <= h
  {
    var s' := PostAll(s.(connected := s.connected + {h}), ChildConnects(h, s.n));
    if All(s'.connected, s.n) then PostAll(s', Collects(s.n)) else s'
  }

  /** mpiexec_handle_connect_result: the remote side may ask for credentials first. */
  function ConnectResult(s: State, h: nat, needsUser: bool, interactive: bool): State
    requires 1 <= h
  {
    var s' := Answered(s, Connect(h));
    if !needsUser then NodeConnected(s', h)
    else if interactive then PostAll(s', multiset{Connect(h)})
    else s'.(exited := true)
  }

  /** mpiexec_handle_collect_result: a second result of the same host stops mpiexec. */
  function CollectResult(s: State, h: nat): State {
    AfterCollect(Answered(s, Collect(h)), h)
  }

  function AfterCollect(s: State, h: nat): State {
    if h in s.collected then s.(exited := true)
    else
      var s' := s.(collected := s.collected + {h});
      if All(s.collected + {h}, s.n) then PostAll(s', multiset{StartDbs}) else s'
  }

  /** mpiexec_handle_start_dbs_result */
  function StartDbsResult(s: State): State {
    Answered(s, StartDbs).(launches := s.launches + 1)
  }

  datatype Event =
    | Connected(h: nat, needsUser: bool, interactive: bool)
    | Collected(h: nat)
    | DbsStarted

  predicate Enabled(s: State, e: Event) {
    !s.exited && match e
      case Connected(h, _, _) => 1 <= h && Connect(h) in s.outstanding
      case Collected(h) => Collect(h) in s.outstanding
      case DbsStarted => StartDbs in s.outstanding
  }

  function Apply(s: State, e: Event): State
    requires Enabled(s, e)
  {
    match e
    case Connected(h, needsUser, interactive) => ConnectResult(s, h, needsUser, interactive)
    case Collected(h) => CollectResult(s, h)
    case DbsStarted => StartDbsResult(s)
  }

  /** The root manager's own connection starts it all off (mpiexec_connected_child_mgr). */
  function Begin(n: nat): State {
    NodeConnected(Blank(n), 1)
  }

  predicate IsRun(s: State, es: seq<Event>)
    decreases |es|
  {
    es == [] || (Enabled(s, es[0]) && IsRun(Apply(s, es[0]), es[1..]))
  }

  function Run(s: State, es: seq<Event>): State
    requires IsRun(s, es)
    decreases |es|
  {
    if es == [] then s else Run(Apply(s, es[0]), es[1..])
  }

  // ---- the invariant -----------------------------------------------------------------

  predicate IsHost(s: State, h: nat) {
    1 <= h <= s.n
  }

  function Bit(b: bool): nat {
    if b then 1 else 0
  }

  predicate IsParent(p: nat, c: nat) {
    2 <= c && Parent(c) == p
  }

  /** A host just below the connected part of the tree. */
  predicate Front(connected: set<nat>, n: nat, c: nat) {
    2 <= c <= n && c !in connected && Parent(c) in connected
  }

  /** Connects are out for exactly the hosts one level below the connected part of the tree. */
  ghost predicate ConnectInv(n: nat, connected: set<nat>, out: multiset<Command>) {
    && 1 in connected
    && (forall h :: h in connected ==> 1 <= h <= n)
    && (forall p, c :: IsParent(p, c) && c in connected ==> p in connected)
    && (forall c :: out[Connect(c)] == Bit(Front(connected, n, c)))
  }

  ghost predicate CollectInv(s: State) {
    && (forall h :: s.posted[Collect(h)] == Bit(IsHost(s, h) && All(s.connected, s.n)))
    && (forall h :: s.outstanding[Collect(h)] == Bit(IsHost(s, h) && All(s.connected, s.n) && h !in s.collected))
    && (forall h :: h in s.collected ==> IsHost(s, h) && All(s.connected, s.n))
  }

  predicate DbsInv(s: State) {
    && s.posted[StartDbs] == Bit(All(s.collected, s.n))
    && s.launches <= 1
    && (s.launches == 1 ==> All(s.collected, s.n))
    && s.outstanding[StartDbs] == Bit(All(s.collected, s.n) && s.launches == 0)
  }

  ghost predicate Inv(s: State) {
    1 <= s.n && CollectInv(s) && DbsInv(s) && (!s.exited ==> ConnectInv(s.n, s.connected, s.outstanding))
  }

  lemma {:induction false} CollectsAre(k: nat)
    ensures forall c :: Collects(k)[c] == Bit(c.Collect? && 1 <= c.host <= k)
  {
    if k > 0 { CollectsAre(k - 1); }
  }

  lemma ChildConnectsAre(h: nat, n: nat)
    requires 1 <= h
    ensures forall c :: ChildConnects(h, n)[c] == Bit(c.Connect? && 2 <= c.host <= n && Parent(c.host) == h)
  {
    forall c ensures ChildConnects(h, n)[c] == Bit(c.Connect? && 2 <= c.host <= n && Parent(c.host) == h) {
      if c.Connect? && 2 <= c.host {
        ChildrenAre(h, c.host);
      }
    }
  }

  /** Marking a host connected moves the front of the tree past it. */
  lemma ConnectStep(n: nat, connected: set<nat>, out: multiset<Command>, h: nat, out': multiset<Command>)
    requires ConnectInv(n, connected, out) && Front(connected, n, h)
    requires forall c: nat :: out'[Connect(c)] == Bit(Front(connected, n, c) && c != h) + Bit(c <= n && IsParent(h, c))
    ensures ConnectInv(n, connected + {h}, out')
  {
    forall c: nat ensures out'[Connect(c)] == Bit(Front(connected + {h}, n, c)) {
      FrontMoves(n, connected, h, c);
    }
  }

  /** The front loses h and gains its children. */
  lemma FrontMoves(n: nat, connected: set<nat>, h: nat, c: nat)
    requires Front(connected, n, h) && forall p, k :: IsParent(p, k) && k in connected ==> p in connected
    ensures Bit(Front(connected + {h}, n, c)) == Bit(Front(connected, n, c) && c != h) + Bit(c <= n && IsParent(h, c))
  {
    if 2 <= c { ChildrenAre(1, c); }
  }

  /** What one more connected host puts on the wire: the connects of its children, and the collects at the end. */
  function Sent(s: State, h: nat): multiset<Command>
    requires 1 <= h
  {
    ChildConnects(h, s.n) + (if All(s.connected + {h}, s.n) then Collects(s.n) else multiset{})
  }

  lemma SentAre(s: State, h: nat)
    requires 1 <= h
    ensures forall c: nat :: Sent(s, h)[Connect(c)] == Bit(c <= s.n && IsParent(h, c))
    ensures forall c: nat :: Sent(s, h)[Collect(c)] == Bit(All(s.connected + {h}, s.n) && 1 <= c <= s.n)
    ensures Sent(s, h)[StartDbs] == 0
  {
    ChildConnectsAre(h, s.n);
    CollectsAre(s.n);
    SentIs(s, h);
  }

  lemma SentIs(s: State, h: nat)
    requires 1 <= h
    ensures forall c :: Sent(s, h)[c] == ChildConnects(h, s.n)[c] + if All(s.connected + {h}, s.n) then Collects(s.n)[c] else 0
  {
  }

  lemma NodeConnectedWire(s: State, h: nat)
    requires 1 <= h
    ensures var s' := NodeConnected(s, h);
            && s' == s.(connected := s.connected + {h}, outstanding := s'.outstanding, posted := s'.posted)
            && (forall c: nat :: s'.outstanding[Connect(c)] == s.outstanding[Connect(c)] + Bit(c <= s.n && IsParent(h, c)))
            && (forall c: nat :: s'.outstanding[Collect(c)] == s.outstanding[Collect(c)] + Bit(All(s'.connected, s.n) && 1 <= c <= s.n))
            && (forall c: nat :: s'.posted[Collect(c)] == s.posted[Collect(c)] + Bit(All(s'.connected, s.n) && 1 <= c <= s.n))
            && s'.outstanding[StartDbs] == s.outstanding[StartDbs] && s'.posted[StartDbs] == s.posted[StartDbs]
  {
    SentAre(s, h);
    assert NodeConnected(s, h).outstanding == s.outstanding + Sent(s, h);
    assert NodeConnected(s, h).posted == s.posted + Sent(s, h);
  }

  lemma NodeConnectedKeeps(s: State, h: nat)
    requires CollectInv(s) && DbsInv(s) && 1 <= h <= s.n && h !in s.connected
    ensures CollectInv(NodeConnected(s, h)) && DbsInv(NodeConnected(s, h))
  {
    NodeConnectedWire(s, h);
    assert !All(s.connected, s.n);
    assert 1 !in s.collected;
  }

  lemma ConnectKeeps(s: State, h: nat)
    requires Inv(s) && !s.exited && 1 <= h && Connect(h) in s.outstanding
    ensures Inv(NodeConnected(Answered(s, Connect(h)), h))
  {
    assert Front(s.connected, s.n, h);
    var s1 := Answered(s, Connect(h));
    NodeConnectedWire(s1, h);
    ConnectStep(s.n, s.connected, s.outstanding, h, NodeConnected(s1, h).outstanding);
    NodeConnectedKeeps(s1, h);
  }

  lemma CollectKeeps(s: State, h: nat)
    requires Inv(s) && Collect(h) in s.outstanding
    ensures Inv(CollectResult(s, h)) && h !in s.collected
  {
    assert s.outstanding[Collect(h)] == Bit(IsHost(s, h) && All(s.connected, s.n) && h !in s.collected);
    assert !All(s.collected, s.n);
    assert CollectResult(s, h).connected == s.connected;
  }

  lemma StepKeepsInv(s: State, e: Event)
    requires Inv(s) && Enabled(s, e)
    ensures Inv(Apply(s, e))
  {
    match e {
      case Connected(h, needsUser, interactive) =>
        if !needsUser { ConnectKeeps(s, h); } else { AskKeeps(s, h, interactive); }
      case Collected(h) => CollectKeeps(s, h);
      case DbsStarted =>
    }
  }

  lemma AskKeeps(s: State, h: nat, interactive: bool)
    requires Inv(s) && !s.exited && 1 <= h && Connect(h) in s.outstanding
    ensures Inv(ConnectResult(s, h, true, interactive))
  {
    assert Front(s.connected, s.n, h);
  }

  function Blank(n: nat): State {
    State(n, {}, {}, multiset{}, multiset{}, 0, false)
  }

  lemma BeginInv(n: nat)
    requires 1 <= n
    ensures Inv(Begin(n))
  {
    assert 1 !in Blank(n).connected && 1 !in Blank(n).collected;
    assert !All(Blank(n).connected, n) && !All(Blank(n).collected, n);
    NodeConnectedKeeps(Blank(n), 1);
    BeginConnects(n);
  }

  lemma BeginConnects(n: nat)
    requires 1 <= n
    ensures ConnectInv(n, Begin(n).connected, Begin(n).outstanding)
  {
    forall c: nat { BeginConnect(n, c); }
    assert Begin(n).connected == {1};
  }

  lemma BeginConnect(n: nat, c: nat)
    requires 1 <= n
    ensures Begin(n).outstanding[Connect(c)] == Bit(Front({1}, n, c))
  {
    NodeConnectedWire(Blank(n), 1);
    if 2 <= c { ChildrenAre(1, c); }
  }

  lemma {:induction false} RunKeepsInv(s: State, es: seq<Event>)
    requires Inv(s) && IsRun(s, es)
    ensures Inv(Run(s, es)) && Run(s, es).n == s.n
    decreases |es|
  {
    if es != [] {
      StepKeepsInv(s, es[0]);
      RunKeepsInv(Apply(s, es[0]), es[1..]);
    }
  }

  // ---- what a run promises -----------------------------------------------------------

  /**
   In every reachable state: collect commands have gone out for all hosts, one each, or for
   none, and for all exactly when the whole tree is connected; the database has been started
   once if every host has been collected and not at all otherwise; launches follow only that.
   */
  lemma PhasesDoNotOverlap(n: nat, es: seq<Event>)
    requires 1 <= n && IsRun(Begin(n), es)
    ensures var s := Run(Begin(n), es);
            && (forall h :: 1 <= h <= n ==> s.posted[Collect(h)] == if All(s.connected, n) then 1 else 0)
            && (forall h :: h in s.collected ==> All(s.connected, n))
            && s.posted[StartDbs] == (if All(s.collected, n) then 1 else 0)
            && s.launches <= 1
            && (s.launches == 1 ==> All(s.collected, n) && StartDbs !in s.outstanding)
  {
    BeginInv(n);
    RunKeepsInv(Begin(n), es);
  }

  /** A host is marked connected once, and after its parent; a second collect result never arrives. */
  lemma EachHostOnce(n: nat, es: seq<Event>, e: Event)
    requires 1 <= n && IsRun(Begin(n), es) && Enabled(Run(Begin(n), es), e)
    ensures OnlyOnce(Run(Begin(n), es), e)
  {
    BeginInv(n);
    RunKeepsInv(Begin(n), es);
    StepOnlyOnce(Run(Begin(n), es), e);
  }

  ghost predicate OnlyOnce(s: State, e: Event)
    requires Enabled(s, e)
  {
    match e
    case Connected(h, needsUser, _) => Front(s.connected, s.n, h) && (h in Apply(s, e).connected <==> !needsUser)
    case Collected(h) => 1 <= h <= s.n && h !in s.collected && !Apply(s, e).exited
    case DbsStarted => s.launches == 0
  }

  lemma StepOnlyOnce(s: State, e: Event)
    requires Inv(s) && Enabled(s, e)
    ensures OnlyOnce(s, e)
  {
    match e {
      case Connected(h, _, _) => assert s.outstanding[Connect(h)] == Bit(Front(s.connected, s.n, h));
      case Collected(h) => assert s.outstanding[Collect(h)] == Bit(IsHost(s, h) && All(s.connected, s.n) && h !in s.collected);
      case DbsStarted =>
    }
  }

  /** Startup cannot get stuck: until it launches, some answer is still to come. */
  lemma StartupNeverStalls(n: nat, es: seq<Event>)
    requires 1 <= n && IsRun(Begin(n), es)
    requires var s := Run(Begin(n), es); !s.exited && s.launches == 0
    ensures exists e :: Enabled(Run(Begin(n), es), e)
  {
    BeginInv(n);
    RunKeepsInv(Begin(n), es);
    SomeAnswer(Run(Begin(n), es));
  }

  lemma SomeAnswer(s: State)
    requires Inv(s) && !s.exited && s.launches == 0
    ensures exists e :: Enabled(s, e)
  {
    if !All(s.connected, s.n) {
      var h :| 1 <= h <= s.n && h !in s.connected;
      h := FrontHost(s.connected, s.n, h);
      assert s.outstanding[Connect(h)] == 1;
      assert Enabled(s, Connected(h, false, false));
    } else if !All(s.collected, s.n) {
      var h :| 1 <= h <= s.n && h !in s.collected;
      assert s.outstanding[Collect(h)] == 1;
      assert Enabled(s, Collected(h));
    } else {
      assert Enabled(s, DbsStarted);
    }
  }

  /** Going up from an unconnected host one meets an unconnected host whose parent is connected. */
  lemma {:induction false} FrontHost(connected: set<nat>, n: nat, h: nat) returns (front: nat)
    requires 1 in connected && 1 <= h <= n && h !in connected
    ensures Front(connected, n, front)
    decreases h
  {
    ChildrenAre(1, h);
    if Parent(h) in connected {
      front := h;
    } else {
      front := FrontHost(connected, n, Parent(h));
    }
  }

  // ---- the handlers ------------------------------------------------------------------

  ghost function Flags(a: seq<bool>): set<nat> {
    set h: nat | 1 <= h < |a| && a[h]
  }

  lemma FlagsSet(a: seq<bool>, h: nat)
    requires 1 <= h < |a|
    ensures Flags(a[h := true]) == Flags(a) + {h}
  {
  }

  lemma FlagsAll(a: seq<bool>)
    requires 1 <= |a|
    ensures All(Flags(a), |a| - 1) <==> forall h :: 1 <= h < |a| ==> a[h]
  {
    if All(Flags(a), |a| - 1) {
      forall h: nat | 1 <= h < |a| ensures a[h] {
        assert h in Flags(a);
      }
    }
  }

  /** The host list of smpd_process: flags per host, and the commands on the wire. */
  class Connector {
    const n: nat
    const connected: array<bool>
    const collected: array<bool>
    var outstanding: multiset<Command>
    var posted: multiset<Command>
    var launches: nat
    var exited: bool

    ghost predicate Valid() {
      connected.Length == n + 1 && collected.Length == n + 1 && connected != collected
    }

    ghost function View(): State
      requires Valid()
      reads this, connected, collected
    {
      State(n, Flags(connected[..]), Flags(collected[..]), outstanding, posted, launches, exited)
    }

    constructor (n: nat)
      requires 1 <= n
      ensures Valid() && View() == Blank(n)
    {
      this.n := n;
      connected, collected := new bool[n + 1](_ => false), new bool[n + 1](_ => false);
      outstanding, posted, launches, exited := multiset{}, multiset{}, 0, false;
    }

    method Post(c: Command)
      modifies this`outstanding, this`posted
      ensures outstanding == old(outstanding) + multiset{c} && posted == old(posted) + multiset{c}
    {
      outstanding, posted := outstanding + multiset{c}, posted + multiset{c};
    }

    /** mpiexec_tree_is_connected */
    method TreeIsConnected() returns (all: bool)
      requires Valid()
      ensures all == All(Flags(connected[..]), n)
    {
      FlagsAll(connected[..]);
      for h := 1 to n + 1
        invariant forall k :: 1 <= k < h ==> connected[k]
      {
        if !connected[h] {
          return false;
        }
      }
      all := true;
    }

    /** mpiexec_send_collect_commands */
    method SendCollects()
      requires Valid()
      modifies this`outstanding, this`posted
      ensures outstanding == old(outstanding) + Collects(n) && posted == old(posted) + Collects(n)
    {
      for h := 1 to n + 1
        invariant outstanding == old(outstanding) + Collects(h - 1) && posted == old(posted) + Collects(h - 1)
      {
        Post(Collect(h));
      }
    }

    method ConnectChildren(h: nat)
      requires 1 <= h
      modifies this`outstanding, this`posted
      ensures outstanding == old(outstanding) + ChildConnects(h, n) && posted == old(posted) + ChildConnects(h, n)
    {
      if Left(h) <= n {
        Post(Connect(Left(h)));
      }
      if Right(h) <= n {
        Post(Connect(Right(h)));
      }
    }

    /** mpiexec_handle_node_connection */
    method HandleNodeConnection(h: nat)
      requires Valid() && 1 <= h <= n
      modifies this`outstanding, this`posted, connected
      ensures View() == NodeConnected(old(View()), h)
    {
      FlagsSet(connected[..], h);
      connected[h] := true;
      assert connected[..] == old(connected[..])[h := true];
      ConnectChildren(h);
      ghost var s := View();
      assert s == PostAll(old(View()).(connected := s.connected), ChildConnects(h, n));
      var all := TreeIsConnected();
      if all {
        SendCollects();
        assert View() == PostAll(s, Collects(n));
      }
    }

    method Receive(c: Command)
      requires Valid()
      modifies this`outstanding
      ensures View() == Answered(old(View()), c)
    {
      outstanding := outstanding - multiset{c};
    }

    /** mpiexec_handle_connect_result */
    method HandleConnectResult(h: nat, needsUser: bool, interactive: bool)
      requires Valid() && 1 <= h <= n
      modifies this`outstanding, this`posted, this`exited, connected
      ensures View() == ConnectResult(old(View()), h, needsUser, interactive)
    {
      Receive(Connect(h));
      if !needsUser {
        HandleNodeConnection(h);
        return;
      }
      ghost var s := View();
      if interactive {
        Post(Connect(h));
        assert View() == PostAll(s, multiset{Connect(h)});
      } else {
        exited := true;
        assert View() == s.(exited := true);
      }
    }

    /** mpiexec_handle_collect_result: one pass marks the host and looks at all the others. */
    method HandleCollectResult(h: nat)
      requires Valid() && 1 <= h <= n
      modifies this`outstanding, this`posted, this`exited, collected
      ensures View() == CollectResult(old(View()), h)
    {
      Receive(Collect(h));
      NoteCollected(h);
    }

    /** What the answer of a host leads to. */
    method NoteCollected(h: nat)
      requires Valid() && 1 <= h <= n
      modifies this`outstanding, this`posted, this`exited, collected
      ensures View() == AfterCollect(old(View()), h)
    {
      var again, all := MarkCollected(h);
      if again {
        exited := true;
      } else if all {
        Post(StartDbs);
      }
    }

    method MarkCollected(h: nat) returns (again: bool, all: bool)
      requires Valid() && 1 <= h <= n
      modifies collected
      ensures again == (h in Flags(old(collected[..])))
      ensures Flags(collected[..]) == Flags(old(collected[..])) + {h}
      ensures !again ==> all == All(Flags(collected[..]), n)
    {
      ghost var was := collected[..];
      again, all := false, true;
      for p := 1 to n + 1
        invariant collected[..] == (if h < p then was[h := true] else was)
        invariant !again && (h < p ==> !was[h])
        invariant all == forall k :: 1 <= k < p ==> k == h || was[k]
      {
        if p == h {
          if collected[p] {
            again := true;
            assert was == was[h := true];
            FlagsSet(was, h);
            return;
          }
          collected[p] := true;
        } else {
          all := all && collected[p];
        }
      }
      FlagsSet(was, h);
      FlagsAll(collected[..]);
      assert forall k :: 1 <= k <= n ==> collected[..][k] == (k == h || was[k]);
    }
  }
}
