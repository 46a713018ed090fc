/**
 The queue of manager processes of the launch service: callers add processes, one thread
 waits for any of them to end and removes it. All interleavings of their atomic steps
 (MsmpiLaunchSvc.cpp).
 */
module LaunchQueue {
  import opened LaunchPool

  /** m_newProcessEvent, in slot NEW_PROCESS_EVENT_IDX. */
  const EVENT: nat := 0

  /** What has become of a context of the pool. */
  datatype Phase =
    | Free
    | Ready                        // live, no manager process
    | Starting(process: nat)       // m_mgrProcess is set
    | Running(process: nat)        // ... and queued
    | Ended(process: nat)          // ... and removed from the queue again

  /** Where the waiting thread stands in its loop. */
  datatype Waiter =
    | Top
    | Counted(count: nat)          // GetCountSafe has returned
    | Waiting(handles: seq<nat>)   // inside WaitForMultipleObjects, with these handles
    | Reported(idx: nat, handle: nat)
    | Removed(handle: nat)         // DeleteProcess has returned

  datatype State = State(
    contexts: seq<Phase>,
    procs: seq<nat>,               // m_runningProcesses[..m_count]
    event: bool,
    setting: nat,                  // callers of AddProcess between LeaveCriticalSection and SetEvent
    waiter: Waiter,
    added: seq<nat>,
    removed: seq<nat>)

  datatype Step =
    | Create(c: nat)
    | Cleanup(c: nat)              // ServiceCleanupLaunchCtx
    | StartManager(c: nat, process: nat)
    | StartFails(c: nat)
    | Add(c: nat)                  // AddProcess up to LeaveCriticalSection
    | Signal                       // ... and its SetEvent
    | Count
    | Wait
    | WakeForEvent
    | WakeForProcess(idx: nat)
    | Delete
    | Finish                       // ManagerProcessTerminated

  predicate Owning(p: Phase) {
    p.Starting? || p.Running? || p.Ended?
  }

  predicate Owns(p: Phase, process: nat) {
    Owning(p) && p.process == process
  }

  predicate Enabled(s: State, e: Step) {
    match e
    case Create(c) => c < |s.contexts| && s.contexts[c] == Free
    case Cleanup(c) => c < |s.contexts| && s.contexts[c] == Ready
    case StartManager(c, h) =>
      c < |s.contexts| && s.contexts[c] == Ready && h != EVENT && forall k :: 0 <= k < |s.contexts| ==> !Owns(s.contexts[k], h)
    case StartFails(c) => c < |s.contexts| && s.contexts[c].Starting?
    case Add(c) => c < |s.contexts| && s.contexts[c].Starting?
    case Signal => 0 < s.setting
    case Count => s.waiter == Top
    case Wait => s.waiter.Counted? && s.waiter.count <= |s.procs|
    case WakeForEvent => s.waiter.Waiting? && s.event
    case WakeForProcess(i) => s.waiter.Waiting? && 0 < i < |s.waiter.handles|
    case Delete => s.waiter.Reported? && s.waiter.idx < |s.procs|
    case Finish => s.waiter.Removed?
  }

  /** DeleteProcess on the list of handles: the last one takes the place of the one removed. */
  function Without(procs: seq<nat>, i: nat): seq<nat>
    requires i < |procs|
  {
    procs[i := procs[|procs| - 1]][..|procs| - 1]
  }

  /** The phase of every context that owns the process becomes p. */
  function Become(contexts: seq<Phase>, process: nat, p: Phase): (r: seq<Phase>)
    ensures |r| == |contexts|
    ensures forall k :: 0 <= k < |r| ==> r[k] == if Owns(contexts[k], process) then p else contexts[k]
  {
    seq(|contexts|, k requires 0 <= k < |contexts| => if Owns(contexts[k], process) then p else contexts[k])
  }

  function Apply(s: State, e: Step): State
    requires Enabled(s, e)
  {
    match e
    case Create(c) => s.(contexts := s.contexts[c := Ready])
    case Cleanup(c) => s.(contexts := s.contexts[c := Free])
    case StartManager(c, h) => s.(contexts := s.contexts[c := Starting(h)])
    case StartFails(c) => s.(contexts := s.contexts[c := Free])
    case Add(c) =>
      var h := s.contexts[c].process;
      s.(contexts := s.contexts[c := Running(h)], procs := s.procs + [h], setting := s.setting + 1, added := s.added + [h])
    case Signal => s.(setting := s.setting - 1, event := true)
    case Count => s.(waiter := Counted(|s.procs|))
    case Wait => s.(waiter := Waiting(s.procs[..s.waiter.count]))
    case WakeForEvent => s.(event := false, waiter := Top)
    case WakeForProcess(i) => s.(waiter := Reported(i, s.waiter.handles[i]))
    case Delete =>
      var h := s.procs[s.waiter.idx];
      s.(procs := Without(s.procs, s.waiter.idx), removed := s.removed + [h], waiter := Removed(h),
         contexts := Become(s.contexts, h, Ended(h)))
    case Finish => s.(contexts := Become(s.contexts, s.waiter.handle, Free), waiter := Top)
  }

  function Initial(): State {
    State(seq(MAXIMUM_CONTEXTS, _ => Free), [EVENT], false, 0, Top, [], [])
  }

  // ---- the invariant -----------------------------------------------------------------

  function RunningCount(contexts: seq<Phase>): nat {
    if contexts == [] then 0
    else RunningCount(contexts[..|contexts| - 1]) + if contexts[|contexts| - 1].Running? then 1 else 0
  }

  predicate Distinct(procs: seq<nat>) {
    forall i, j :: 0 <= i < j < |procs| ==> procs[i] != procs[j]
  }

  /** No process belongs to two contexts. */
  predicate OwnersUnique(contexts: seq<Phase>) {
    forall c, k :: 0 <= c < |contexts| && 0 <= k < |contexts| && c != k && Owning(contexts[c]) ==>
      !Owns(contexts[k], contexts[c].process)
  }

  predicate IsQueued(procs: seq<nat>, process: nat) {
    process in procs
  }

  predicate HasRunner(contexts: seq<Phase>, process: nat) {
    exists c :: 0 <= c < |contexts| && contexts[c] == Running(process)
  }

  predicate HasEnded(contexts: seq<Phase>, process: nat) {
    exists c :: 0 <= c < |contexts| && contexts[c] == Ended(process)
  }

  /** The queue holds the event, and behind it exactly the processes of the running contexts. */
  predicate Matched(s: State) {
    && 0 < |s.procs| && s.procs[0] == EVENT && Distinct(s.procs)
    && |s.procs| == 1 + RunningCount(s.contexts)
    && (forall c :: 0 <= c < |s.contexts| && Owning(s.contexts[c]) ==> s.contexts[c].process != EVENT)
    && (forall c :: 0 <= c < |s.contexts| && s.contexts[c].Running? ==> IsQueued(s.procs, s.contexts[c].process))
    && (forall i :: 0 < i < |s.procs| ==> HasRunner(s.contexts, s.procs[i]))
  }

  /** What the waiting thread knows is still so; and if it has missed a process, the event is or will be set. */
  predicate WaiterOk(s: State) {
    match s.waiter
    case Top => true
    case Counted(count) => 0 < count <= |s.procs| && (count < |s.procs| ==> s.event || 0 < s.setting)
    case Waiting(handles) => 0 < |handles| <= |s.procs| && handles == s.procs[..|handles|]
                             && (|handles| < |s.procs| ==> s.event || 0 < s.setting)
    case Reported(i, h) => 0 < i < |s.procs| && s.procs[i] == h
    case Removed(h) => HasEnded(s.contexts, h)
  }

  predicate EndedOk(s: State) {
    forall c :: 0 <= c < |s.contexts| && s.contexts[c].Ended? ==> s.waiter == Removed(s.contexts[c].process)
  }

  /** Nothing is removed that was not added, and nothing more often than it was added. */
  predicate Accounted(s: State) {
    0 < |s.procs| && multiset(s.added) == multiset(s.removed) + multiset(s.procs[1..])
  }

  predicate Inv(s: State) {
    |s.contexts| == MAXIMUM_CONTEXTS && OwnersUnique(s.contexts) && Matched(s) && WaiterOk(s) && EndedOk(s) && Accounted(s)
  }

  lemma {:induction false} CountSet(contexts: seq<Phase>, c: nat, p: Phase)
    requires c < |contexts|
    ensures RunningCount(contexts[c := p]) + (if contexts[c].Running? then 1 else 0)
            == RunningCount(contexts) + (if p.Running? then 1 else 0)
  {
    var n := |contexts| - 1;
    if c == n {
      assert contexts[c := p][..n] == contexts[..n];
    } else {
      CountSet(contexts[..n], c, p);
      assert contexts[c := p][..n] == contexts[..n][c := p];
    }
  }

  lemma {:induction false} CountAtMost(contexts: seq<Phase>)
    ensures RunningCount(contexts) <= |contexts|
  {
    if contexts != [] { CountAtMost(contexts[..|contexts| - 1]); }
  }

  lemma UniqueSet(contexts: seq<Phase>, c: nat, p: Phase)
    requires OwnersUnique(contexts) && c < |contexts|
    requires Owning(p) ==> forall k :: 0 <= k < |contexts| && k != c ==> !Owns(contexts[k], p.process)
    ensures OwnersUnique(contexts[c := p])
  {
  }

  /** A process has one owner. */
  lemma NoOtherOwns(contexts: seq<Phase>, c: nat, process: nat)
    requires OwnersUnique(contexts) && c < |contexts| && Owns(contexts[c], process)
    ensures forall k :: 0 <= k < |contexts| && k != c ==> !Owns(contexts[k], process)
  {
  }

  lemma BecomeOne(contexts: seq<Phase>, c: nat, process: nat, p: Phase)
    requires OwnersUnique(contexts) && c < |contexts| && Owns(contexts[c], process)
    ensures Become(contexts, process, p) == contexts[c := p]
  {
    NoOtherOwns(contexts, c, process);
  }

  lemma RunnerStays(contexts: seq<Phase>, c: nat, p: Phase, process: nat)
    requires c < |contexts| && HasRunner(contexts, process) && (contexts[c] == Running(process) ==> p == contexts[c])
    ensures HasRunner(contexts[c := p], process)
  {
    var k :| 0 <= k < |contexts| && contexts[k] == Running(process);
    assert contexts[c := p][k] == Running(process);
  }

  /** A context that was not queued, and is not to be, changes. */
  lemma OtherKeeps(s: State, s': State, c: nat, p: Phase)
    requires Inv(s) && c < |s.contexts| && !s.contexts[c].Running? && !p.Running? && s' == s.(contexts := s.contexts[c := p])
    requires Owning(p) ==> p.process != EVENT
    ensures Matched(s')
  {
    CountSet(s.contexts, c, p);
    forall i | 0 < i < |s.procs| ensures HasRunner(s'.contexts, s.procs[i]) {
      RunnerStays(s.contexts, c, p, s.procs[i]);
    }
  }

  /** The process of a context that is starting is not queued yet. */
  lemma NotQueued(s: State, c: nat)
    requires Inv(s) && c < |s.contexts| && s.contexts[c].Starting?
    ensures s.contexts[c].process !in s.procs
  {
    var h := s.contexts[c].process;
    NoOtherOwns(s.contexts, c, h);
    forall i | 0 <= i < |s.procs| ensures s.procs[i] != h {
      if 0 < i {
        assert HasRunner(s.contexts, s.procs[i]);
        var k :| 0 <= k < |s.contexts| && s.contexts[k] == Running(s.procs[i]);
        assert Owns(s.contexts[k], s.procs[i]) && k != c;
      }
    }
  }

  lemma AddMatched(s: State, s': State, c: nat)
    requires Inv(s) && Enabled(s, Add(c)) && s'.contexts == s.contexts[c := Running(s.contexts[c].process)]
    requires s'.procs == s.procs + [s.contexts[c].process]
    ensures Matched(s')
  {
    var h := s.contexts[c].process;
    NotQueued(s, c);
    CountSet(s.contexts, c, Running(h));
    assert s'.contexts[c] == Running(h);
    forall i | 0 < i < |s'.procs| ensures HasRunner(s'.contexts, s'.procs[i]) {
      if i < |s.procs| { RunnerStays(s.contexts, c, Running(h), s.procs[i]); }
    }
    forall k | 0 <= k < |s'.contexts| && s'.contexts[k].Running? ensures IsQueued(s'.procs, s'.contexts[k].process) {
      if k != c { assert IsQueued(s.procs, s.contexts[k].process); } else { assert s'.procs[|s.procs|] == h; }
    }
  }

  lemma AddKeeps(s: State, c: nat)
    requires Inv(s) && Enabled(s, Add(c))
    ensures Inv(Apply(s, Add(c))) && |s.procs| < MAXIMUM_WAIT_OBJECTS
  {
    var h, s' := s.contexts[c].process, Apply(s, Add(c));
    AddMatched(s, s', c);
    CountAtMost(s'.contexts);
    NoOtherOwns(s.contexts, c, h);
    UniqueSet(s.contexts, c, Running(h));
    AddAccounted(s, c);
    AddWaiter(s, c);
  }

  lemma AddAccounted(s: State, c: nat)
    requires Inv(s) && Enabled(s, Add(c))
    ensures Accounted(Apply(s, Add(c))) == true
  {
    assert (s.procs + [s.contexts[c].process])[1..] == s.procs[1..] + [s.contexts[c].process];
  }

  lemma AddWaiter(s: State, c: nat)
    requires Inv(s) && Enabled(s, Add(c))
    ensures WaiterOk(Apply(s, Add(c))) == true && EndedOk(Apply(s, Add(c))) == true
  {
    if s.waiter.Removed? { EndedStays(s.contexts, c, Running(s.contexts[c].process), s.waiter.handle); }
  }

  lemma EndedStays(contexts: seq<Phase>, c: nat, p: Phase, process: nat)
    requires c < |contexts| && HasEnded(contexts, process) && !contexts[c].Ended?
    ensures HasEnded(contexts[c := p], process)
  {
    var k :| 0 <= k < |contexts| && contexts[k] == Ended(process);
    assert contexts[c := p][k] == Ended(process);
  }

  lemma WithoutIs(procs: seq<nat>, i: nat)
    requires 0 < i < |procs| && Distinct(procs)
    ensures var r := Without(procs, i);
            && Distinct(r) && |r| == |procs| - 1 && r[0] == procs[0] && procs[i] !in r
            && (forall p :: p in procs && p != procs[i] ==> p in r) && (forall p :: p in r ==> p in procs)
            && multiset(procs[1..]) == multiset(r[1..]) + multiset{procs[i]}
  {
    var r, n := Without(procs, i), |procs| - 1;
    assert procs == procs[..n] + [procs[n]];
    forall p | p in procs && p != procs[i] ensures p in r {
      var k :| 0 <= k < |procs| && procs[k] == p;
      assert r[if k == n then i else k] == p;
    }
    if i == n {
      assert procs[1..] == r[1..] + [procs[n]];
    } else {
      assert procs[1..] == procs[1..n] + [procs[n]];
      assert r[1..] == procs[1..n][i - 1 := procs[n]];
    }
  }

  lemma DeleteKeeps(s: State)
    requires Inv(s) && Enabled(s, Delete)
    ensures Inv(Apply(s, Delete))
  {
    var i, s' := s.waiter.idx, Apply(s, Delete);
    var h := s.procs[i];
    assert HasRunner(s.contexts, h);
    var c :| 0 <= c < |s.contexts| && s.contexts[c] == Running(h);
    BecomeOne(s.contexts, c, h, Ended(h));
    NoOtherOwns(s.contexts, c, h);
    UniqueSet(s.contexts, c, Ended(h));
    DeleteMatched(s, s', c, h);
    DeleteAccounted(s, s', h);
    DeleteEnds(s, s', c, h);
  }

  lemma DeleteAccounted(s: State, s': State, h: nat)
    requires Inv(s) && s.waiter.Reported? && s.waiter.idx < |s.procs| && h == s.procs[s.waiter.idx]
    requires s'.procs == Without(s.procs, s.waiter.idx) && s'.removed == s.removed + [h] && s'.added == s.added
    ensures Accounted(s') == true
  {
    WithoutIs(s.procs, s.waiter.idx);
  }

  lemma DeleteEnds(s: State, s': State, c: nat, h: nat)
    requires Inv(s) && s.waiter.Reported? && c < |s.contexts|
    requires s'.contexts == s.contexts[c := Ended(h)] && s'.waiter == Removed(h)
    ensures WaiterOk(s') == true && EndedOk(s') == true
  {
    assert s'.contexts[c] == Ended(h);
  }

  lemma DeleteMatched(s: State, s': State, c: nat, h: nat)
    requires Inv(s) && s.waiter.Reported? && c < |s.contexts| && s.contexts[c] == Running(h) && h == s.procs[s.waiter.idx]
    requires s'.contexts == s.contexts[c := Ended(h)] && s'.procs == Without(s.procs, s.waiter.idx)
    ensures Matched(s')
  {
    CountSet(s.contexts, c, Ended(h));
    WithoutIs(s.procs, s.waiter.idx);
    NoOtherOwns(s.contexts, c, h);
    forall k | 0 <= k < |s'.contexts| && s'.contexts[k].Running? ensures IsQueued(s'.procs, s'.contexts[k].process) {
      assert IsQueued(s.procs, s.contexts[k].process);
      assert Owns(s.contexts[k], s.contexts[k].process);
    }
    forall j | 0 < j < |s'.procs| ensures HasRunner(s'.contexts, s'.procs[j]) {
      assert s'.procs[j] in s'.procs && s'.procs[j] in s.procs;
      var m :| 0 <= m < |s.procs| && s.procs[m] == s'.procs[j];
      assert 0 < m;
      RunnerStays(s.contexts, c, Ended(h), s.procs[m]);
    }
  }

  lemma FinishKeeps(s: State)
    requires Inv(s) && Enabled(s, Finish)
    ensures Inv(Apply(s, Finish))
  {
    var h, s' := s.waiter.handle, Apply(s, Finish);
    var c :| 0 <= c < |s.contexts| && s.contexts[c] == Ended(h);
    BecomeOne(s.contexts, c, h, Free);
    NoOtherOwns(s.contexts, c, h);
    UniqueSet(s.contexts, c, Free);
    OtherKeeps(s, s.(contexts := s.contexts[c := Free]), c, Free);
    forall k | 0 <= k < |s'.contexts| ensures !s'.contexts[k].Ended? {
      if k != c { assert !Owns(s.contexts[k], h); }
    }
  }

  lemma ContextKeeps(s: State, c: nat, p: Phase)
    requires Inv(s) && c < |s.contexts| && !s.contexts[c].Running? && !s.contexts[c].Ended? && !p.Running? && !p.Ended?
    requires p.Starting? ==> p.process != EVENT && forall k :: 0 <= k < |s.contexts| ==> !Owns(s.contexts[k], p.process)
    ensures Inv(s.(contexts := s.contexts[c := p]))
  {
    UniqueSet(s.contexts, c, p);
    OtherKeeps(s, s.(contexts := s.contexts[c := p]), c, p);
    if s.waiter.Removed? { EndedStays(s.contexts, c, p, s.waiter.handle); }
  }

  lemma StepKeeps(s: State, e: Step)
    requires Inv(s) && Enabled(s, e)
    ensures Inv(Apply(s, e))
  {
    match e
    case Create(c) => { ContextKeeps(s, c, Ready); }
    case Cleanup(c) => { ContextKeeps(s, c, Free); }
    case StartManager(c, h) => { ContextKeeps(s, c, Starting(h)); }
    case StartFails(c) => { ContextKeeps(s, c, Free); }
    case Add(c) => { AddKeeps(s, c); }
    case Delete => { DeleteKeeps(s); }
    case Finish => { FinishKeeps(s); }
    case _ => {}
  }

  lemma {:induction false} NoneRunning(contexts: seq<Phase>)
    requires forall c :: 0 <= c < |contexts| ==> contexts[c].Free?
    ensures RunningCount(contexts) == 0
  {
    if contexts != [] { NoneRunning(contexts[..|contexts| - 1]); }
  }

  lemma InitialOk()
    ensures Inv(Initial())
  {
    NoneRunning(Initial().contexts);
  }

  // ---- every run ---------------------------------------------------------------------

  predicate Possible(s: State, run: seq<Step>)
    decreases |run|
  {
    run == [] || (Enabled(s, run[0]) && Possible(Apply(s, run[0]), run[1..]))
  }

  function After(s: State, run: seq<Step>): State
    requires Possible(s, run)
    decreases |run|
  {
    if run == [] then s else After(Apply(s, run[0]), run[1..])
  }

  lemma {:induction false} RunKeeps(s: State, run: seq<Step>)
    requires Inv(s) && Possible(s, run)
    ensures Inv(After(s, run))
    decreases |run|
  {
    if run != [] {
      StepKeeps(s, run[0]);
      RunKeeps(Apply(s, run[0]), run[1..]);
    }
  }

  /** AddProcess always has room, and slot 0 stays the event's. */
  lemma AlwaysRoom(run: seq<Step>, c: nat)
    requires Possible(Initial(), run) && Enabled(After(Initial(), run), Add(c))
    ensures var s := After(Initial(), run);
            0 < |s.procs| < MAXIMUM_WAIT_OBJECTS && s.procs[0] == EVENT && |s.procs| == 1 + RunningCount(s.contexts)
  {
    InitialOk();
    RunKeeps(Initial(), run);
    AddKeeps(After(Initial(), run), c);
  }

  /** DeleteProcess removes the process that the wait has reported, whose context is then found. */
  lemma RemovesTheReported(run: seq<Step>)
    requires Possible(Initial(), run)
    ensures var s := After(Initial(), run);
            && (s.waiter.Reported? ==> Enabled(s, Delete) && s.procs[s.waiter.idx] == s.waiter.handle != EVENT)
            && (s.waiter.Removed? ==> HasEnded(s.contexts, s.waiter.handle) && s.waiter.handle !in s.procs)
  {
    InitialOk();
    RunKeeps(Initial(), run);
    var s := After(Initial(), run);
    if s.waiter.Reported? {
      assert HasRunner(s.contexts, s.procs[s.waiter.idx]);
    }
    if s.waiter.Removed? { EndedNotQueued(s, s.waiter.handle); }
  }

  lemma EndedNotQueued(s: State, h: nat)
    requires Inv(s) && HasEnded(s.contexts, h)
    ensures h !in s.procs
  {
    var c :| 0 <= c < |s.contexts| && s.contexts[c] == Ended(h);
    NoOtherOwns(s.contexts, c, h);
    assert Owning(s.contexts[c]);
    forall i | 0 <= i < |s.procs| ensures s.procs[i] != h {
      if 0 < i {
        assert HasRunner(s.contexts, s.procs[i]);
        var k :| 0 <= k < |s.contexts| && s.contexts[k] == Running(s.procs[i]);
        assert Owns(s.contexts[k], s.procs[i]) && k != c;
      }
    }
  }

  /** Every process is removed at most as often as it was added, and stays queued until then. */
  lemma RemovedAtMostOnce(run: seq<Step>, process: nat)
    requires Possible(Initial(), run)
    ensures var s := After(Initial(), run);
            && s.procs != []
            && multiset(s.removed)[process] + multiset(s.procs[1..])[process] == multiset(s.added)[process]
            && multiset(s.procs[1..])[process] <= 1
  {
    InitialOk();
    RunKeeps(Initial(), run);
    OnceAtMost(After(Initial(), run).procs[1..], process);
  }

  lemma {:induction false} OnceAtMost(procs: seq<nat>, process: nat)
    requires Distinct(procs)
    ensures multiset(procs)[process] <= 1
  {
    if procs != [] {
      var n := |procs| - 1;
      assert procs == procs[..n] + [procs[n]];
      OnceAtMost(procs[..n], process);
      assert procs[n] !in procs[..n];
    }
  }

  /** No wakeup is lost: a waiter that does not wait for all processes will be woken to look again. */
  lemma NoLostWakeup(run: seq<Step>)
    requires Possible(Initial(), run)
    ensures var s := After(Initial(), run);
            s.waiter.Waiting? && |s.waiter.handles| < |s.procs| ==> Enabled(s, WakeForEvent) || Enabled(s, Signal)
  {
    InitialOk();
    RunKeeps(Initial(), run);
  }

  // ---- accounts of a run -------------------------------------------------------------

  /** How many contexts are in use. */
  function Used(contexts: seq<Phase>): nat {
    if contexts == [] then 0
    else Used(contexts[..|contexts| - 1]) + if contexts[|contexts| - 1].Free? then 0 else 1
  }

  lemma {:induction false} UsedSet(contexts: seq<Phase>, c: nat, p: Phase)
    requires c < |contexts|
    ensures Used(contexts[c := p]) + (if contexts[c].Free? then 0 else 1) == Used(contexts) + (if p.Free? then 0 else 1)
  {
    var n := |contexts| - 1;
    if c == n {
      assert contexts[c := p][..n] == contexts[..n];
    } else {
      UsedSet(contexts[..n], c, p);
      assert contexts[c := p][..n] == contexts[..n][c := p];
    }
  }

  /** A context is taken into use... */
  function Takes(run: seq<Step>): nat {
    if run == [] then 0 else (if run[0].Create? then 1 else 0) + Takes(run[1..])
  }

  /** ... and given back: cleaned up, or when its manager has not been started or has ended. */
  function Returns(run: seq<Step>): nat {
    if run == [] then 0
    else (if run[0].Cleanup? || run[0].StartFails? || run[0].Finish? then 1 else 0) + Returns(run[1..])
  }

  lemma StepUses(s: State, e: Step)
    requires Inv(s) && Enabled(s, e)
    ensures Used(Apply(s, e).contexts) == Used(s.contexts) + Takes([e]) - Returns([e])
  {
    match e {
      case Create(c) => UsedSet(s.contexts, c, Ready);
      case Cleanup(c) => UsedSet(s.contexts, c, Free);
      case StartManager(c, h) => UsedSet(s.contexts, c, Starting(h));
      case StartFails(c) => UsedSet(s.contexts, c, Free);
      case Add(c) => UsedSet(s.contexts, c, Running(s.contexts[c].process));
      case Delete => DeleteUses(s);
      case Finish => FinishUses(s);
      case _ =>
    }
  }

  lemma DeleteUses(s: State)
    requires Inv(s) && Enabled(s, Delete)
    ensures Used(Apply(s, Delete).contexts) == Used(s.contexts)
  {
    var h := s.procs[s.waiter.idx];
    assert HasRunner(s.contexts, h);
    var c :| 0 <= c < |s.contexts| && s.contexts[c] == Running(h);
    BecomeOne(s.contexts, c, h, Ended(h));
    UsedSet(s.contexts, c, Ended(h));
  }

  lemma FinishUses(s: State)
    requires Inv(s) && Enabled(s, Finish)
    ensures Used(Apply(s, Finish).contexts) == Used(s.contexts) - 1
  {
    var h := s.waiter.handle;
    assert HasEnded(s.contexts, h);
    var c :| 0 <= c < |s.contexts| && s.contexts[c] == Ended(h);
    BecomeOne(s.contexts, c, h, Free);
    UsedSet(s.contexts, c, Free);
  }

  lemma {:induction false} RunUses(s: State, run: seq<Step>)
    requires Inv(s) && Possible(s, run)
    ensures Used(After(s, run).contexts) == Used(s.contexts) + Takes(run) - Returns(run)
    decreases |run|
  {
    if run != [] {
      StepKeeps(s, run[0]);
      StepUses(s, run[0]);
      RunUses(Apply(s, run[0]), run[1..]);
    }
  }

  lemma {:induction false} NoneUsed(contexts: seq<Phase>)
    requires forall c :: 0 <= c < |contexts| ==> contexts[c].Free?
    ensures Used(contexts) == 0
  {
    if contexts != [] { NoneUsed(contexts[..|contexts| - 1]); }
  }

  /** Every context that is taken is given back once: none is lost, and none is given back twice. */
  lemma ContextsBalance(run: seq<Step>)
    requires Possible(Initial(), run)
    ensures Takes(run) == Returns(run) + Used(After(Initial(), run).contexts)
  {
    InitialOk();
    NoneUsed(Initial().contexts);
    RunUses(Initial(), run);
  }

  function Signals(run: seq<Step>): nat {
    if run == [] then 0 else (if run[0].Signal? then 1 else 0) + Signals(run[1..])
  }

  function Wakes(run: seq<Step>): nat {
    if run == [] then 0 else (if run[0].WakeForEvent? then 1 else 0) + Wakes(run[1..])
  }

  /** The thread is woken by the event no more often than it is set: it does not spin. */
  lemma {:induction false} WakesAreSignals(s: State, run: seq<Step>)
    requires Possible(s, run)
    ensures Wakes(run) + (if After(s, run).event then 1 else 0) <= Signals(run) + (if s.event then 1 else 0)
    decreases |run|
  {
    if run != [] {
      WakesAreSignals(Apply(s, run[0]), run[1..]);
    }
  }

  // ---- the queue itself --------------------------------------------------------------

  /** ProcessQueue; each method but AddProcess is one atomic step, under m_lock. */
  class ProcessQueue {
    const runningProcesses: array<nat>
    var count: nat
    var newProcessEvent: bool

    ghost predicate Valid()
      reads this
    {
      runningProcesses.Length == MAXIMUM_WAIT_OBJECTS && count <= MAXIMUM_WAIT_OBJECTS
    }

    ghost function Procs(): seq<nat>
      reads this, runningProcesses
      requires Valid()
    {
      runningProcesses[..count]
    }

    /** The constructor and Initialize. */
    constructor ()
      ensures Valid() && Procs() == Initial().procs && newProcessEvent == Initial().event && fresh(runningProcesses)
    {
      runningProcesses := new nat[MAXIMUM_WAIT_OBJECTS](_ => EVENT);
      count, newProcessEvent := 1, false;
    }

    method AddUnderLock(newProcess: nat)
      requires Valid() && |Procs()| < MAXIMUM_WAIT_OBJECTS
      modifies this`count, runningProcesses
      ensures Valid() && Procs() == old(Procs()) + [newProcess]
    {
      runningProcesses[count] := newProcess;
      count := count + 1;
    }

    method AddProcess(newProcess: nat)
      requires Valid() && |Procs()| < MAXIMUM_WAIT_OBJECTS
      modifies this`count, this`newProcessEvent, runningProcesses
      ensures Valid() && Procs() == old(Procs()) + [newProcess] && newProcessEvent
    {
      AddUnderLock(newProcess);
      newProcessEvent := true;
    }

    method DeleteProcess(idx: nat) returns (deletedProcess: nat)
      requires Valid() && idx < |Procs()|
      modifies this`count, runningProcesses
      ensures Valid() && deletedProcess == old(Procs())[idx] && Procs() == Without(old(Procs()), idx)
    {
      deletedProcess := runningProcesses[idx];
      count := count - 1;
      runningProcesses[idx] := runningProcesses[count];
    }
  }
}
