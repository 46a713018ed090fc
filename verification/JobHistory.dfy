/**
 What mpiexec knows of a job is what has happened to it: each flag of a rank and of a group is
 the occurrence of an event in the run. From that: which events abort which group, whom they
 blame, and what mpiexec's exit code becomes.
 */
module JobHistory {
  import opened JobModel

  // ---- the flags ---------------------------------------------------------------------

  predicate Inited(es: seq<Event>, g: nat, r: nat) { EvInit(g, r) in es }

  predicate Finalized(es: seq<Event>, g: nat, r: nat) { EvFinalize(g, r) in es }

  predicate WasSuspended(es: seq<Event>, g: nat, r: nat) { EvSuspendResult(g, r) in es }

  predicate ExitOf(e: Event, g: nat, r: nat) { e.EvExit? && e.g == g && e.r == r }

  predicate LaunchedBy(e: Event, g: nat, r: nat) { e.EvLaunchOk? && e.g == g && r in e.ranks }

  predicate FailedBy(e: Event, g: nat, r: nat) { e.EvLaunchFailed? && e.g == g && r in e.ranks }

  ghost predicate HasExited(es: seq<Event>, g: nat, r: nat) { exists e :: e in es && ExitOf(e, g, r) }

  ghost predicate HasLaunched(es: seq<Event>, g: nat, r: nat) { exists e :: e in es && LaunchedBy(e, g, r) }

  ghost predicate HasFailed(es: seq<Event>, g: nat, r: nat) { exists e :: e in es && FailedBy(e, g, r) }

  /** Some rank of the group has called init. */
  ghost predicate SomeInit(es: seq<Event>, g: nat) { exists r :: Inited(es, g, r) }

  /** The i-th event is an exit that was neither forced by a suspend nor preceded by an init of the group. */
  ghost predicate EarlyExit(es: seq<Event>, g: nat, i: nat)
    requires i < |es|
  {
    es[i].EvExit? && es[i].g == g && !WasSuspended(es[..i], g, es[i].r) && !SomeInit(es[..i], g)
  }

  ghost predicate SomeEarlyExit(es: seq<Event>, g: nat) {
    exists i: nat :: i < |es| && EarlyExit(es, g, i)
  }

  ghost predicate RankRecord(p: Proc, es: seq<Event>, g: nat, r: nat) {
    && (p.initCalled <==> Inited(es, g, r))
    && (p.finalizeCalled <==> Finalized(es, g, r))
    && (p.suspended <==> WasSuspended(es, g, r))
    && (p.exited <==> HasExited(es, g, r))
    && (p.launched <==> HasLaunched(es, g, r))
    && (p.failedLaunch <==> HasFailed(es, g, r))
  }

  ghost predicate GroupRecord(pg: Group, es: seq<Event>, g: nat) {
    && (forall r :: 0 <= r < |pg.procs| ==> RankRecord(pg.procs[r], es, g, r))
    && (pg.anyInit <==> SomeInit(es, g))
    && (pg.anyNoInitExit <==> SomeEarlyExit(es, g))
  }

  /** The group an event is about. */
  predicate About(e: Event, g: nat) {
    match e
    case EvLaunchOk(h, _) => h == g
    case EvLaunchFailed(h, _) => h == g
    case EvSuspendResult(h, _) => h == g
    case EvKillResult(h, _) => h == g
    case EvExit(h, _, _) => h == g
    case EvInit(h, _) => h == g
    case EvFinalize(h, _) => h == g
    case EvAbortJob(h, _, _, _) => h == g
    case _ => false
  }

  ghost predicate Recorded(j: Job, es: seq<Event>) {
    && (forall g :: 0 <= g < |j.groups| ==> GroupRecord(j.groups[g], es, g))
    && (forall e, g: nat :: e in es && About(e, g) ==> g < |j.groups|)
  }

  // ---- one step ----------------------------------------------------------------------

  predicate RankStep(p: Proc, p': Proc, e: Event, g: nat, r: nat) {
    && (p'.initCalled <==> p.initCalled || e == EvInit(g, r))
    && (p'.finalizeCalled <==> p.finalizeCalled || e == EvFinalize(g, r))
    && (p'.suspended <==> p.suspended || e == EvSuspendResult(g, r))
    && (p'.exited <==> p.exited || ExitOf(e, g, r))
    && (p'.launched <==> p.launched || LaunchedBy(e, g, r))
    && (p'.failedLaunch <==> p.failedLaunch || FailedBy(e, g, r))
  }

  predicate LeavesEarly(pg: Group, e: Event, g: nat) {
    e.EvExit? && e.g == g && e.r < |pg.procs| && !pg.procs[e.r].suspended && !pg.procs[e.r].initCalled && !pg.anyInit
  }

  ghost predicate GroupStep(pg: Group, pg': Group, e: Event, g: nat) {
    && |pg'.procs| == |pg.procs|
    && (forall r :: 0 <= r < |pg.procs| ==> RankStep(pg.procs[r], pg'.procs[r], e, g, r))
    && (pg'.anyInit <==> pg.anyInit || (e.EvInit? && e.g == g))
    && (pg'.anyNoInitExit <==> pg.anyNoInitExit || LeavesEarly(pg, e, g))
    && pg'.numResults == pg.numResults + if e.EvLaunchOk? && e.g == g then |e.ranks| else 0
  }

  predicate SameFlags(p: Proc, p': Proc) {
    && p'.initCalled == p.initCalled && p'.finalizeCalled == p.finalizeCalled && p'.suspended == p.suspended
    && p'.exited == p.exited && p'.launched == p.launched && p'.failedLaunch == p.failedLaunch
  }

  ghost predicate SameRecord(pg: Group, pg': Group) {
    && |pg'.procs| == |pg.procs| && pg'.anyInit == pg.anyInit && pg'.anyNoInitExit == pg.anyNoInitExit
    && pg'.numResults == pg.numResults
    && forall r :: 0 <= r < |pg.procs| ==> SameFlags(pg.procs[r], pg'.procs[r])
  }

  ghost predicate SameRecords(j: Job, j': Job) {
    |j'.groups| == |j.groups| && forall g :: 0 <= g < |j.groups| ==> SameRecord(j.groups[g], j'.groups[g])
  }

  lemma SameRecordsThen(j: Job, j1: Job, j2: Job)
    requires SameRecords(j, j1) == true && SameRecords(j1, j2) == true
    ensures SameRecords(j, j2) == true
  {
    forall g | 0 <= g < |j.groups| ensures SameRecord(j.groups[g], j2.groups[g]) {
      assert SameRecord(j.groups[g], j1.groups[g]) && SameRecord(j1.groups[g], j2.groups[g]);
      forall r | 0 <= r < |j.groups[g].procs| ensures SameFlags(j.groups[g].procs[r], j2.groups[g].procs[r]) {
        assert SameFlags(j.groups[g].procs[r], j1.groups[g].procs[r]);
      }
    }
  }

  lemma SameRefl(pg: Group)
    ensures SameRecord(pg, pg) == true
  {
  }

  lemma BlameSame(j: Job, g: nat, r: nat, reason: AbortReason, code: int)
    requires HasRank(j, g, r)
    ensures SameRecords(j, BlameRank(j, g, r, reason, code)) == true
  {
    forall h | 0 <= h < |j.groups| { SameRefl(j.groups[h]); }
  }

  lemma FirstAbortSame(j: Job, g: nat, code: int)
    requires g < |j.groups|
    ensures SameRecords(j, FirstAbort(j, g, code)) == true
  {
    forall h | 0 <= h < |j.groups| { SameRefl(j.groups[h]); }
  }

  lemma AbortSame(j: Job, g: nat, r: nat, reason: AbortReason, code: int)
    requires HasRank(j, g, r)
    ensures SameRecords(j, AbortJob(j, g, r, reason, code)) == true
  {
    var j1 := BlameRank(j, g, r, reason, code);
    BlameSame(j, g, r, reason, code);
    if !j1.groups[g].aborted {
      var c := if reason.AppAbort? then code else -ReasonCode(reason);
      FirstAbortSame(j1, g, c);
      SameRecordsThen(j, j1, FirstAbort(j1, g, c));
    }
  }

  lemma {:induction false} AbortAllSame(j: Job, k: nat)
    requires Populated(j) && k <= |j.groups|
    ensures SameRecords(j, AbortAll(j, k)) == true
    decreases k
  {
    if k == 0 {
      forall h | 0 <= h < |j.groups| { SameRefl(j.groups[h]); }
    } else {
      var j1 := AbortJob(j, k - 1, 0, FatalError, -1);
      AbortJobKeepsShape(j, k - 1, 0, FatalError, -1);
      AbortSame(j, k - 1, 0, FatalError, -1);
      AbortAllSame(j1, k - 1);
      SameRecordsThen(j, j1, AbortAll(j1, k - 1));
    }
  }

  ghost predicate Steps(j: Job, j': Job, e: Event) {
    |j'.groups| == |j.groups| && forall g :: 0 <= g < |j.groups| ==> GroupStep(j.groups[g], j'.groups[g], e, g)
  }

  lemma StepsThenSame(j: Job, j1: Job, j2: Job, e: Event)
    requires Steps(j, j1, e) == true && SameRecords(j1, j2) == true
    ensures Steps(j, j2, e) == true
  {
    forall g | 0 <= g < |j.groups| ensures GroupStep(j.groups[g], j2.groups[g], e, g) {
      assert GroupStep(j.groups[g], j1.groups[g], e, g) && SameRecord(j1.groups[g], j2.groups[g]);
      forall r | 0 <= r < |j.groups[g].procs| ensures RankStep(j.groups[g].procs[r], j2.groups[g].procs[r], e, g, r) {
        assert RankStep(j.groups[g].procs[r], j1.groups[g].procs[r], e, g, r);
        assert SameFlags(j1.groups[g].procs[r], j2.groups[g].procs[r]);
      }
    }
  }

  /** Events that are no business of a group leave its flags alone. */
  lemma OtherStep(pg: Group, e: Event, g: nat)
    requires !About(e, g)
    ensures GroupStep(pg, pg, e, g) == true
  {
  }

  /** Only group g is touched, and it takes the step. */
  lemma OneSteps(j: Job, j': Job, e: Event, g: nat)
    requires g < |j.groups| && |j'.groups| == |j.groups| && GroupStep(j.groups[g], j'.groups[g], e, g) == true
    requires forall h :: 0 <= h < |j.groups| && h != g ==> j'.groups[h] == j.groups[h] && !About(e, h)
    ensures Steps(j, j', e) == true
  {
    forall h | 0 <= h < |j.groups| && h != g { OtherStep(j.groups[h], e, h); }
  }

  lemma NoSteps(j: Job, e: Event)
    requires forall g :: 0 <= g < |j.groups| ==> !About(e, g)
    ensures Steps(j, j, e) == true
  {
    forall h | 0 <= h < |j.groups| { OtherStep(j.groups[h], e, h); }
  }

  lemma LaunchedStep(pg: Group, g: nat, ranks: seq<nat>, n: int)
    requires n == pg.numResults + |ranks|
    ensures GroupStep(pg, pg.(procs := LaunchProcs(pg.procs, ranks), numResults := n), EvLaunchOk(g, ranks), g) == true
  {
  }

  lemma LaunchSteps(j: Job, g: nat, ranks: seq<nat>)
    requires HasRanks(j, g, ranks)
    ensures Steps(j, LaunchOk(j, g, ranks), EvLaunchOk(g, ranks)) == true
  {
    LaunchedStep(j.groups[g], g, ranks, j.groups[g].numResults + |ranks|);
    OneSteps(j, LaunchOk(j, g, ranks), EvLaunchOk(g, ranks), g);
  }

  lemma SuspendedStep(pg: Group, g: nat, r: nat, kills: int)
    requires r < |pg.procs|
    ensures GroupStep(pg, Suspended(pg, r).(numPendingKills := kills), EvSuspendResult(g, r), g) == true
  {
  }

  lemma SuspendSteps(j: Job, g: nat, r: nat)
    requires HasRank(j, g, r)
    ensures Steps(j, SuspendResult(j, g, r), EvSuspendResult(g, r)) == true
  {
    var j' := SuspendResult(j, g, r);
    SuspendedStep(j.groups[g], g, r, j'.groups[g].numPendingKills);
    assert j'.groups[g] == Suspended(j.groups[g], r).(numPendingKills := j'.groups[g].numPendingKills);
    OneSteps(j, j', EvSuspendResult(g, r), g);
  }

  lemma KillSteps(j: Job, g: nat, r: nat)
    requires HasRank(j, g, r)
    ensures Steps(j, KillResult(j, g, r), EvKillResult(g, r)) == true
  {
    OneSteps(j, KillResult(j, g, r), EvKillResult(g, r), g);
  }

  lemma InitSteps(j: Job, g: nat, r: nat)
    requires HasRank(j, g, r)
    ensures Steps(j, Init(j, g, r), EvInit(g, r)) == true
  {
    OneSteps(j, Init(j, g, r), EvInit(g, r), g);
  }

  lemma FinalizeSteps(j: Job, g: nat, r: nat)
    requires HasRank(j, g, r)
    ensures Steps(j, Finalize(j, g, r), EvFinalize(g, r)) == true
  {
    OneSteps(j, Finalize(j, g, r), EvFinalize(g, r), g);
  }

  lemma DropSteps(j: Job, g: nat, ranks: seq<nat>)
    requires HasRanks(j, g, ranks)
    ensures Steps(j, DropBlock(j, g, ranks), EvLaunchFailed(g, ranks)) == true
  {
    OneSteps(j, DropBlock(j, g, ranks), EvLaunchFailed(g, ranks), g);
  }

  lemma FailureSteps(j: Job, g: nat, ranks: seq<nat>)
    requires HasRanks(j, g, ranks) && Populated(j)
    ensures Steps(j, LaunchFailed(j, g, ranks), EvLaunchFailed(g, ranks)) == true
  {
    var j1 := DropBlock(j, g, ranks);
    DropSteps(j, g, ranks);
    AbortAllSame(j1, |j1.groups|);
    SameTorn(j1);
    StepsThenSame(j, j1, LaunchFailed(j, g, ranks), EvLaunchFailed(g, ranks));
  }

  lemma SameTorn(j: Job)
    ensures SameRecords(j, TearDown(j)) == true
  {
    forall h | 0 <= h < |j.groups| { SameRefl(j.groups[h]); }
  }

  /** An exit, before it aborts anything. */
  function Marked(j: Job, g: nat, r: nat, code: int): Job
    requires HasRank(j, g, r)
  {
    var j0 := MarkExited(j, g, r);
    var p := j0.groups[g].procs[r];
    if p.suspended then j0
    else
      var j1 := NoteExitCode(j0, g, r, code);
      if !p.initCalled && !j1.groups[g].anyInit then NoteNoInit(j1, g) else j1
  }

  /** Only the r-th rank of the group, and its flags only by the exit. */
  predicate OneExit(pg: Group, pg': Group, r: nat, early: bool)
    requires r < |pg.procs|
  {
    && |pg'.procs| == |pg.procs| && (forall i :: 0 <= i < |pg.procs| && i != r ==> pg'.procs[i] == pg.procs[i])
    && SameFlags(pg.procs[r].(exited := true), pg'.procs[r])
    && pg'.anyInit == pg.anyInit && (pg'.anyNoInitExit <==> pg.anyNoInitExit || early)
    && pg'.numResults == pg.numResults
  }

  lemma ExitStep(pg: Group, pg': Group, g: nat, r: nat, code: int, early: bool)
    requires r < |pg.procs| && (pg.procs[r].initCalled ==> pg.anyInit) && OneExit(pg, pg', r, early)
    requires early <==> LeavesEarly(pg, EvExit(g, r, code), g)
    ensures GroupStep(pg, pg', EvExit(g, r, code), g) == true
  {
  }

  lemma ExitedIs(j: Job, g: nat, r: nat)
    requires HasRank(j, g, r)
    ensures OneExit(j.groups[g], MarkExited(j, g, r).groups[g], r, false) == true
  {
  }

  lemma NotedIs(j: Job, g: nat, r: nat, code: int, pg: Group)
    requires HasRank(j, g, r) && r < |pg.procs| && OneExit(pg, j.groups[g], r, false) == true
    ensures OneExit(pg, NoteExitCode(j, g, r, code).groups[g], r, false) == true
  {
  }

  lemma MarkedIs(j: Job, g: nat, r: nat, code: int)
    requires HasRank(j, g, r)
    ensures var pg := j.groups[g];
            OneExit(pg, Marked(j, g, r, code).groups[g], r, LeavesEarly(pg, EvExit(g, r, code), g)) == true
  {
    var j0 := MarkExited(j, g, r);
    ExitedIs(j, g, r);
    NotedIs(j0, g, r, code, j.groups[g]);
  }

  lemma MarkedOthers(j: Job, g: nat, r: nat, code: int)
    requires HasRank(j, g, r)
    ensures var j' := Marked(j, g, r, code);
            |j'.groups| == |j.groups| && forall h :: 0 <= h < |j.groups| && h != g ==> j'.groups[h] == j.groups[h]
  {
  }

  lemma MarkedSteps(j: Job, g: nat, r: nat, code: int)
    requires HasRank(j, g, r) && (j.groups[g].procs[r].initCalled ==> j.groups[g].anyInit)
    ensures Steps(j, Marked(j, g, r, code), EvExit(g, r, code)) == true
  {
    var j' := Marked(j, g, r, code);
    MarkedIs(j, g, r, code);
    MarkedOthers(j, g, r, code);
    ExitStep(j.groups[g], j'.groups[g], g, r, code, LeavesEarly(j.groups[g], EvExit(g, r, code), g));
    OneSteps(j, j', EvExit(g, r, code), g);
  }

  lemma ExitSteps(j: Job, g: nat, r: nat, code: int)
    requires HasRank(j, g, r) && (j.groups[g].procs[r].initCalled ==> j.groups[g].anyInit)
    ensures Steps(j, Exit(j, g, r, code), EvExit(g, r, code)) == true
  {
    var j1 := Marked(j, g, r, code);
    MarkedSteps(j, g, r, code);
    AbortSame(j1, g, r, ExitNoFinalize, code);
    AbortSame(j1, g, r, ExitNoInit, code);
    MarkedSame(j1);
    var j2 := ExitOfRank(j, g, r, code);
    assert SameRecords(j1, j2) == true;
    CountSame(j2);
    SameRecordsThen(j1, j2, CountExit(j2));
    StepsThenSame(j, j1, CountExit(j2), EvExit(g, r, code));
  }

  lemma MarkedSame(j: Job)
    ensures SameRecords(j, j) == true
  {
    forall h | 0 <= h < |j.groups| { SameRefl(j.groups[h]); }
  }

  lemma CountSame(j: Job)
    ensures SameRecords(j, CountExit(j)) == true
  {
    forall h | 0 <= h < |j.groups| { SameRefl(j.groups[h]); }
  }

  lemma RequestSteps(j: Job, e: Event)
    requires Enabled(j, e) && (e.EvAbortJob? || e.EvCtrlC? || e.EvCmdError?)
    ensures Steps(j, Apply(j, e), e) == true
  {
    AboutNone(j, e);
    match e {
      case EvAbortJob(g, r, intern, code) =>
        AbortSame(j, g, r, if intern then FatalError else AppAbort, code);
      case EvCtrlC => AbortSame(j, |j.groups| - 1, 0, CtrlC, 0);
      case EvCmdError => AbortAllSame(j, |j.groups|);
    }
    StepsThenSame(j, j, Apply(j, e), e);
  }

  lemma AboutNone(j: Job, e: Event)
    requires e.EvAbortJob? || e.EvCtrlC? || e.EvCmdError?
    ensures Steps(j, j, e) == true
  {
  }

  lemma {:induction false} EventSteps(j: Job, e: Event, es: seq<Event>)
    requires Enabled(j, e) && !e.EvStartDbs? && !e.EvAddDbs? && Recorded(j, es) == true
    ensures Steps(j, Apply(j, e), e) == true
  {
    match e {
      case EvLaunchFailed(g, ranks) => FailureSteps(j, g, ranks);
      case EvExit(g, r, code) =>
        InitedCounts(j, es, g, r);
        ExitSteps(j, g, r, code);
      case EvInit(g, r) => InitSteps(j, g, r);
      case EvFinalize(g, r) => FinalizeSteps(j, g, r);
      case EvAbortJob(_, _, _, _) => RequestSteps(j, e);
      case EvCtrlC => RequestSteps(j, e);
      case EvCmdError => RequestSteps(j, e);
      case EvLaunchOk(g, ranks) => LaunchSteps(j, g, ranks);
      case EvSuspendResult(g, r) => SuspendSteps(j, g, r);
      case EvKillResult(g, r) => KillSteps(j, g, r);
    }
  }

  lemma InitedCounts(j: Job, es: seq<Event>, g: nat, r: nat)
    requires Recorded(j, es) && HasRank(j, g, r)
    ensures j.groups[g].procs[r].initCalled ==> j.groups[g].anyInit
  {
    assert GroupRecord(j.groups[g], es, g);
    assert RankRecord(j.groups[g].procs[r], es, g, r);
  }

  // ---- every run ---------------------------------------------------------------------

  lemma RankRecordOn(p: Proc, p': Proc, es: seq<Event>, e: Event, g: nat, r: nat)
    requires RankRecord(p, es, g, r) && RankStep(p, p', e, g, r)
    ensures RankRecord(p', es + [e], g, r) == true
  {
    var es' := es + [e];
    assert forall d :: d in es' <==> d in es || d == e;
    if HasExited(es', g, r) {
      var d :| d in es' && ExitOf(d, g, r);
    }
    if ExitOf(e, g, r) || LaunchedBy(e, g, r) || FailedBy(e, g, r) {
      assert e in es';
    }
  }

  lemma GroupRecordOn(pg: Group, pg': Group, es: seq<Event>, e: Event, g: nat)
    requires GroupRecord(pg, es, g) && GroupStep(pg, pg', e, g) == true
    requires e.EvExit? && e.g == g ==> e.r < |pg.procs|
    ensures GroupRecord(pg', es + [e], g) == true
  {
    var es' := es + [e];
    forall r | 0 <= r < |pg'.procs| ensures RankRecord(pg'.procs[r], es', g, r) {
      RankRecordOn(pg.procs[r], pg'.procs[r], es, e, g, r);
    }
    SomeInitOn(es, e, g);
    SomeEarlyExitOn(es, e, g);
    if e.EvExit? && e.g == g {
      assert RankRecord(pg.procs[e.r], es, g, e.r);
    }
  }

  lemma SomeInitOn(es: seq<Event>, e: Event, g: nat)
    ensures SomeInit(es + [e], g) <==> SomeInit(es, g) || (e.EvInit? && e.g == g)
  {
    forall r: nat ensures Inited(es + [e], g, r) <==> Inited(es, g, r) || e == EvInit(g, r) {
    }
    if e.EvInit? && e.g == g {
      assert Inited(es + [e], g, e.r);
    }
  }

  lemma SomeEarlyExitOn(es: seq<Event>, e: Event, g: nat)
    ensures SomeEarlyExit(es + [e], g) <==>
            SomeEarlyExit(es, g) || (e.EvExit? && e.g == g && !WasSuspended(es, g, e.r) && !SomeInit(es, g))
  {
    var es', n := es + [e], |es|;
    assert es'[..n] == es && es'[n] == e;
    assert EarlyExit(es', g, n) <==> (e.EvExit? && e.g == g && !WasSuspended(es, g, e.r) && !SomeInit(es, g));
    forall i: nat | i < n ensures EarlyExit(es', g, i) <==> EarlyExit(es, g, i) {
      assert es'[..i] == es[..i] && es'[i] == es[i];
    }
  }

  lemma NewRecord(n: nat, es: seq<Event>, g: nat)
    requires forall e :: e in es ==> !About(e, g)
    ensures GroupRecord(NewGroup(n), es, g) == true
  {
    forall i: nat | i < |es| ensures !EarlyExit(es, g, i) {
      assert es[i] in es;
    }
    forall r | 0 <= r < n ensures RankRecord(NewGroup(n).procs[r], es, g, r) {
    }
  }

  lemma RecordOn(j: Job, es: seq<Event>, e: Event)
    requires Recorded(j, es) == true && Enabled(j, e)
    ensures Recorded(Apply(j, e), es + [e]) == true
  {
    if e.EvStartDbs? || e.EvAddDbs? {
      NewRecorded(j, es, e);
    } else {
      EventSteps(j, e, es);
      StepsRecorded(j, Apply(j, e), es, e);
    }
  }

  lemma NewRecorded(j: Job, es: seq<Event>, e: Event)
    requires Recorded(j, es) == true && Enabled(j, e) && (e.EvStartDbs? || e.EvAddDbs?)
    ensures Recorded(Apply(j, e), es + [e]) == true
  {
    var j' := Apply(j, e);
    forall g | 0 <= g < |j'.groups| ensures GroupRecord(j'.groups[g], es + [e], g) {
      if g < |j.groups| {
        OtherStep(j.groups[g], e, g);
        GroupRecordOn(j.groups[g], j.groups[g], es, e, g);
      } else {
        NewRecord(if e.EvStartDbs? then j.nproc else e.n, es + [e], g);
      }
    }
  }

  lemma StepsRecorded(j: Job, j': Job, es: seq<Event>, e: Event)
    requires Recorded(j, es) == true && Enabled(j, e) && Steps(j, j', e) == true
    ensures Recorded(j', es + [e]) == true
  {
    forall g | 0 <= g < |j'.groups| ensures GroupRecord(j'.groups[g], es + [e], g) {
      GroupRecordOn(j.groups[g], j'.groups[g], es, e, g);
    }
  }

  lemma {:induction false} RunRecords(j: Job, past: seq<Event>, es: seq<Event>)
    requires Recorded(j, past) == true && IsRun(j, es)
    ensures Recorded(Run(j, es), past + es) == true
    decreases |es|
  {
    if es == [] {
      assert past + es == past;
    } else {
      RecordOn(j, past, es[0]);
      RunRecords(Apply(j, es[0]), past + [es[0]], es[1..]);
      assert past + [es[0]] + es[1..] == past + es;
    }
  }

  /** In every reachable state. */
  lemma FlagsAreHistory(nproc: int, es: seq<Event>, g: nat)
    requires IsRun(Initial(nproc), es) && g < |Run(Initial(nproc), es).groups|
    ensures GroupRecord(Run(Initial(nproc), es).groups[g], es, g)
  {
    RunRecords(Initial(nproc), [], es);
    assert [] + es == es;
  }
}
