/**
 "We delay killing the processes until all processes have been suspended" is meant to end
 with every running process killed before the tree closes. It does, except in one case: the
 last awaited suspend may be one that was delayed on a launch, and when that launch fails the
 tree is closed on the spot.
 */
module JobClosing {
  import opened Sums
  import opened JobModel
  import opened JobInvariants
  import opened JobSafety
  import opened JobTheorems

  predicate Running(p: Proc) {
    p.launched && !p.exited
  }

  /** Every running rank of the group has been sent a kill. */
  ghost predicate NoneSpared(j: Job, g: nat)
    requires g < |j.groups|
  {
    forall r :: 0 <= r < |j.groups[g].procs| && Running(j.groups[g].procs[r]) ==> Kill(g, r) in j.posted
  }

  ghost predicate AnyRunning(j: Job, g: nat)
    requires g < |j.groups|
  {
    exists r :: 0 <= r < |j.groups[g].procs| && Running(j.groups[g].procs[r])
  }

  /** The guard of the branch that closes without a kill round. */
  ghost predicate LastAwaitedLaunchFails(j: Job, e: Event)
    requires |j.groups| == 1
  {
    e.EvLaunchFailed? && j.groups[0].aborted && j.groups[0].numPendingSuspends > 0 && AnyRunning(j, 0)
  }

  ghost predicate NoneLive(ps: seq<Proc>) {
    forall r :: 0 <= r < |ps| ==> !Live(ps[r])
  }

  lemma {:induction false} NoLiveCount(ps: seq<Proc>, k: nat)
    requires k <= |ps|
    ensures LiveCount(ps, k) == 0 <==> forall r :: 0 <= r < k ==> !Live(ps[r])
  {
    if k > 0 { NoLiveCount(ps, k - 1); }
  }

  /** An abort tears the tree down itself only when no rank of the group is left. */
  lemma AbortClosesEmptyGroups(j: Job, r: nat, reason: AbortReason, code: int)
    requires GroupsInv(j) && |j.groups| == 1 && HasRank(j, 0, r) && !j.closing
    requires AbortJob(j, 0, r, reason, code).closing
    ensures var j' := AbortJob(j, 0, r, reason, code);
            |j'.groups| == 1 && NoneSpared(j', 0)
  {
    var j1 := BlameRank(j, 0, r, reason, code);
    var ps := j1.groups[0].procs;
    BlameKeeps(j, 0, r, reason, code);
    assert InvOf(j1, 0);
    WeightsNonNegative(ps, 0, j1.outstanding);
    NoLiveCount(ps, |ps|);
    assert NoneLive(ps);
    forall i | 0 <= i < |ps| ensures !Running(AbortProcs(ps)[i]) {
      assert RankInv(ps[i], 0, i, j1.groups[0].aborted, j1.groups[0].numPendingSuspends, j1.outstanding, j1.posted);
    }
  }

  lemma KillAnswerSparesNone(j: Job, r: nat)
    requires Inv(j) && |j.groups| == 1 && HasRank(j, 0, r) && Kill(0, r) in j.outstanding && !j.closing
    ensures NoneSpared(KillResult(j, 0, r), 0)
  {
    var pg := j.groups[0];
    assert InvOf(j, 0);
    assert RankInv(pg.procs[r], 0, r, pg.aborted, pg.numPendingSuspends, j.outstanding, j.posted);
    assert AllKilled(pg, 0, j.posted);
  }

  lemma FailedLaunchUnfolds(j: Job, ranks: seq<nat>)
    requires |j.groups| == 1 && HasRanks(j, 0, ranks) && Populated(j)
    requires j.groups[0].aborted && !j.closing && LaunchFailed(j, 0, ranks).closing
    ensures var j' := LaunchFailed(j, 0, ranks);
            && j'.posted == j.posted + multiset{Close}
            && |j'.groups| == 1 && |j'.groups[0].procs| == |j.groups[0].procs|
            && forall r :: 0 <= r < |j.groups[0].procs| ==>
                 Running(j'.groups[0].procs[r]) == Running(j.groups[0].procs[r])
  {
    var j1 := DropBlock(j, 0, ranks);
    AbortAllOfAborted(j1);
    assert LaunchFailed(j, 0, ranks) == TearDown(j1);
  }

  /** Who has been sent a kill in an aborted group: nobody while suspends are awaited, everybody after. */
  lemma KillsAllOrNothing(j: Job)
    requires GroupsInv(j) && |j.groups| == 1 && j.groups[0].aborted && !j.closing
    ensures var pg := j.groups[0];
            && (pg.numPendingSuspends == 0 ==>
                  forall r :: 0 <= r < |pg.procs| && !pg.procs[r].exited ==> Kill(0, r) in j.posted)
            && (pg.numPendingSuspends > 0 ==> forall r :: 0 <= r < |pg.procs| ==> Kill(0, r) !in j.posted)
            && pg.numPendingSuspends >= 0
  {
    var pg := j.groups[0];
    assert InvOf(j, 0);
    WeightsNonNegative(pg.procs, 0, j.outstanding);
    if pg.numPendingSuspends == 0 {
      assert AllKilled(pg, 0, j.posted);
    } else {
      forall r | 0 <= r < |pg.procs| ensures Kill(0, r) !in j.posted {
        assert RankInv(pg.procs[r], 0, r, pg.aborted, pg.numPendingSuspends, j.outstanding, j.posted);
      }
    }
  }

  /** A failed launch closes the tree with something left running exactly when it was the last one awaited. */
  lemma FailedLaunchCloses(j: Job, ranks: seq<nat>)
    requires Inv(j) && |j.groups| == 1 && HasRanks(j, 0, ranks) && Populated(j)
    requires j.groups[0].aborted && !j.closing && LaunchFailed(j, 0, ranks).closing
    ensures |LaunchFailed(j, 0, ranks).groups| == 1
    ensures NoneSpared(LaunchFailed(j, 0, ranks), 0)
            <==> !(j.groups[0].numPendingSuspends > 0 && AnyRunning(j, 0))
  {
    FailedLaunchUnfolds(j, ranks);
    KillsAllOrNothing(j);
  }

  lemma AbortAllOfAborted(j: Job)
    requires |j.groups| == 1 && Populated(j) && j.groups[0].aborted
    ensures AbortAll(j, 1).closing == j.closing
  {
    var j1 := AbortJob(j, 0, 0, FatalError, -1);
    AbortJobKeepsShape(j, 0, 0, FatalError, -1);
    assert AbortAll(j, 1) == AbortAll(j1, 0) == j1;
  }

  lemma FirstFailedLaunchCloses(j: Job, ranks: seq<nat>)
    requires Inv(j) && |j.groups| == 1 && HasRanks(j, 0, ranks) && Populated(j) && Launch(0, ranks) in j.outstanding
    requires !j.groups[0].aborted && !j.closing && LaunchFailed(j, 0, ranks).closing
    ensures |LaunchFailed(j, 0, ranks).groups| == 1 && NoneSpared(LaunchFailed(j, 0, ranks), 0)
  {
    var j1 := DropBlock(j, 0, ranks);
    DropKeeps(j, 0, ranks);
    AbortAllOne(j1);
    AbortClosesEmptyGroups(j1, 0, FatalError, -1);
  }

  lemma AbortAllOne(j: Job)
    requires |j.groups| == 1 && Populated(j)
    ensures AbortAll(j, 1) == AbortJob(j, 0, 0, FatalError, -1)
  {
    AbortJobKeepsShape(j, 0, 0, FatalError, -1);
  }

  lemma ExitSparesNone(j: Job, r: nat, code: int)
    requires Inv(j) && |j.groups| == 1 && HasRank(j, 0, r) && !j.groups[0].procs[r].exited
    requires !j.closing && Exit(j, 0, r, code).closing
    ensures |Exit(j, 0, r, code).groups| == 1 && NoneSpared(Exit(j, 0, r, code), 0)
  {
    var j0 := MarkExited(j, 0, r);
    var j1 := NoteExitCode(j0, 0, r, code);
    var j' := ExitOfRank(j, 0, r, code);
    MarkExitedKeeps(j, 0, r);
    NoteExitCodeKeeps(j0, 0, r, code);
    ExitOfRankKeeps(j, 0, r, code);
    if j'.closing {
      var reason := if j0.groups[0].procs[r].initCalled then ExitNoFinalize else ExitNoInit;
      assert j' == AbortJob(j1, 0, r, reason, code);
      AbortClosesEmptyGroups(j1, r, reason, code);
    } else {
      ExitTotals(j, j', 0, r);
      AllGone(j');
      assert SameExits(j'.groups[0].procs, Exit(j, 0, r, code).groups[0].procs);
    }
  }

  /** In a single group, as many exits as ranks means that all have exited. */
  lemma AllGone(j: Job)
    requires GroupsInv(j) && |j.groups| == 1 && Sum(Exits(j)) == Sum(Sizes(j))
    ensures AllExited(j.groups[0])
  {
    var ps := j.groups[0].procs;
    assert InvOf(j, 0);
    assert Exits(j) == [j.groups[0].numExited] && Sizes(j) == [|ps|];
    var ones := seq(|ps|, i => 1);
    SumConst(ones, 1);
    forall r | 0 <= r < |ps| ensures ps[r].exited {
      if !ps[r].exited {
        SumStrict(ExitWeights(ps), ones, r);
      }
    }
  }

  /** A step that closes the tree of a single-group job. */
  ghost predicate Closes(j: Job, e: Event) {
    Inv(j) && |j.groups| == 1 && Enabled(j, e) && !j.closing && Apply(j, e).closing && |Apply(j, e).groups| == 1
  }

  lemma LaunchFailureCloses(j: Job, e: Event)
    requires e.EvLaunchFailed? && Closes(j, e) == true
    ensures NoneSpared(Apply(j, e), 0) == !LastAwaitedLaunchFails(j, e)
  {
    if j.groups[0].aborted {
      FailedLaunchCloses(j, e.ranks);
    } else {
      FirstFailedLaunchCloses(j, e.ranks);
    }
  }

  lemma KillAnswerCloses(j: Job, e: Event)
    requires e.EvKillResult? && Closes(j, e) == true
    ensures NoneSpared(Apply(j, e), 0)
  {
    KillAnswerSparesNone(j, e.r);
  }

  lemma ExitCloses(j: Job, e: Event)
    requires e.EvExit? && Closes(j, e) == true
    ensures NoneSpared(Apply(j, e), 0)
  {
    ExitSparesNone(j, e.r, e.code);
  }

  lemma AbortRequestCloses(j: Job, e: Event)
    requires e.EvAbortJob? && Closes(j, e) == true
    ensures NoneSpared(Apply(j, e), 0)
  {
    AbortClosesEmptyGroups(j, e.r, if e.intern then FatalError else AppAbort, e.code);
  }

  lemma CtrlCCloses(j: Job, e: Event)
    requires e.EvCtrlC? && Closes(j, e) == true
    ensures NoneSpared(Apply(j, e), 0)
  {
    AbortClosesEmptyGroups(j, 0, CtrlC, 0);
  }

  lemma CmdErrorCloses(j: Job, e: Event)
    requires e.EvCmdError? && Closes(j, e) == true
    ensures NoneSpared(Apply(j, e), 0)
  {
    AbortAllOne(j);
    AbortClosesEmptyGroups(j, 0, FatalError, -1);
  }

  /**
   The step that closes a single-group job leaves no running rank without a kill, if and only
   if it is not the failure of the last launch a delayed suspend was waiting for.
   */
  lemma ClosingSparesNone(j: Job, e: Event)
    requires Inv(j) && |j.groups| == 1 && Enabled(j, e) && !j.closing && Apply(j, e).closing
    ensures |Apply(j, e).groups| == 1
    ensures NoneSpared(Apply(j, e), 0) <==> !LastAwaitedLaunchFails(j, e)
  {
    WhoStillRuns(j, e);
    assert Closes(j, e) == true;
    if e.EvLaunchFailed? {
      LaunchFailureCloses(j, e);
    } else if e.EvKillResult? {
      KillAnswerCloses(j, e);
    } else if e.EvExit? {
      ExitCloses(j, e);
    } else if e.EvAbortJob? {
      AbortRequestCloses(j, e);
    } else if e.EvCtrlC? {
      CtrlCCloses(j, e);
    } else if e.EvCmdError? {
      CmdErrorCloses(j, e);
    } else {
      NeverCloses(j, e);
    }
  }

  lemma NeverCloses(j: Job, e: Event)
    requires Enabled(j, e)
    requires e.EvStartDbs? || e.EvAddDbs? || e.EvLaunchOk? || e.EvSuspendResult? || e.EvInit? || e.EvFinalize?
    ensures Apply(j, e).closing == j.closing
  {
  }

  // ---- any number of groups ----------------------------------------------------------

  /** The same ranks are running. */
  ghost predicate SameRun(ps: seq<Proc>, ps': seq<Proc>) {
    |ps'| == |ps| && forall r :: 0 <= r < |ps| ==> Running(ps'[r]) == Running(ps[r])
  }

  ghost predicate SameRuns(j: Job, j': Job) {
    |j'.groups| == |j.groups| && forall h :: 0 <= h < |j.groups| ==> SameRun(j.groups[h].procs, j'.groups[h].procs)
  }

  lemma SameRunsThen(j: Job, j1: Job, j2: Job)
    requires SameRuns(j, j1) && SameRuns(j1, j2)
    ensures SameRuns(j, j2)
  {
    forall h | 0 <= h < |j.groups| ensures SameRun(j.groups[h].procs, j2.groups[h].procs) {
      assert SameRun(j.groups[h].procs, j1.groups[h].procs) && SameRun(j1.groups[h].procs, j2.groups[h].procs);
    }
  }

  lemma SetRuns(j: Job, g: nat, pg: Group)
    requires g < |j.groups| && SameRun(j.groups[g].procs, pg.procs)
    ensures SameRuns(j, SetGroup(j, g, pg))
  {
  }

  lemma AbortRuns(j: Job, g: nat, r: nat, reason: AbortReason, code: int)
    requires HasRank(j, g, r)
    ensures SameRuns(j, AbortJob(j, g, r, reason, code))
  {
    var j1 := BlameRank(j, g, r, reason, code);
    var pg := j1.groups[g];
    assert SameRun(j.groups[g].procs, pg.procs);
    assert SameRun(pg.procs, AbortProcs(pg.procs));
    SetRuns(j, g, pg);
    SetRuns(j1, g, SuspendRound(j1, g).groups[g]);
    SameRunsThen(j, j1, SuspendRound(j1, g));
  }

  lemma {:induction false} AbortAllRuns(j: Job, k: nat)
    requires Populated(j) && k <= |j.groups|
    ensures SameRuns(j, AbortAll(j, k))
    decreases k
  {
    if k > 0 {
      var j1 := AbortJob(j, k - 1, 0, FatalError, -1);
      AbortJobKeepsShape(j, k - 1, 0, FatalError, -1);
      AbortRuns(j, k - 1, 0, FatalError, -1);
      AbortAllRuns(j1, k - 1);
      SameRunsThen(j, j1, AbortAll(j1, k - 1));
    }
  }

  lemma LaunchFailedRuns(j: Job, g: nat, ranks: seq<nat>)
    requires HasRanks(j, g, ranks) && Populated(j)
    ensures SameRuns(j, LaunchFailed(j, g, ranks))
  {
    var j1 := DropBlock(j, g, ranks);
    assert SameRun(j.groups[g].procs, j1.groups[g].procs);
    assert SameRuns(j, j1);
    assert Populated(j1);
    AbortAllRuns(j1, |j1.groups|);
    SameRunsThen(j, j1, AbortAll(j1, |j1.groups|));
  }

  lemma ExitRuns(j: Job, g: nat, r: nat, code: int)
    requires HasRank(j, g, r)
    ensures SameRuns(MarkExited(j, g, r), Exit(j, g, r, code))
  {
    var j0 := MarkExited(j, g, r);
    var j1 := NoteExitCode(j0, g, r, code);
    SetRuns(j0, g, j1.groups[g]);
    assert SameRuns(j0, j1);
    AbortRuns(j1, g, r, ExitNoFinalize, code);
    AbortRuns(j1, g, r, ExitNoInit, code);
    SetRuns(j1, g, NoteNoInit(j1, g).groups[g]);
    ExitOfRankRuns(j, g, r, code, j0, j1);
  }

  lemma ExitOfRankRuns(j: Job, g: nat, r: nat, code: int, j0: Job, j1: Job)
    requires HasRank(j, g, r) && j0 == MarkExited(j, g, r) && j1 == NoteExitCode(j0, g, r, code)
    requires SameRuns(j0, j1)
    requires SameRuns(j1, AbortJob(j1, g, r, ExitNoFinalize, code))
    requires SameRuns(j1, AbortJob(j1, g, r, ExitNoInit, code))
    requires SameRuns(j1, NoteNoInit(j1, g))
    ensures SameRuns(j0, Exit(j, g, r, code))
  {
    var j' := ExitOfRank(j, g, r, code);
    if !j0.groups[g].procs[r].suspended {
      assert SameRuns(j1, j');
      SameRunsThen(j0, j1, j');
    }
    assert SameRuns(j0, j');
  }

  /** The rank runs on after the step: only its own exit could end it. */
  predicate StillRunning(j: Job, e: Event, h: nat, r: nat)
    requires HasRank(j, h, r)
  {
    Running(j.groups[h].procs[r]) && !(e.EvExit? && e.g == h && e.r == r)
  }

  lemma WhoStillRuns(j: Job, e: Event)
    requires Enabled(j, e) && !j.closing && Apply(j, e).closing
    ensures |Apply(j, e).groups| == |j.groups|
    ensures forall h :: 0 <= h < |j.groups| ==> |Apply(j, e).groups[h].procs| == |j.groups[h].procs|
    ensures forall h, r :: 0 <= h && 0 <= r && HasRank(j, h, r) ==>
              Running(Apply(j, e).groups[h].procs[r]) == StillRunning(j, e, h, r)
  {
    if e.EvExit? {
      ExitRuns(j, e.g, e.r, e.code);
      StepRuns(MarkExited(j, e.g, e.r), Apply(j, e));
    } else {
      NotExitRuns(j, e);
      StepRuns(j, Apply(j, e));
    }
  }

  lemma StepRuns(j: Job, j': Job)
    requires SameRuns(j, j')
    ensures |j'.groups| == |j.groups|
    ensures forall h, r :: 0 <= h && 0 <= r && HasRank(j, h, r) ==>
              |j'.groups[h].procs| == |j.groups[h].procs|
              && Running(j'.groups[h].procs[r]) == Running(j.groups[h].procs[r])
    ensures forall h :: 0 <= h < |j.groups| ==> |j'.groups[h].procs| == |j.groups[h].procs|
  {
    forall h, r | 0 <= h && 0 <= r && HasRank(j, h, r)
      ensures |j'.groups[h].procs| == |j.groups[h].procs|
      ensures Running(j'.groups[h].procs[r]) == Running(j.groups[h].procs[r])
    {
      assert SameRun(j.groups[h].procs, j'.groups[h].procs);
    }
    forall h | 0 <= h < |j.groups| ensures |j'.groups[h].procs| == |j.groups[h].procs| {
      assert SameRun(j.groups[h].procs, j'.groups[h].procs);
    }
  }

  lemma KillAnswerRuns(j: Job, g: nat, r: nat)
    requires g < |j.groups|
    ensures SameRuns(j, KillResult(j, g, r))
  {
    SetRuns(j, g, j.groups[g].(numPendingKills := j.groups[g].numPendingKills - 1));
  }

  lemma AbortEventRuns(j: Job, e: Event)
    requires Enabled(j, e) && (e.EvAbortJob? || e.EvCtrlC? || e.EvCmdError?)
    ensures SameRuns(j, Apply(j, e))
  {
    match e {
      case EvAbortJob(g, r, intern, code) => AbortRuns(j, g, r, if intern then FatalError else AppAbort, code);
      case EvCtrlC => AbortRuns(j, |j.groups| - 1, 0, CtrlC, 0);
      case EvCmdError => AbortAllRuns(j, |j.groups|);
    }
  }

  lemma NotExitRuns(j: Job, e: Event)
    requires Enabled(j, e) && !j.closing && Apply(j, e).closing && !e.EvExit?
    ensures SameRuns(j, Apply(j, e))
  {
    if e.EvLaunchFailed? {
      LaunchFailedRuns(j, e.g, e.ranks);
    } else if e.EvKillResult? {
      KillAnswerRuns(j, e.g, e.r);
    } else if e.EvAbortJob? || e.EvCtrlC? || e.EvCmdError? {
      AbortEventRuns(j, e);
    } else {
      NeverCloses(j, e);
    }
  }

  /** The group's kill round is over: everyone in it who has not exited has been sent a kill. */
  predicate KillRoundDone(pg: Group) {
    pg.aborted && pg.numPendingSuspends == 0
  }

  /**
   With any number of groups, the step that closes the tree leaves no running rank of a group
   without a kill, if and only if that group's kill round is over or none of its ranks runs on.
   */
  lemma ClosingSparesGroup(j: Job, e: Event, h: nat)
    requires Inv(j) && Enabled(j, e) && !j.closing && Apply(j, e).closing && h < |j.groups|
    ensures |Apply(j, e).groups| == |j.groups|
    ensures NoneSpared(Apply(j, e), h)
       <==> KillRoundDone(j.groups[h])
            || forall r :: 0 <= r < |j.groups[h].procs| ==> !StillRunning(j, e, h, r)
  {
    if e.EvSuspendResult? {
      NeverCloses(j, e);
    } else {
      WhoStillRuns(j, e);
      KillsComeFromSuspends(j, e, h);
      KilledOrNot(j, h);
      SparedAfter(j, Apply(j, e), e, h);
    }
  }

  lemma SparedAfter(j: Job, j': Job, e: Event, h: nat)
    requires h < |j.groups| && |j'.groups| == |j.groups| && |j'.groups[h].procs| == |j.groups[h].procs|
    requires forall r :: 0 <= r && HasRank(j, h, r) ==>
               Running(j'.groups[h].procs[r]) == StillRunning(j, e, h, r)
    requires SameKills(j, j', h)
    requires forall r :: 0 <= r < |j.groups[h].procs| && Running(j.groups[h].procs[r]) ==>
               (j.posted[Kill(h, r)] > 0 <==> KillRoundDone(j.groups[h]))
    ensures NoneSpared(j', h)
       <==> KillRoundDone(j.groups[h])
            || forall r :: 0 <= r < |j.groups[h].procs| ==> !StillRunning(j, e, h, r)
  {
    forall r | 0 <= r < |j.groups[h].procs|
      ensures Running(j'.groups[h].procs[r]) == StillRunning(j, e, h, r)
      ensures StillRunning(j, e, h, r) ==> (Kill(h, r) in j'.posted <==> KillRoundDone(j.groups[h]))
    {
      assert HasRank(j, h, r);
      assert j'.posted[Kill(h, r)] == j.posted[Kill(h, r)];
    }
  }

  /** A running rank has been sent a kill exactly when its group's kill round is over. */
  lemma KilledOrNot(j: Job, h: nat)
    requires GroupsInv(j) && h < |j.groups| && !j.closing
    ensures forall r :: 0 <= r < |j.groups[h].procs| && Running(j.groups[h].procs[r]) ==>
              (j.posted[Kill(h, r)] > 0 <==> KillRoundDone(j.groups[h]))
  {
    var pg := j.groups[h];
    assert InvOf(j, h);
    forall r | 0 <= r < |pg.procs| && Running(pg.procs[r])
      ensures j.posted[Kill(h, r)] > 0 <==> KillRoundDone(pg)
    {
      assert RankInv(pg.procs[r], h, r, pg.aborted, pg.numPendingSuspends, j.outstanding, j.posted);
      if KillRoundDone(pg) {
        assert AllKilled(pg, h, j.posted);
      }
    }
  }

  // ---- the case, played out ----------------------------------------------------------

  function SparedUp(): Job {
    var up := NEW_PROC.(launched := true);
    Job([Group([up, NEW_PROC], false, false, false, 0, 0, 0, 1)], false, 2, 0, 0,
        multiset{Launch(0, [1])}, multiset{Launch(0, [0]), Launch(0, [1])})
  }

  function SparedAborted(): Job {
    var up := NEW_PROC.(launched := true, reason := AppAbort, exitCode := 7);
    Job([Group([up, NEW_PROC.(suspendPending := true)], true, false, false, 0, 2, 0, 1)], false, 2, 0, 7,
        multiset{Launch(0, [1]), Suspend(0, 0)}, multiset{Launch(0, [0]), Launch(0, [1]), Suspend(0, 0)})
  }

  function SparedSuspended(): Job {
    var up := NEW_PROC.(launched := true, reason := AppAbort, exitCode := 7, suspended := true);
    Job([Group([up, NEW_PROC.(suspendPending := true)], true, false, false, 0, 1, 0, 1)], false, 2, 0, 7,
        multiset{Launch(0, [1])}, multiset{Launch(0, [0]), Launch(0, [1]), Suspend(0, 0)})
  }

  function SparedClosing(): Job {
    var up := NEW_PROC.(launched := true, reason := AppAbort, exitCode := 7, suspended := true);
    Job([Group([up, NEW_PROC.(failedLaunch := true)], true, false, false, 0, 0, 0, 1)], true, 2, 0, 7,
        multiset{Close}, multiset{Launch(0, [0]), Launch(0, [1]), Suspend(0, 0), Close})
  }

  function SparedBlocks(): seq<seq<nat>> {
    [[0], [1]]
  }

  /** Both launch commands are on the wire. */
  function SparedLaunching(): Job {
    var cs := multiset{Launch(0, [0]), Launch(0, [1])};
    Job([Group([NEW_PROC, NEW_PROC], false, false, false, 0, 0, 0, 0)], false, 2, 0, 0, cs, cs)
  }

  lemma SparedDeals()
    ensures Deals(SparedBlocks(), 2)
  {
    var blocks := SparedBlocks();
    assert 0 in blocks[0] && 1 in blocks[1];
    assert Dealt(blocks, 0) && Dealt(blocks, 1);
  }

  lemma SparedStart()
    ensures AddGroup(Initial(2), 2, SparedBlocks()) == SparedLaunching()
  {
    var blocks := SparedBlocks();
    assert LaunchCmds(0, blocks, 0) == multiset{};
    assert LaunchCmds(0, blocks, 1) == multiset{Launch(0, [0])};
    assert NewGroup(2).procs == [NEW_PROC, NEW_PROC];
    assert AddGroup(Initial(2), 2, blocks).groups == SparedLaunching().groups;
  }

  lemma SparedLaunch()
    ensures Enabled(SparedLaunching(), EvLaunchOk(0, [0]))
    ensures Apply(SparedLaunching(), EvLaunchOk(0, [0])) == SparedUp()
  {
    var ps := SparedLaunching().groups[0].procs;
    assert LaunchProcs(ps, [0]) == [NEW_PROC.(launched := true), NEW_PROC];
    assert DelayedSuspends(0, ps, [0], 1) == DelayedSuspends(0, ps, [0], 0) == multiset{};
    assert SparedLaunching().outstanding - multiset{Launch(0, [0])} == multiset{Launch(0, [1])};
  }

  lemma SuspendCmdsStep(ps: seq<Proc>, k: nat)
    requires k < |ps|
    ensures SuspendCmds(0, ps, 0) == multiset{} && LiveCount(ps, 0) == 0
    ensures SuspendCmds(0, ps, k + 1) ==
              SuspendCmds(0, ps, k) + if Live(ps[k]) && ps[k].launched then multiset{Suspend(0, k)} else multiset{}
    ensures LiveCount(ps, k + 1) == LiveCount(ps, k) + if Live(ps[k]) then 1 else 0
  {
  }

  lemma SparedRound(ps: seq<Proc>, up: Proc)
    requires up == NEW_PROC.(launched := true, reason := AppAbort, exitCode := 7) && ps == [up, NEW_PROC]
    ensures SuspendCmds(0, ps, 2) == multiset{Suspend(0, 0)} && LiveCount(ps, 2) == 2
    ensures AbortProcs(ps) == [up, NEW_PROC.(suspendPending := true)]
  {
    SuspendCmdsStep(ps, 0);
    SuspendCmdsStep(ps, 1);
    assert AbortProc(ps[0]) == up && AbortProc(ps[1]) == NEW_PROC.(suspendPending := true);
  }

  lemma SparedAbort()
    ensures Enabled(SparedUp(), EvAbortJob(0, 0, false, 7))
    ensures Apply(SparedUp(), EvAbortJob(0, 0, false, 7)) == SparedAborted()
  {
    var up := NEW_PROC.(launched := true, reason := AppAbort, exitCode := 7);
    var j1 := BlameRank(SparedUp(), 0, 0, AppAbort, 7);
    var ps := j1.groups[0].procs;
    assert ps == [up, NEW_PROC];
    SparedRound(ps, up);
    SparedSuspendRound(j1);
  }

  lemma SparedSuspendRound(j1: Job)
    requires var up := NEW_PROC.(launched := true, reason := AppAbort, exitCode := 7);
             j1 == SparedUp().(groups := [SparedUp().groups[0].(procs := [up, NEW_PROC])])
             && SuspendCmds(0, [up, NEW_PROC], 2) == multiset{Suspend(0, 0)}
             && LiveCount([up, NEW_PROC], 2) == 2
             && AbortProcs([up, NEW_PROC]) == [up, NEW_PROC.(suspendPending := true)]
    ensures SuspendRound(j1, 0).(exitCode := 7) == SparedAborted()
  {
    assert SuspendRound(j1, 0).groups == SparedAborted().groups;
  }

  lemma SparedSuspend()
    ensures Enabled(SparedAborted(), EvSuspendResult(0, 0))
    ensures Apply(SparedAborted(), EvSuspendResult(0, 0)) == SparedSuspended()
  {
    var j, pg := SparedAborted(), SparedSuspended().groups[0];
    assert Suspended(j.groups[0], 0) == pg;
    assert SetGroup(Answered(j, Suspend(0, 0)), 0, pg).groups == SparedSuspended().groups;
    assert j.outstanding - multiset{Suspend(0, 0)} == multiset{Launch(0, [1])};
  }

  lemma SparedFailure()
    ensures Enabled(SparedSuspended(), EvLaunchFailed(0, [1]))
    ensures Apply(SparedSuspended(), EvLaunchFailed(0, [1])) == SparedClosing()
  {
    var j := SparedSuspended();
    var ps := j.groups[0].procs;
    assert Populated(j);
    assert DelayedCount(ps, [1], 0) == 0 && DelayedCount(ps, [1], 1) == 1;
    assert FailProcs(ps, [1]) == SparedClosing().groups[0].procs;
    assert DropBlock(j, 0, [1]).outstanding == multiset{};
  }

  lemma {:induction false} RunCons(j: Job, e: Event, es: seq<Event>)
    requires Enabled(j, e) && IsRun(Apply(j, e), es)
    ensures IsRun(j, [e] + es) && Run(j, [e] + es) == Run(Apply(j, e), es)
  {
    assert ([e] + es)[1..] == es;
  }

  /** The second half of the run: suspend answered, launch failed. */
  lemma SparedTail() returns (es: seq<Event>)
    ensures IsRun(SparedAborted(), es) && Run(SparedAborted(), es) == SparedClosing()
  {
    SparedFailure();
    SparedSuspend();
    es := [];
    RunCons(SparedSuspended(), EvLaunchFailed(0, [1]), es);
    es := [EvLaunchFailed(0, [1])] + es;
    RunCons(SparedAborted(), EvSuspendResult(0, 0), es);
    es := [EvSuspendResult(0, 0)] + es;
  }

  lemma SparedMiddle() returns (es: seq<Event>)
    ensures IsRun(SparedUp(), es) && Run(SparedUp(), es) == SparedClosing()
  {
    es := SparedTail();
    SparedAbort();
    RunCons(SparedUp(), EvAbortJob(0, 0, false, 7), es);
    es := [EvAbortJob(0, 0, false, 7)] + es;
  }

  lemma SparedBegins(es: seq<Event>)
    requires IsRun(SparedLaunching(), es)
    ensures var es' := [EvStartDbs(SparedBlocks())] + es;
            IsRun(Initial(2), es') && Run(Initial(2), es') == Run(SparedLaunching(), es)
  {
    SparedDeals();
    SparedStart();
    RunCons(Initial(2), EvStartDbs(SparedBlocks()), es);
  }

  lemma SparedRun() returns (es: seq<Event>)
    ensures IsRun(SparedLaunching(), es) && Run(SparedLaunching(), es) == SparedClosing()
  {
    es := SparedMiddle();
    SparedLaunch();
    RunCons(SparedLaunching(), EvLaunchOk(0, [0]), es);
    es := [EvLaunchOk(0, [0])] + es;
  }

  ghost predicate ClosedWithoutKill(j: Job) {
    j.closing && |j.groups| == 1 && AnyRunning(j, 0) && !KillsPosted(j, 0)
  }

  lemma SparedIsClosed()
    ensures ClosedWithoutKill(SparedClosing())
  {
    assert Running(SparedClosing().groups[0].procs[0]);
  }

  /**
   Two ranks in two blocks: rank 0 is up when the job is aborted, rank 1 is still being
   launched. Once rank 0 is suspended and the launch of rank 1 fails, the tree is closing and
   no kill has ever been sent, although rank 0 is still there.
   */
  lemma ARankCanBeSpared()
    ensures exists es :: IsRun(Initial(2), es) && ClosedWithoutKill(Run(Initial(2), es))
  {
    var es := SparedRun();
    SparedBegins(es);
    SparedIsClosed();
    assert ClosedWithoutKill(Run(Initial(2), [EvStartDbs(SparedBlocks())] + es));
  }
}
