/**
 Which ranks the suspends and the kills of an abort reach, and when the tree is closed: told from
 the ranks that run, not from the loops that post the commands.
 */
module JobRounds {
  import opened Sums
  import opened JobModel
  import opened JobInvariants
  import opened JobSafety
  import opened JobTheorems
  import opened JobHistory
  import opened JobVerdict

  // ---- suspends ----------------------------------------------------------------------

  /** In an aborted group a rank that is up has been sent a suspend, and one that may come up will be. */
  predicate RankReached(p: Proc, suspends: int) {
    && (p.launched && !p.exited ==> 1 <= suspends)
    && (!p.launched && !p.failedLaunch && !p.exited ==> p.suspendPending)
  }

  ghost predicate GroupReached(pg: Group, g: nat, posted: multiset<Command>) {
    forall r :: 0 <= r < |pg.procs| ==>
      && (pg.procs[r].launched ==> !pg.procs[r].failedLaunch)
      && (pg.aborted ==> RankReached(pg.procs[r], posted[Suspend(g, r)]))
  }

  ghost predicate Reached(j: Job) {
    forall g :: 0 <= g < |j.groups| ==> GroupReached(j.groups[g], g, j.posted)
  }

  ghost predicate MorePosted(j: Job, j': Job) {
    forall c :: j.posted[c] <= j'.posted[c]
  }

  /** The step is fine for group g, and leaves the others alone. */
  lemma ReachedOn(j: Job, j': Job, g: nat)
    requires Reached(j) && OthersSame(j, j', g) && MorePosted(j, j') && g < |j.groups|
    requires GroupReached(j'.groups[g], g, j'.posted) == true
    ensures Reached(j') == true
  {
    forall h | 0 <= h < |j'.groups| ensures GroupReached(j'.groups[h], h, j'.posted) {
      if h != g {
        assert GroupReached(j.groups[h], h, j.posted);
      }
    }
  }

  predicate SameRuns(p: Proc, p': Proc) {
    p'.launched == p.launched && p'.failedLaunch == p.failedLaunch && (p.exited ==> p'.exited)
    && p'.suspendPending == p.suspendPending
  }

  ghost predicate SameRanks(pg: Group, pg': Group) {
    && |pg'.procs| == |pg.procs| && (pg'.aborted <==> pg.aborted)
    && forall r :: 0 <= r < |pg.procs| ==> SameRuns(pg.procs[r], pg'.procs[r])
  }

  lemma SameReached(j: Job, j': Job, g: nat)
    requires Reached(j) && OthersSame(j, j', g) && MorePosted(j, j') && g < |j.groups|
    requires SameRanks(j.groups[g], j'.groups[g]) == true
    ensures Reached(j') == true
  {
    assert GroupReached(j.groups[g], g, j.posted);
    forall r | 0 <= r < |j.groups[g].procs| { SameRankReached(j, j', g, r); }
    ReachedOn(j, j', g);
  }

  lemma SameRankReached(j: Job, j': Job, g: nat, r: nat)
    requires HasRank(j, g, r) && g < |j'.groups| && MorePosted(j, j')
    requires GroupReached(j.groups[g], g, j.posted) && SameRanks(j.groups[g], j'.groups[g])
    ensures var pg := j'.groups[g];
            && (pg.procs[r].launched ==> !pg.procs[r].failedLaunch)
            && (pg.aborted ==> RankReached(pg.procs[r], j'.posted[Suspend(g, r)]))
  {
    assert SameRuns(j.groups[g].procs[r], j'.groups[g].procs[r]);
  }

  lemma BlameReached(j: Job, g: nat, q: nat, why: AbortReason, code: int)
    requires Reached(j) && HasRank(j, g, q)
    ensures Reached(BlameRank(j, g, q, why, code)) == true
  {
    SameReached(j, BlameRank(j, g, q, why, code), g);
  }

  lemma RoundReaches(pg: Group, g: nat, posted: multiset<Command>, n: int)
    requires forall r :: 0 <= r < |pg.procs| ==> pg.procs[r].launched ==> !pg.procs[r].failedLaunch
    ensures GroupReached(pg.(aborted := true, procs := AbortProcs(pg.procs), numPendingSuspends := n), g,
                         posted + SuspendCmds(g, pg.procs, |pg.procs|)) == true
  {
    SuspendCmdsAre(g, pg.procs, |pg.procs|);
  }

  lemma FirstAbortReached(j: Job, g: nat, code: int)
    requires Reached(j) && g < |j.groups|
    ensures Reached(FirstAbort(j, g, code)) == true
  {
    var j1, pg := SuspendRound(j, g), j.groups[g];
    assert GroupReached(pg, g, j.posted);
    RoundReaches(pg, g, j.posted, j1.groups[g].numPendingSuspends);
    ReachedOn(j, j1, g);
    TearDownReached(j1.(exitCode := code));
  }

  lemma TearDownReached(j: Job)
    requires Reached(j)
    ensures Reached(TearDown(j)) == true
  {
    forall g | 0 <= g < |j.groups| ensures GroupReached(j.groups[g], g, TearDown(j).posted) {
      assert GroupReached(j.groups[g], g, j.posted);
    }
  }

  lemma AbortReached(j: Job, g: nat, q: nat, why: AbortReason, code: int)
    requires Reached(j) == true && HasRank(j, g, q)
    ensures Reached(AbortJob(j, g, q, why, code)) == true
  {
    var j1 := BlameRank(j, g, q, why, code);
    BlameReached(j, g, q, why, code);
    if !j1.groups[g].aborted {
      FirstAbortReached(j1, g, if why.AppAbort? then code else -ReasonCode(why));
    }
  }

  lemma {:induction false} AbortAllReached(j: Job, j': Job, k: nat)
    requires Reached(j) == true && k <= |j.groups| && Walks(j, j', k) == true
    ensures Reached(j') == true
    decreases k
  {
    if k == 0 {
      WalksNone(j, j');
      assert j' == AbortAll(j, 0) == j;
    } else {
      var j1 := ReachesLast(j, j', k);
      AbortAllReached(j1, j', k - 1);
    }
  }

  lemma ReachesLast(j: Job, j': Job, k: nat) returns (j1: Job)
    requires Reached(j) == true && 0 < k <= |j.groups| && Walks(j, j', k) == true
    ensures Walks(j1, j', k - 1) == true && |j1.groups| == |j.groups| && Reached(j1) == true
  {
    j1 := AbortsLast(j, j', k);
    AbortReached(j, k - 1, 0, FatalError, -1);
  }

  /** The ranks of a block that comes up are sent the suspends that were delayed for them. */
  lemma LaunchReaches(pg: Group, g: nat, ranks: seq<nat>, out: multiset<Command>, posted: multiset<Command>, n: int)
    requires forall i :: 0 <= i < |ranks| ==> ranks[i] < |pg.procs|
    requires GroupReached(pg, g, posted) && LaunchInv(pg.procs, g, out) && Launch(g, ranks) in out
    ensures GroupReached(pg.(procs := LaunchProcs(pg.procs, ranks), numResults := n), g,
                         posted + DelayedSuspends(g, pg.procs, ranks, |ranks|)) == true
  {
    LaunchRanksFresh(pg.procs, g, ranks, out);
    DelayedSuspendsAre(g, pg.procs, ranks, |ranks|);
    assert ranks[..|ranks|] == ranks;
    forall r | r in ranks ensures Unresolved(pg.procs, r) {
      assert LaunchOf(Launch(g, ranks), g) && r in Launch(g, ranks).ranks;
    }
  }

  lemma LaunchReached(j: Job, g: nat, ranks: seq<nat>)
    requires Reached(j) && GroupsInv(j) && HasRanks(j, g, ranks) && Launch(g, ranks) in j.outstanding
    ensures Reached(LaunchOk(j, g, ranks)) == true
  {
    assert InvOf(j, g) && GroupReached(j.groups[g], g, j.posted);
    LaunchReaches(j.groups[g], g, ranks, j.outstanding, j.posted, j.groups[g].numResults + |ranks|);
    ReachedOn(j, LaunchOk(j, g, ranks), g);
  }

  lemma DropReaches(pg: Group, g: nat, ranks: seq<nat>, out: multiset<Command>, posted: multiset<Command>, n: int)
    requires GroupReached(pg, g, posted) && LaunchInv(pg.procs, g, out) && Launch(g, ranks) in out
    ensures GroupReached(pg.(procs := FailProcs(pg.procs, ranks), numPendingSuspends := n), g, posted) == true
  {
    forall r | r in ranks ensures Unresolved(pg.procs, r) {
      assert LaunchOf(Launch(g, ranks), g) && r in Launch(g, ranks).ranks;
    }
  }

  lemma DropReached(j: Job, g: nat, ranks: seq<nat>)
    requires Reached(j) && GroupsInv(j) && HasRanks(j, g, ranks) && Launch(g, ranks) in j.outstanding
    ensures Reached(DropBlock(j, g, ranks)) == true
  {
    assert InvOf(j, g) && GroupReached(j.groups[g], g, j.posted);
    DropReaches(j.groups[g], g, ranks, j.outstanding, j.posted, DropBlock(j, g, ranks).groups[g].numPendingSuspends);
    ReachedOn(j, DropBlock(j, g, ranks), g);
  }

  lemma FailureReached(j: Job, g: nat, ranks: seq<nat>)
    requires Reached(j) == true && GroupsInv(j) && Enabled(j, EvLaunchFailed(g, ranks))
    ensures Reached(LaunchFailed(j, g, ranks)) == true
  {
    var j1, j' := DropBlock(j, g, ranks), LaunchFailed(j, g, ranks);
    DropReached(j, g, ranks);
    if j1.groups[g].aborted && j1.groups[g].numPendingSuspends == 0 {
      TearDownReached(j1);
    } else {
      AbortAllReached(j1, j', |j1.groups|);
    }
  }

  lemma SuspendReached(j: Job, g: nat, r: nat)
    requires Reached(j) && HasRank(j, g, r)
    ensures Reached(SuspendResult(j, g, r)) == true
  {
    SuspendRanks(j, g, r);
    SameReached(j, SuspendResult(j, g, r), g);
  }

  lemma SuspendRanks(j: Job, g: nat, r: nat)
    requires HasRank(j, g, r)
    ensures var j' := SuspendResult(j, g, r);
            OthersSame(j, j', g) == true && MorePosted(j, j') == true && SameRanks(j.groups[g], j'.groups[g]) == true
  {
    var j' := SuspendResult(j, g, r);
    assert j'.groups[g].procs == Suspended(j.groups[g], r).procs;
  }

  lemma KillReached(j: Job, g: nat, r: nat)
    requires Reached(j) && HasRank(j, g, r)
    ensures Reached(KillResult(j, g, r)) == true
  {
    SameReached(j, KillResult(j, g, r), g);
  }

  lemma FlagReached(j: Job, g: nat, r: nat)
    requires Reached(j) && HasRank(j, g, r)
    ensures Reached(Init(j, g, r)) == true && Reached(Finalize(j, g, r)) == true
  {
    SameReached(j, Init(j, g, r), g);
    SameReached(j, Finalize(j, g, r), g);
  }

  lemma ExitReached(j: Job, g: nat, r: nat, code: int)
    requires Reached(j) == true && HasRank(j, g, r)
    ensures Reached(Exit(j, g, r, code)) == true
  {
    var j0 := MarkExited(j, g, r);
    var j1, j' := NoteExitCode(j0, g, r, code), ExitOfRank(j, g, r, code);
    ExitPaths(j, g, r, code);
    ExitNoteReached(j, g, r, code);
    AbortReached(j1, g, r, ExitNoFinalize, code);
    AbortReached(j1, g, r, ExitNoInit, code);
    CountReached(j');
  }

  lemma ExitNoteReached(j: Job, g: nat, r: nat, code: int)
    requires Reached(j) && HasRank(j, g, r)
    ensures var j0 := MarkExited(j, g, r);
            var j1 := NoteExitCode(j0, g, r, code);
            Reached(j0) == true && Reached(j1) == true && Reached(NoteNoInit(j1, g)) == true
  {
    var j0 := MarkExited(j, g, r);
    var j1 := NoteExitCode(j0, g, r, code);
    SameReached(j, j0, g);
    SameReached(j0, j1, g);
    SameReached(j1, NoteNoInit(j1, g), g);
  }

  lemma CountReached(j: Job)
    requires Reached(j)
    ensures Reached(CountExit(j)) == true
  {
    var j' := j.(nprocExited := j.nprocExited + 1);
    assert Reached(j');
    TearDownReached(j');
  }

  lemma NewReached(j: Job, n: nat, blocks: seq<seq<nat>>)
    requires Reached(j)
    ensures Reached(AddGroup(j, n, blocks)) == true
  {
    var j' := AddGroup(j, n, blocks);
    forall g | 0 <= g < |j'.groups| ensures GroupReached(j'.groups[g], g, j'.posted) {
      if g < |j.groups| {
        assert GroupReached(j.groups[g], g, j.posted);
      }
    }
  }

  lemma EventReached(j: Job, e: Event)
    requires Reached(j) == true && Inv(j) && Enabled(j, e)
    ensures Reached(Apply(j, e)) == true
  {
    match e {
      case EvStartDbs(blocks) => NewReached(j, j.nproc, blocks);
      case EvAddDbs(n, blocks) => NewReached(j, n, blocks);
      case EvLaunchOk(g, ranks) => LaunchReached(j, g, ranks);
      case EvLaunchFailed(g, ranks) => FailureReached(j, g, ranks);
      case EvSuspendResult(g, r) => SuspendReached(j, g, r);
      case EvKillResult(g, r) => KillReached(j, g, r);
      case EvExit(g, r, code) => ExitReached(j, g, r, code);
      case EvInit(g, r) => FlagReached(j, g, r);
      case EvFinalize(g, r) => FlagReached(j, g, r);
      case EvAbortJob(g, r, intern, code) => AbortReached(j, g, r, if intern then FatalError else AppAbort, code);
      case EvCtrlC => AbortReached(j, |j.groups| - 1, 0, CtrlC, 0);
      case EvCmdError => AbortAllReached(j, Apply(j, e), |j.groups|);
    }
  }

  lemma {:induction false} RunReached(j: Job, es: seq<Event>)
    requires Reached(j) == true && Inv(j) == true && IsRun(j, es)
    ensures Reached(Run(j, es)) == true
    decreases |es|
  {
    if es != [] {
      EventReached(j, es[0]);
      StepKeepsInv(j, es[0]);
      RunReached(Apply(j, es[0]), es[1..]);
    }
  }

  /**
   In every reachable state, in a group that is aborted: a rank that has come up and not left has
   been sent its suspend, and one that has neither come up nor failed nor left is marked for one.
   */
  lemma SuspendsReachAll(nproc: int, es: seq<Event>, g: nat, r: nat)
    requires IsRun(Initial(nproc), es) && HasRank(Run(Initial(nproc), es), g, r)
    requires IsAborted(Run(Initial(nproc), es), g)
    ensures var j := Run(Initial(nproc), es);
            && (HasLaunched(es, g, r) && !HasExited(es, g, r) ==> j.posted[Suspend(g, r)] == 1)
            && (!HasLaunched(es, g, r) && !HasFailed(es, g, r) && !HasExited(es, g, r) ==> j.groups[g].procs[r].suspendPending)
            && (Suspend(g, r) in j.posted ==> HasLaunched(es, g, r))
  {
    var j := Run(Initial(nproc), es);
    InitialInv(nproc);
    RunKeepsInv(Initial(nproc), es);
    RunReached(Initial(nproc), es);
    FlagsAreHistory(nproc, es, g);
    SentOnce(j, g, r);
    assert GroupReached(j.groups[g], g, j.posted) && RankRecord(j.groups[g].procs[r], es, g, r);
    assert InvOf(j, g);
    var pg := j.groups[g];
    assert RankInv(pg.procs[r], g, r, pg.aborted, pg.numPendingSuspends, j.outstanding, j.posted);
  }

  // ---- kills -------------------------------------------------------------------------

  /** The answer to the last suspend that is awaited, and no other, sends a kill to every rank that has not left. */
  lemma KillsReachAll(nproc: int, es: seq<Event>, g: nat, r: nat, q: nat)
    requires IsRun(Initial(nproc), es) && Enabled(Run(Initial(nproc), es), EvSuspendResult(g, r))
    requires HasRank(Run(Initial(nproc), es), g, q)
    ensures var j := Run(Initial(nproc), es);
            Apply(j, EvSuspendResult(g, r)).posted[Kill(g, q)]
            == if AwaitedRanks(j, g) == {r} && !HasExited(es, g, q) then 1 else 0
  {
    var j := Run(Initial(nproc), es);
    InitialInv(nproc);
    RunKeepsInv(Initial(nproc), es);
    FlagsAreHistory(nproc, es, g);
    assert RankRecord(j.groups[g].procs[q], es, g, q);
    KillRoundPosts(j, g, r, q);
  }

  lemma KillRoundPosts(j: Job, g: nat, r: nat, q: nat)
    requires GroupsInv(j) && HasRank(j, g, r) && HasRank(j, g, q) && Suspend(g, r) in j.outstanding
    ensures SuspendResult(j, g, r).posted[Kill(g, q)]
            == if AwaitedRanks(j, g) == {r} && !j.groups[g].procs[q].exited then 1 else 0
  {
    NoKillBeforeSuspends(j, g, r);
    assert Kill(g, q) !in j.posted;
    CountsMatch(j, g);
    OnlyOne(AwaitedRanks(j, g), r);
    KillCmdsAre(g, Suspended(j.groups[g], r).procs, |j.groups[g].procs|);
  }

  lemma OnlyOne(s: set<nat>, r: nat)
    requires r in s
    ensures |s| == 1 <==> s == {r}
  {
    if |s| == 1 {
      assert |s - {r}| == 0;
    }
  }

  // ---- the close ---------------------------------------------------------------------

  /** Nobody of the group is running or may still come up. */
  ghost predicate NobodyLeft(pg: Group) {
    forall r :: 0 <= r < |pg.procs| ==> pg.procs[r].exited || pg.procs[r].failedLaunch
  }

  /** A group is aborted for the first time, and there is nobody to suspend. */
  ghost predicate NobodyToSuspend(j: Job, j': Job, g: nat)
    requires |j.groups| <= |j'.groups|
  {
    g < |j.groups| && !j.groups[g].aborted && j'.groups[g].aborted && NobodyLeft(j'.groups[g])
  }

  lemma {:induction false} LiveCountZero(ps: seq<Proc>, k: nat)
    requires k <= |ps|
    ensures LiveCount(ps, k) == 0 <==> forall r :: 0 <= r < k ==> !Live(ps[r])
  {
    if k > 0 {
      LiveCountZero(ps, k - 1);
    }
  }

  lemma NothingPending(j: Job, g: nat)
    requires GroupsInv(j) && g < |j.groups| && !j.groups[g].aborted
    ensures j.groups[g].numPendingSuspends == 0
  {
    var pg := j.groups[g];
    assert InvOf(j, g);
    WeightsNonNegative(pg.procs, g, j.outstanding);
    forall r | 0 <= r < |pg.procs| ensures AwaitedSuspend(pg.procs[r], j.outstanding[Suspend(g, r)]) == 0 {
      assert RankInv(pg.procs[r], g, r, pg.aborted, pg.numPendingSuspends, j.outstanding, j.posted);
    }
  }

  lemma FirstAbortCloses(j: Job, g: nat, code: int)
    requires g < |j.groups| && j.groups[g].numPendingSuspends == 0
    ensures FirstAbort(j, g, code).closing <==> j.closing || NobodyLeft(j.groups[g])
  {
    LiveCountZero(j.groups[g].procs, |j.groups[g].procs|);
  }

  /** The blame leaves who is up as it was. */
  lemma BlameLeaves(j: Job, g: nat, q: nat, why: AbortReason, code: int)
    requires HasRank(j, g, q)
    ensures var j' := BlameRank(j, g, q, why, code);
            && j'.closing == j.closing && j'.groups[g].aborted == j.groups[g].aborted
            && j'.groups[g].numPendingSuspends == j.groups[g].numPendingSuspends
            && (NobodyLeft(j'.groups[g]) <==> NobodyLeft(j.groups[g]))
  {
    var ps, ps' := j.groups[g].procs, BlameRank(j, g, q, why, code).groups[g].procs;
    assert forall r :: 0 <= r < |ps| ==> ps'[r].exited == ps[r].exited && ps'[r].failedLaunch == ps[r].failedLaunch;
  }

  lemma AbortCloses(j: Job, g: nat, q: nat, why: AbortReason, code: int)
    requires GroupsInv(j) && HasRank(j, g, q)
    ensures AbortJob(j, g, q, why, code).closing <==> j.closing || (!j.groups[g].aborted && NobodyLeft(j.groups[g]))
  {
    var j1 := BlameRank(j, g, q, why, code);
    BlameLeaves(j, g, q, why, code);
    if !j.groups[g].aborted {
      NothingPending(j, g);
      FirstAbortCloses(j1, g, if why.AppAbort? then code else -ReasonCode(why));
    }
  }

  ghost predicate SomeGone(j: Job, k: nat)
    requires k <= |j.groups|
  {
    exists g :: 0 <= g < k && !j.groups[g].aborted && NobodyLeft(j.groups[g])
  }

  lemma SomeGoneOn(j: Job, j1: Job, k: nat)
    requires k < |j.groups| && OthersSame(j, j1, k)
    ensures SomeGone(j, k + 1) <==> SomeGone(j1, k) || (!j.groups[k].aborted && NobodyLeft(j.groups[k]))
  {
    if SomeGone(j1, k) {
      var g :| 0 <= g < k && !j1.groups[g].aborted && NobodyLeft(j1.groups[g]);
      assert j.groups[g] == j1.groups[g];
    }
    if SomeGone(j, k + 1) {
      var g :| 0 <= g < k + 1 && !j.groups[g].aborted && NobodyLeft(j.groups[g]);
      assert g < k ==> j1.groups[g] == j.groups[g];
    }
  }

  lemma {:induction false} AbortAllCloses(j: Job, j': Job, k: nat)
    requires GroupsInv(j) == true && k <= |j.groups| && Walks(j, j', k) == true
    ensures j'.closing <==> j.closing || SomeGone(j, k)
    decreases k
  {
    if k == 0 {
      assert j' == AbortAll(j, 0) == j;
    } else {
      var j1 := ClosesLast(j, j', k);
      AbortAllCloses(j1, j', k - 1);
      SomeGoneOn(j, j1, k - 1);
    }
  }

  lemma ClosesLast(j: Job, j': Job, k: nat) returns (j1: Job)
    requires GroupsInv(j) == true && 0 < k <= |j.groups| && Walks(j, j', k) == true
    ensures Walks(j1, j', k - 1) == true && OthersSame(j, j1, k - 1) == true && |j1.groups| == |j.groups| && GroupsInv(j1) == true
    ensures j1.closing <==> j.closing || (!j.groups[k - 1].aborted && NobodyLeft(j.groups[k - 1]))
  {
    j1 := AbortsLast(j, j', k);
    AbortJobKeeps(j, k - 1, 0, FatalError, -1);
    AbortCloses(j, k - 1, 0, FatalError, -1);
  }

  /** The kill, the launch or the exit that was the last thing to wait for, or an abort with nobody to wait for. */
  ghost predicate Closes(j: Job, e: Event, j': Job)
    requires Enabled(j, e) && |j.groups| <= |j'.groups|
  {
    || (e.EvKillResult? && AwaitedRanks(j, e.g) == {} && KillsOnWire(j, e.g) == {e.r})
    || (e.EvLaunchFailed? && Settles(j, e.g, e.ranks))
    || (e.EvExit? && EveryoneExited(j'))
    || (exists g :: NobodyToSuspend(j, j', g))
  }

  ghost predicate ClosesRight(j: Job, e: Event, j': Job)
    requires Enabled(j, e)
  {
    |j.groups| <= |j'.groups| && (j'.closing <==> j.closing || Closes(j, e, j'))
  }

  lemma QuietRight(j: Job, e: Event, j': Job)
    requires Enabled(j, e) && !e.EvKillResult? && !e.EvLaunchFailed? && !e.EvExit?
    requires |j.groups| <= |j'.groups| && j'.closing == j.closing
    requires forall g :: 0 <= g < |j.groups| ==> j'.groups[g].aborted == j.groups[g].aborted
    ensures ClosesRight(j, e, j') == true
  {
  }

  lemma QuietEvents(j: Job, e: Event)
    requires Enabled(j, e)
    requires e.EvLaunchOk? || e.EvSuspendResult? || e.EvInit? || e.EvFinalize? || e.EvStartDbs? || e.EvAddDbs?
    ensures ClosesRight(j, e, Apply(j, e)) == true
  {
    QuietKeeps(j, e);
    QuietRight(j, e, Apply(j, e));
  }

  lemma QuietKeeps(j: Job, e: Event)
    requires Enabled(j, e)
    requires e.EvLaunchOk? || e.EvSuspendResult? || e.EvInit? || e.EvFinalize? || e.EvStartDbs? || e.EvAddDbs?
    ensures var j' := Apply(j, e);
            && |j.groups| <= |j'.groups| && j'.closing == j.closing
            && forall g :: 0 <= g < |j.groups| ==> j'.groups[g].aborted == j.groups[g].aborted
  {
    match e {
      case EvLaunchOk(g, ranks) => LaunchSame(j, g, ranks);
      case EvSuspendResult(g, r) => SuspendSame(j, g, r);
      case EvInit(g, r) => FlagSame(j, g, r);
      case EvFinalize(g, r) => FlagSame(j, g, r);
      case _ => NewKeeps(j, e);
    }
  }

  lemma NewKeeps(j: Job, e: Event)
    requires Enabled(j, e) && (e.EvStartDbs? || e.EvAddDbs?)
    ensures var j' := Apply(j, e);
            && |j.groups| <= |j'.groups| && j'.closing == j.closing
            && forall g :: 0 <= g < |j.groups| ==> j'.groups[g].aborted == j.groups[g].aborted
  {
  }

  lemma KillRight(j: Job, g: nat, r: nat)
    requires GroupsInv(j) && HasRank(j, g, r) && Kill(g, r) in j.outstanding
    ensures ClosesRight(j, EvKillResult(g, r), KillResult(j, g, r)) == true
  {
    CountsMatch(j, g);
    OnlyOne(KillsOnWire(j, g), r);
    KillCloses(j, g, r);
  }

  lemma KillCloses(j: Job, g: nat, r: nat)
    requires HasRank(j, g, r)
    ensures var j' := KillResult(j, g, r);
            && (j'.closing <==> j.closing || (j.groups[g].numPendingKills == 1 && j.groups[g].numPendingSuspends == 0))
            && |j'.groups| == |j.groups| && forall h :: 0 <= h < |j.groups| ==> j'.groups[h].aborted == j.groups[h].aborted
  {
  }

  /** Who is gone is gone, aborted or not. */
  lemma GoneKept(pg: Group, pg': Group)
    requires SameRecord(pg, pg')
    ensures NobodyLeft(pg') <==> NobodyLeft(pg)
  {
    assert forall r :: 0 <= r < |pg.procs| ==> SameFlags(pg.procs[r], pg'.procs[r]);
  }

  lemma RequestRight(j: Job, e: Event, g: nat, q: nat, why: AbortReason, code: int, j': Job)
    requires GroupsInv(j) && Enabled(j, e) && (e.EvAbortJob? || e.EvCtrlC?)
    requires HasRank(j, g, q) && j' == AbortJob(j, g, q, why, code)
    ensures ClosesRight(j, e, j') == true
  {
    AbortCloses(j, g, q, why, code);
    AbortVerdict(j, g, q, why, code);
    AbortSame(j, g, q, why, code);
    GoneKept(j.groups[g], j'.groups[g]);
    OneNobody(j, j', g);
  }

  lemma OneNobody(j: Job, j': Job, g: nat)
    requires g < |j.groups| && OthersSame(j, j', g) && j'.groups[g].aborted
    ensures (exists h :: NobodyToSuspend(j, j', h)) <==> !j.groups[g].aborted && NobodyLeft(j'.groups[g])
  {
    if !j.groups[g].aborted && NobodyLeft(j'.groups[g]) {
      assert NobodyToSuspend(j, j', g);
    }
  }

  /** A walk over all groups aborts all, and those with nobody left close the tree. */
  lemma WalkNobody(j: Job, j1: Job, j': Job)
    requires |j1.groups| == |j.groups| && (forall g :: 0 <= g < |j.groups| ==> j1.groups[g].aborted == j.groups[g].aborted)
    requires Walked(j1, j', |j1.groups|) && SameRecords(j1, j')
    ensures (exists h :: NobodyToSuspend(j, j', h)) <==> SomeGone(j1, |j1.groups|)
  {
    forall h: nat | h < |j.groups|
      ensures NobodyToSuspend(j, j', h) <==> !j1.groups[h].aborted && NobodyLeft(j1.groups[h])
    {
      assert SameRecord(j1.groups[h], j'.groups[h]);
      GoneKept(j1.groups[h], j'.groups[h]);
    }
    if SomeGone(j1, |j1.groups|) {
      var h :| 0 <= h < |j1.groups| && !j1.groups[h].aborted && NobodyLeft(j1.groups[h]);
      assert NobodyToSuspend(j, j', h);
    }
  }

  lemma CmdErrorRight(j: Job)
    requires GroupsInv(j) == true && Populated(j)
    ensures ClosesRight(j, EvCmdError, AbortAll(j, |j.groups|)) == true
  {
    var j' := AbortAll(j, |j.groups|);
    AbortAllVerdict(j, j', |j.groups|);
    AbortAllSame(j, |j.groups|);
    AbortAllCloses(j, j', |j.groups|);
    WalkNobody(j, j, j');
  }

  lemma FailureRight(j: Job, g: nat, ranks: seq<nat>)
    requires GroupsInv(j) == true && Enabled(j, EvLaunchFailed(g, ranks))
    ensures ClosesRight(j, EvLaunchFailed(g, ranks), LaunchFailed(j, g, ranks)) == true
  {
    SettledCounts(j, g, ranks);
    LaunchSame(j, g, ranks);
    if !Settles(j, g, ranks) {
      var j1 := DropWalks(j, g, ranks);
      WalkRight(j, g, ranks, j1);
    }
  }

  lemma DropWalks(j: Job, g: nat, ranks: seq<nat>) returns (j1: Job)
    requires GroupsInv(j) == true && Enabled(j, EvLaunchFailed(g, ranks)) && !Settles(j, g, ranks)
    ensures j1 == DropBlock(j, g, ranks) && GroupsInv(j1) == true && Walks(j1, LaunchFailed(j, g, ranks), |j1.groups|) == true
  {
    j1 := DropBlock(j, g, ranks);
    SettledCounts(j, g, ranks);
    DropKeeps(j, g, ranks);
  }

  lemma WalkRight(j: Job, g: nat, ranks: seq<nat>, j1: Job)
    requires Enabled(j, EvLaunchFailed(g, ranks)) && !Settles(j, g, ranks)
    requires SameVerdicts(j, j1) && j1.closing == j.closing && GroupsInv(j1) == true
    requires Walks(j1, LaunchFailed(j, g, ranks), |j1.groups|) == true
    ensures ClosesRight(j, EvLaunchFailed(g, ranks), LaunchFailed(j, g, ranks)) == true
  {
    var j' := LaunchFailed(j, g, ranks);
    AbortAllVerdict(j1, j', |j1.groups|);
    AbortAllSame(j1, |j1.groups|);
    AbortAllCloses(j1, j', |j1.groups|);
    WalkNobody(j, j1, j');
  }

  // ---- the last exit -----------------------------------------------------------------

  lemma AllExitedCounts(j: Job)
    requires GroupsInv(j) && j.groups != []
    ensures Sum(Exits(j)) == Sum(Sizes(j)) <==> EveryoneExited(j)
  {
    forall g | 0 <= g < |j.groups| ensures Exits(j)[g] <= Sizes(j)[g] && (Exits(j)[g] == Sizes(j)[g] <==> AllExited(j.groups[g])) {
      assert InvOf(j, g);
      ExitsOfGroup(j.groups[g]);
    }
    if exists g :: 0 <= g < |j.groups| && Exits(j)[g] < Sizes(j)[g] {
      var g :| 0 <= g < |j.groups| && Exits(j)[g] < Sizes(j)[g];
      SumStrict(Exits(j), Sizes(j), g);
      assert !AllExited(j.groups[g]);
    } else {
      assert Exits(j) == Sizes(j);
    }
  }

  lemma ExitsOfGroup(pg: Group)
    requires pg.numExited == Sum(ExitWeights(pg.procs))
    ensures pg.numExited <= |pg.procs| && (pg.numExited == |pg.procs| <==> AllExited(pg))
  {
    var w, ones := ExitWeights(pg.procs), seq(|pg.procs|, i => 1);
    SumConst(ones, 1);
    SumMono(w, ones);
    if AllExited(pg) {
      assert w == ones;
    } else {
      var r :| 0 <= r < |pg.procs| && !pg.procs[r].exited;
      SumStrict(w, ones, r);
    }
  }

  lemma CountCloses(j: Job)
    requires GroupsInv(j) && j.groups != [] && j.nprocExited + 1 == Sum(Exits(j)) && j.nproc == Sum(Sizes(j))
    ensures CountExit(j).closing <==> j.closing || EveryoneExited(CountExit(j))
  {
    AllExitedCounts(j);
    assert CountExit(j).groups == j.groups;
    assert EveryoneExited(CountExit(j)) <==> EveryoneExited(j);
  }

  lemma ExitRight(j: Job, es: seq<Event>, g: nat, r: nat, code: int)
    requires Inv(j) && Recorded(j, es) == true && Enabled(j, EvExit(g, r, code))
    ensures ClosesRight(j, EvExit(g, r, code), Exit(j, g, r, code)) == true
  {
    var j', e := ExitOfRank(j, g, r, code), EvExit(g, r, code);
    ExitOfRankCounts(j, g, r, code);
    CountCloses(j');
    ExitOfRankCloses(j, g, r, code);
    CountedExit(j');
    assert forall h: nat :: h < |j.groups| ==> (NobodyToSuspend(j, j', h) <==> NobodyToSuspend(j, CountExit(j'), h));
  }

  /** Before the count of exits, only an abort with nobody left closes the tree. */
  lemma ExitOfRankCloses(j: Job, g: nat, r: nat, code: int)
    requires GroupsInv(j) && HasRank(j, g, r) && !j.groups[g].procs[r].exited
    ensures var j' := ExitOfRank(j, g, r, code);
            && |j'.groups| == |j.groups|
            && (j'.closing <==> j.closing || exists h :: NobodyToSuspend(j, j', h))
  {
    var j1, j' := NoteExitCode(MarkExited(j, g, r), g, r, code), ExitOfRank(j, g, r, code);
    NotedInv(j, g, r, code);
    ExitPaths(j, g, r, code);
    NoteNoted(j, g, r, code);
    if j' == AbortJob(j1, g, r, ExitNoFinalize, code) {
      ExitAbortCloses(j, j1, g, r, ExitNoFinalize, code);
    } else if j' == AbortJob(j1, g, r, ExitNoInit, code) {
      ExitAbortCloses(j, j1, g, r, ExitNoInit, code);
    } else {
      NotedCloses(j, j1, g, r, code);
    }
  }

  lemma NotedCloses(j: Job, j1: Job, g: nat, r: nat, code: int)
    requires HasRank(j, g, r) && j1 == NoteExitCode(MarkExited(j, g, r), g, r, code)
    ensures forall j' :: j' == MarkExited(j, g, r) || j' == j1 || j' == NoteNoInit(j1, g) ==>
              && |j'.groups| == |j.groups| && j'.closing == j.closing
              && forall h :: 0 <= h < |j.groups| ==> j'.groups[h].aborted == j.groups[h].aborted
  {
  }

  lemma NotedInv(j: Job, g: nat, r: nat, code: int)
    requires GroupsInv(j) && HasRank(j, g, r) && !j.groups[g].procs[r].exited
    ensures GroupsInv(NoteExitCode(MarkExited(j, g, r), g, r, code)) == true
  {
    MarkExitedKeeps(j, g, r);
    NoteExitCodeKeeps(MarkExited(j, g, r), g, r, code);
  }

  lemma ExitAbortCloses(j: Job, j1: Job, g: nat, r: nat, why: AbortReason, code: int)
    requires GroupsInv(j1) == true && HasRank(j1, g, r) && OthersSame(j, j1, g) == true && g < |j.groups|
    requires j1.closing == j.closing && j1.groups[g].aborted == j.groups[g].aborted
    ensures var j' := AbortJob(j1, g, r, why, code);
            && |j'.groups| == |j.groups|
            && (j'.closing <==> j.closing || exists h :: NobodyToSuspend(j, j', h))
  {
    var j' := AbortJob(j1, g, r, why, code);
    AbortCloses(j1, g, r, why, code);
    AbortVerdict(j1, g, r, why, code);
    AbortSame(j1, g, r, why, code);
    GoneKept(j1.groups[g], j'.groups[g]);
    OthersSameThen(j, j1, j', g);
    OneNobody(j, j', g);
  }

  lemma EventRight(j: Job, es: seq<Event>, e: Event)
    requires Inv(j) && Recorded(j, es) == true && Enabled(j, e)
    ensures ClosesRight(j, e, Apply(j, e)) == true
  {
    match e {
      case EvKillResult(g, r) => KillRight(j, g, r);
      case EvLaunchFailed(g, ranks) => FailureRight(j, g, ranks);
      case EvExit(g, r, code) => ExitRight(j, es, g, r, code);
      case EvAbortJob(g, r, intern, code) =>
        var why := if intern then FatalError else AppAbort;
        RequestRight(j, e, g, r, why, code, AbortJob(j, g, r, why, code));
      case EvCtrlC => RequestRight(j, e, |j.groups| - 1, 0, CtrlC, 0, Apply(j, e));
      case EvCmdError => CmdErrorRight(j);
      case _ => QuietEvents(j, e);
    }
  }

  /** After any run: an event closes the tree exactly when nothing is left to wait for. */
  lemma ClosedIff(nproc: int, es: seq<Event>, e: Event)
    requires IsRun(Initial(nproc), es) && Enabled(Run(Initial(nproc), es), e)
    ensures var j := Run(Initial(nproc), es);
            ClosesRight(j, e, Apply(j, e))
  {
    var j := Run(Initial(nproc), es);
    InitialInv(nproc);
    RunKeepsInv(Initial(nproc), es);
    RunRecords(Initial(nproc), [], es);
    assert [] + es == es;
    EventRight(j, es, e);
  }

  // ---- launch results ----------------------------------------------------------------

  ghost function Up(pg: Group): set<nat> {
    set r: nat | r < |pg.procs| && pg.procs[r].launched
  }

  ghost predicate ResultsCounted(j: Job) {
    forall g :: 0 <= g < |j.groups| ==> j.groups[g].numResults == |Up(j.groups[g])|
  }

  function RanksOf(ranks: seq<nat>): set<nat> { set r | r in ranks }

  lemma {:induction false} NoDupCard(ranks: seq<nat>)
    requires NoDup(ranks)
    ensures |RanksOf(ranks)| == |ranks|
  {
    if ranks != [] {
      var n := |ranks| - 1;
      NoDupCard(ranks[..n]);
      assert RanksOf(ranks) == RanksOf(ranks[..n]) + {ranks[n]};
    }
  }

  lemma ResultsOn(pg: Group, pg': Group, e: Event, g: nat)
    requires GroupStep(pg, pg', e, g) && pg.numResults == |Up(pg)|
    requires e.EvLaunchOk? && e.g == g ==> NoDup(e.ranks) && forall r :: r in e.ranks ==> r < |pg.procs| && !pg.procs[r].launched
    ensures pg'.numResults == |Up(pg')|
  {
    forall r: nat | r < |pg.procs| ensures pg'.procs[r].launched <==> pg.procs[r].launched || LaunchedBy(e, g, r) {
      assert RankStep(pg.procs[r], pg'.procs[r], e, g, r);
    }
    if e.EvLaunchOk? && e.g == g {
      NoDupCard(e.ranks);
      assert Up(pg') == Up(pg) + RanksOf(e.ranks);
    } else {
      assert Up(pg') == Up(pg);
    }
  }

  lemma EventResults(j: Job, es: seq<Event>, e: Event)
    requires Inv(j) && Recorded(j, es) == true && Enabled(j, e) && ResultsCounted(j)
    ensures ResultsCounted(Apply(j, e)) == true
  {
    if e.EvStartDbs? || e.EvAddDbs? {
      NewResults(j, if e.EvStartDbs? then j.nproc else e.n, e.blocks);
    } else {
      EventSteps(j, e, es);
      StepResults(j, Apply(j, e), e);
    }
  }

  lemma NewResults(j: Job, n: nat, blocks: seq<seq<nat>>)
    requires ResultsCounted(j)
    ensures ResultsCounted(AddGroup(j, n, blocks)) == true
  {
    assert Up(NewGroup(n)) == {};
  }

  lemma StepResults(j: Job, j': Job, e: Event)
    requires Inv(j) && Enabled(j, e) && ResultsCounted(j) && Steps(j, j', e) == true
    ensures ResultsCounted(j') == true
  {
    forall g | 0 <= g < |j.groups| ensures j'.groups[g].numResults == |Up(j'.groups[g])| {
      if e.EvLaunchOk? && e.g == g {
        FreshRanks(j, g, e.ranks);
      }
      ResultsOn(j.groups[g], j'.groups[g], e, g);
    }
  }

  lemma FreshRanks(j: Job, g: nat, ranks: seq<nat>)
    requires Inv(j) && g < |j.groups| && Launch(g, ranks) in j.outstanding
    ensures NoDup(ranks) && forall r :: r in ranks ==> r < |j.groups[g].procs| && !j.groups[g].procs[r].launched
  {
    assert InvOf(j, g);
    assert LaunchOf(Launch(g, ranks), g);
    forall r | r in ranks ensures Unresolved(j.groups[g].procs, r) {
      assert r in Launch(g, ranks).ranks;
    }
  }

  lemma {:induction false} RunResults(j: Job, past: seq<Event>, es: seq<Event>)
    requires Inv(j) == true && Recorded(j, past) == true && ResultsCounted(j) == true && IsRun(j, es)
    ensures ResultsCounted(Run(j, es)) == true
    decreases |es|
  {
    if es != [] {
      EventResults(j, past, es[0]);
      RecordOn(j, past, es[0]);
      StepKeepsInv(j, es[0]);
      RunResults(Apply(j, es[0]), past + [es[0]], es[1..]);
    }
  }

  /** In every reachable state num_results is the number of ranks that have come up. */
  lemma ResultsAreLaunches(nproc: int, es: seq<Event>, g: nat)
    requires IsRun(Initial(nproc), es) && g < |Run(Initial(nproc), es).groups|
    ensures var pg := Run(Initial(nproc), es).groups[g];
            pg.numResults == |Up(pg)| && forall r: nat :: r in Up(pg) <==> r < |pg.procs| && HasLaunched(es, g, r)
  {
    InitialInv(nproc);
    RunResults(Initial(nproc), [], es);
    FlagsAreHistory(nproc, es, g);
    var pg := Run(Initial(nproc), es).groups[g];
    forall r: nat | r < |pg.procs| ensures pg.procs[r].launched <==> HasLaunched(es, g, r) {
      assert RankRecord(pg.procs[r], es, g, r);
    }
  }
}
