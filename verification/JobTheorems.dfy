/**
 What the job protocol promises over whole runs: the counters are the wire, kills wait for
 suspends, the kill round and the close command happen once, and an aborted job with nothing
 outstanding is closing.
 */
module JobTheorems {
  import opened Sums
  import opened JobModel
  import opened JobInvariants
  import opened JobSafety

  // ---- counters ----------------------------------------------------------------------

  /** Ranks of g whose suspend is delayed until they come up, or is on the wire. */
  ghost function AwaitedRanks(j: Job, g: nat): set<nat>
    requires g < |j.groups|
  {
    set r: nat | r < |j.groups[g].procs|
                 && ((j.groups[g].procs[r].suspendPending && !j.groups[g].procs[r].launched)
                     || Suspend(g, r) in j.outstanding)
  }

  ghost function KillsOnWire(j: Job, g: nat): set<nat>
    requires g < |j.groups|
  {
    set r: nat | r < |j.groups[g].procs| && Kill(g, r) in j.outstanding
  }

  lemma {:induction false} SumIsCard(w: seq<int>, s: set<nat>)
    requires forall i :: 0 <= i < |w| ==> w[i] == 0 || w[i] == 1
    requires forall i: nat :: i in s <==> i < |w| && w[i] == 1
    ensures Sum(w) == |s|
  {
    if w == [] {
      assert s == {};
    } else {
      var n := |w| - 1;
      SumAppend(w[..n], w[n]);
      assert w == w[..n] + [w[n]];
      SumIsCard(w[..n], s - {n});
    }
  }

  lemma CountsMatch(j: Job, g: nat)
    requires GroupsInv(j) && g < |j.groups|
    ensures j.groups[g].numPendingSuspends == |AwaitedRanks(j, g)|
    ensures j.groups[g].numPendingKills == |KillsOnWire(j, g)|
  {
    var ps := j.groups[g].procs;
    assert InvOf(j, g);
    forall r | 0 <= r < |ps|
      ensures j.outstanding[Kill(g, r)] <= 1 && 0 <= AwaitedSuspend(ps[r], j.outstanding[Suspend(g, r)]) <= 1
    {
      assert RankInv(ps[r], g, r, j.groups[g].aborted, j.groups[g].numPendingSuspends, j.outstanding, j.posted);
    }
    SumIsCard(SuspendWeights(ps, g, j.outstanding), AwaitedRanks(j, g));
    SumIsCard(KillWeights(ps, g, j.outstanding), KillsOnWire(j, g));
  }

  /** No rank is ever sent a second suspend or a second kill. */
  lemma SentOnce(j: Job, g: nat, r: nat)
    requires GroupsInv(j)
    ensures j.outstanding[Suspend(g, r)] <= j.posted[Suspend(g, r)] <= 1
    ensures j.outstanding[Kill(g, r)] <= j.posted[Kill(g, r)] <= 1
  {
    var s, k := Suspend(g, r), Kill(g, r);
    if s in j.posted || s in j.outstanding || k in j.posted || k in j.outstanding {
      assert KnownCommand(j, s) || KnownCommand(j, k);
      assert InvOf(j, g);
      var pg := j.groups[g];
      assert RankInv(pg.procs[r], g, r, pg.aborted, pg.numPendingSuspends, j.outstanding, j.posted);
    }
  }

  /** In every reachable state the two counters of a group are what is on the wire for it. */
  lemma CountersAreTheWire(nproc: int, es: seq<Event>, g: nat)
    requires IsRun(Initial(nproc), es) && g < |Run(Initial(nproc), es).groups|
    ensures var j := Run(Initial(nproc), es);
            && j.groups[g].numPendingSuspends == |AwaitedRanks(j, g)|
            && j.groups[g].numPendingKills == |KillsOnWire(j, g)|
            && (forall r :: j.outstanding[Suspend(g, r)] <= j.posted[Suspend(g, r)] <= 1)
            && (forall r :: j.outstanding[Kill(g, r)] <= j.posted[Kill(g, r)] <= 1)
  {
    InitialInv(nproc);
    RunKeepsInv(Initial(nproc), es);
    var j := Run(Initial(nproc), es);
    CountsMatch(j, g);
    forall r: nat { SentOnce(j, g, r); }
  }

  /** Once any kill of a group has been posted, no suspend of that group is awaited. */
  lemma KillsWaitForSuspends(nproc: int, es: seq<Event>, g: nat, r: nat)
    requires IsRun(Initial(nproc), es)
    requires Kill(g, r) in Run(Initial(nproc), es).posted
    ensures var j := Run(Initial(nproc), es);
            HasRank(j, g, r) && j.groups[g].aborted && AwaitedRanks(j, g) == {}
  {
    InitialInv(nproc);
    RunKeepsInv(Initial(nproc), es);
    var j := Run(Initial(nproc), es);
    assert KnownCommand(j, Kill(g, r));
    var pg := j.groups[g];
    assert InvOf(j, g);
    assert RankInv(pg.procs[r], g, r, pg.aborted, pg.numPendingSuspends, j.outstanding, j.posted);
    CountersAreTheWire(nproc, es, g);
  }

  // ---- the kill round ----------------------------------------------------------------

  ghost predicate KillsPosted(j: Job, g: nat) {
    exists r :: Kill(g, r) in j.posted
  }

  ghost predicate SameKills(j: Job, j': Job, g: nat) {
    forall r :: j'.posted[Kill(g, r)] == j.posted[Kill(g, r)]
  }

  lemma AbortJobPostsNoKill(j: Job, g: nat, r: nat, reason: AbortReason, code: int, h: nat)
    requires HasRank(j, g, r)
    ensures SameKills(j, AbortJob(j, g, r, reason, code), h)
  {
    var ps := BlameRank(j, g, r, reason, code).groups[g].procs;
    SuspendCmdsAre(g, ps, |ps|);
  }

  lemma {:induction false} AbortAllPostsNoKill(j: Job, k: nat, h: nat)
    requires Populated(j) && k <= |j.groups|
    ensures SameKills(j, AbortAll(j, k), h)
    decreases k
  {
    if k > 0 {
      AbortJobKeepsShape(j, k - 1, 0, FatalError, -1);
      AbortJobPostsNoKill(j, k - 1, 0, FatalError, -1, h);
      AbortAllPostsNoKill(AbortJob(j, k - 1, 0, FatalError, -1), k - 1, h);
    }
  }

  lemma ExitPostsNoKill(j: Job, g: nat, r: nat, code: int, h: nat)
    requires HasRank(j, g, r)
    ensures SameKills(j, Exit(j, g, r, code), h) == true
  {
    ExitOfRankPostsNoKill(j, g, r, code, h);
    CloseIsNoKill(j, ExitOfRank(j, g, r, code), h);
  }

  lemma ExitOfRankPostsNoKill(j: Job, g: nat, r: nat, code: int, h: nat)
    requires HasRank(j, g, r)
    ensures SameKills(j, ExitOfRank(j, g, r, code), h) == true
  {
    var j1 := NoteExitCode(MarkExited(j, g, r), g, r, code);
    assert SameKills(j, j1, h);
    AbortJobPostsNoKill(j1, g, r, ExitNoFinalize, code, h);
    AbortJobPostsNoKill(j1, g, r, ExitNoInit, code, h);
  }

  lemma CloseIsNoKill(j: Job, j': Job, h: nat)
    requires SameKills(j, j', h) == true
    ensures SameKills(j, j'.(nprocExited := j'.nprocExited + 1), h)
    ensures SameKills(j, TearDown(j'.(nprocExited := j'.nprocExited + 1)), h)
  {
  }

  lemma LaunchPostsNoKill(j: Job, g: nat, ranks: seq<nat>, h: nat)
    requires HasRanks(j, g, ranks) && NoDup(ranks)
    ensures SameKills(j, LaunchOk(j, g, ranks), h)
  {
    DelayedSuspendsAre(g, j.groups[g].procs, ranks, |ranks|);
  }

  lemma AddGroupPostsNoKill(j: Job, n: nat, blocks: seq<seq<nat>>, h: nat)
    requires Deals(blocks, n)
    ensures SameKills(j, AddGroup(j, n, blocks), h)
  {
    BlocksDiffer(blocks, n);
    LaunchCmdsAre(|j.groups|, blocks, |blocks|);
  }

  lemma AnswersPostNoKill(j: Job, e: Event, h: nat)
    requires GroupsInv(j) && Enabled(j, e)
    requires e.EvLaunchOk? || e.EvLaunchFailed? || e.EvKillResult? || (e.EvSuspendResult? && e.g != h)
    ensures SameKills(j, Apply(j, e), h)
  {
    match e {
      case EvLaunchOk(g, ranks) =>
        assert InvOf(j, g);
        LaunchRanksFresh(j.groups[g].procs, g, ranks, j.outstanding);
        LaunchPostsNoKill(j, g, ranks, h);
      case EvLaunchFailed(g, ranks) => FailurePostsNoKill(j, g, ranks, h);
      case EvSuspendResult(g, r) => OtherKillRound(j, g, r, h);
      case EvKillResult(_, _) =>
    }
  }

  lemma FailurePostsNoKill(j: Job, g: nat, ranks: seq<nat>, h: nat)
    requires HasRanks(j, g, ranks) && Populated(j)
    ensures SameKills(j, LaunchFailed(j, g, ranks), h) == true
  {
    var j1 := DropBlock(j, g, ranks);
    assert Populated(j1) && SameKills(j, j1, h);
    AbortAllPostsNoKill(j1, |j1.groups|, h);
  }

  lemma OtherKillRound(j: Job, g: nat, r: nat, h: nat)
    requires HasRank(j, g, r) && g != h
    ensures SameKills(j, SuspendResult(j, g, r), h) == true
  {
    var ps := Suspended(j.groups[g], r).procs;
    KillCmdsAre(g, ps, |ps|);
  }

  lemma AbortsPostNoKill(j: Job, e: Event, h: nat)
    requires Enabled(j, e) && (e.EvAbortJob? || e.EvCtrlC? || e.EvCmdError?)
    ensures SameKills(j, Apply(j, e), h)
  {
    match e {
      case EvAbortJob(g, r, intern, code) =>
        AbortJobPostsNoKill(j, g, r, if intern then FatalError else AppAbort, code, h);
      case EvCtrlC => AbortJobPostsNoKill(j, |j.groups| - 1, 0, CtrlC, 0, h);
      case EvCmdError => AbortAllPostsNoKill(j, |j.groups|, h);
    }
  }

  lemma OthersPostNoKill(j: Job, e: Event, h: nat)
    requires Enabled(j, e) && (e.EvStartDbs? || e.EvAddDbs? || e.EvExit? || e.EvInit? || e.EvFinalize?)
    ensures SameKills(j, Apply(j, e), h)
  {
    match e {
      case EvStartDbs(blocks) => AddGroupPostsNoKill(j, j.nproc, blocks, h);
      case EvAddDbs(n, blocks) => AddGroupPostsNoKill(j, n, blocks, h);
      case EvExit(g, r, code) => ExitPostsNoKill(j, g, r, code, h);
      case EvInit(_, _) =>
      case EvFinalize(_, _) =>
    }
  }

  /** Only the answer to a suspend can post a kill. */
  lemma KillsComeFromSuspends(j: Job, e: Event, h: nat)
    requires GroupsInv(j) && Enabled(j, e) && !(e.EvSuspendResult? && e.g == h)
    ensures SameKills(j, Apply(j, e), h)
  {
    if e.EvLaunchOk? || e.EvLaunchFailed? || e.EvKillResult? || e.EvSuspendResult? {
      AnswersPostNoKill(j, e, h);
    } else if e.EvAbortJob? || e.EvCtrlC? || e.EvCmdError? {
      AbortsPostNoKill(j, e, h);
    } else {
      OthersPostNoKill(j, e, h);
    }
  }

  /** While a suspend of a group is on the wire, no kill of the group has been posted. */
  lemma NoKillBeforeSuspends(j: Job, g: nat, r: nat)
    requires GroupsInv(j) && HasRank(j, g, r) && Suspend(g, r) in j.outstanding
    ensures !KillsPosted(j, g)
  {
    var pg := j.groups[g];
    assert InvOf(j, g);
    SuspendAnswerCounts(pg, g, r, j.outstanding, j.posted, j.closing);
  }

  /** A step posts kills of a group only when that group has none yet. */
  lemma KillStepIsFirst(j: Job, e: Event, g: nat)
    requires Inv(j) && Enabled(j, e) && !SameKills(j, Apply(j, e), g)
    ensures !KillsPosted(j, g) && KillsPosted(Apply(j, e), g)
  {
    if e.EvSuspendResult? && e.g == g {
      NoKillBeforeSuspends(j, g, e.r);
      var r :| Apply(j, e).posted[Kill(g, r)] != j.posted[Kill(g, r)];
      assert Kill(g, r) !in j.posted;
      assert Kill(g, r) in Apply(j, e).posted;
    } else {
      KillsComeFromSuspends(j, e, g);
    }
  }

  lemma PostedGrows(j: Job, e: Event, g: nat)
    requires Inv(j) && Enabled(j, e) && KillsPosted(j, g)
    ensures KillsPosted(Apply(j, e), g)
  {
    if SameKills(j, Apply(j, e), g) {
      var r :| Kill(g, r) in j.posted;
      assert Kill(g, r) in Apply(j, e).posted;
    } else {
      KillStepIsFirst(j, e, g);
    }
  }

  /** How many steps of a run post kills of group g. */
  ghost function KillRounds(j: Job, es: seq<Event>, g: nat): nat
    requires IsRun(j, es)
    decreases |es|
  {
    if es == [] then 0
    else (if SameKills(j, Apply(j, es[0]), g) then 0 else 1) + KillRounds(Apply(j, es[0]), es[1..], g)
  }

  lemma {:induction false} KillRoundHappensOnce(j: Job, es: seq<Event>, g: nat)
    requires Inv(j) && IsRun(j, es)
    ensures KillRounds(j, es, g) <= if KillsPosted(j, g) then 0 else 1
    decreases |es|
  {
    if es != [] {
      var j' := Apply(j, es[0]);
      StepKeepsInv(j, es[0]);
      KillRoundHappensOnce(j', es[1..], g);
      if KillsPosted(j, g) {
        PostedGrows(j, es[0], g);
      }
      if !SameKills(j, j', g) {
        KillStepIsFirst(j, es[0], g);
      }
    }
  }

  // ---- tear-down ---------------------------------------------------------------------

  /** No launch, suspend or kill of group g is waiting for its answer. */
  ghost predicate Quiet(j: Job, g: nat) {
    forall c: Command :: c in j.outstanding ==> c.Close? || c.group != g
  }

  /** A group that was aborted and awaits nothing has closed the tree, unless all its ranks are gone anyway. */
  lemma QuietGroupHasClosed(nproc: int, es: seq<Event>, g: nat)
    requires IsRun(Initial(nproc), es)
    requires var j := Run(Initial(nproc), es);
             g < |j.groups| && j.groups[g].aborted && Quiet(j, g)
    ensures var j := Run(Initial(nproc), es);
            j.closing || AllExited(j.groups[g])
  {
    InitialInv(nproc);
    RunKeepsInv(Initial(nproc), es);
    QuietCounts(Run(Initial(nproc), es), g);
  }

  lemma QuietCounts(j: Job, g: nat)
    requires Inv(j) && g < |j.groups| && Quiet(j, g)
    ensures j.groups[g].numPendingSuspends == 0 && j.groups[g].numPendingKills == 0
    ensures j.groups[g].aborted ==> j.closing || AllExited(j.groups[g])
  {
    var pg := j.groups[g];
    assert InvOf(j, g);
    WeightsNonNegative(pg.procs, g, j.outstanding);
    forall r | 0 <= r < |pg.procs|
      ensures AwaitedSuspend(pg.procs[r], j.outstanding[Suspend(g, r)]) == 0 && j.outstanding[Kill(g, r)] == 0
    {
      assert Suspend(g, r) !in j.outstanding && Kill(g, r) !in j.outstanding;
      assert RankInv(pg.procs[r], g, r, pg.aborted, pg.numPendingSuspends, j.outstanding, j.posted);
      if Unresolved(pg.procs, r) {
        assert Launching(j.outstanding, g, r);
      }
    }
  }

  /** The single-group job: once it is aborted and nothing is outstanding, it is closing. */
  lemma AbortedJobCloses(nproc: int, es: seq<Event>)
    requires IsRun(Initial(nproc), es)
    requires var j := Run(Initial(nproc), es);
             |j.groups| == 1 && j.groups[0].aborted && Quiet(j, 0)
    ensures var j := Run(Initial(nproc), es);
            j.closing && j.posted[Close] == 1
  {
    InitialInv(nproc);
    RunKeepsInv(Initial(nproc), es);
    QuietJobCloses(Run(Initial(nproc), es));
  }

  lemma QuietJobCloses(j: Job)
    requires Inv(j) == true && |j.groups| == 1 && j.groups[0].aborted && Quiet(j, 0)
    ensures j.closing && j.posted[Close] == 1
  {
    QuietCounts(j, 0);
    if AllExited(j.groups[0]) {
      assert EveryoneExited(j);
    }
  }

  /** The close command is posted at most once in any run, and exactly when the job starts closing. */
  lemma ClosePostedOnce(nproc: int, es: seq<Event>)
    requires IsRun(Initial(nproc), es)
    ensures var j := Run(Initial(nproc), es);
            j.posted[Close] == if j.closing then 1 else 0
  {
    InitialInv(nproc);
    RunKeepsInv(Initial(nproc), es);
  }

  /** When every rank of every group has exited the tree is closing, aborted or not. */
  lemma LastExitCloses(nproc: int, es: seq<Event>)
    requires IsRun(Initial(nproc), es) && EveryoneExited(Run(Initial(nproc), es))
    ensures Run(Initial(nproc), es).closing
  {
    InitialInv(nproc);
    RunKeepsInv(Initial(nproc), es);
  }
}
