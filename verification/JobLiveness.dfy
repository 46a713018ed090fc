/**
 An aborted job winds down: every answer leaves less to wait for, and some answer is always
 possible until the job closes.
 */
module JobLiveness {
  import opened Sums
  import opened JobModel
  import opened JobInvariants
  import opened JobSafety
  import opened JobTheorems

  // ---- what is left to wait for ------------------------------------------------------

  /** A rank still coming up may cost two answers: its launch, and the suspend delayed on it. */
  function RoundWork(p: Proc, suspends: nat): nat {
    (if p.launched || p.failedLaunch then 0 else 2) + suspends
  }

  function LeavingWork(p: Proc, kills: nat): nat {
    (if p.exited then 0 else 1) + kills
  }

  ghost function RoundWeights(ps: seq<Proc>, g: nat, out: multiset<Command>): seq<int> {
    seq(|ps|, r requires 0 <= r < |ps| => RoundWork(ps[r], out[Suspend(g, r)]))
  }

  ghost function LeavingWeights(ps: seq<Proc>, g: nat, out: multiset<Command>): seq<int> {
    seq(|ps|, r requires 0 <= r < |ps| => LeavingWork(ps[r], out[Kill(g, r)]))
  }

  /** What is outstanding for the suspend round, then for the kill round and the exits. */
  ghost function Round(j: Job, g: nat): int
    requires g < |j.groups|
  {
    Sum(RoundWeights(j.groups[g].procs, g, j.outstanding))
  }

  ghost function Leaving(j: Job, g: nat): int
    requires g < |j.groups|
  {
    Sum(LeavingWeights(j.groups[g].procs, g, j.outstanding))
  }

  /** At most this many more answers and exits can arrive for the group. */
  ghost function Remaining(j: Job, g: nat): int
    requires g < |j.groups|
  {
    Round(j, g) * (2 * |j.groups[g].procs| + 1) + Leaving(j, g)
  }

  predicate AnswerFor(e: Event, g: nat) {
    (e.EvLaunchOk? || e.EvLaunchFailed? || e.EvSuspendResult? || e.EvKillResult? || e.EvExit?) && e.g == g
  }

  /** The group has exactly the same work left. */
  ghost predicate SameWork(j: Job, j': Job, g: nat) {
    && g < |j.groups| && |j'.groups| == |j.groups|
    && j'.groups[g].aborted == j.groups[g].aborted
    && |j'.groups[g].procs| == |j.groups[g].procs|
    && forall r :: 0 <= r < |j.groups[g].procs| ==> SameRankWork(j, j', g, r)
  }

  ghost predicate SameRankWork(j: Job, j': Job, g: nat, r: nat)
    requires HasRank(j, g, r) && HasRank(j', g, r)
  {
    var p, p' := j.groups[g].procs[r], j'.groups[g].procs[r];
    && p'.launched == p.launched && p'.failedLaunch == p.failedLaunch && p'.exited == p.exited
    && j'.outstanding[Suspend(g, r)] == j.outstanding[Suspend(g, r)]
    && j'.outstanding[Kill(g, r)] == j.outstanding[Kill(g, r)]
  }

  lemma SameWorkSameRemaining(j: Job, j': Job, g: nat)
    requires SameWork(j, j', g)
    ensures Round(j', g) == Round(j, g) && Leaving(j', g) == Leaving(j, g)
  {
    var ps, ps' := j.groups[g].procs, j'.groups[g].procs;
    forall r | 0 <= r < |ps|
      ensures RoundWeights(ps', g, j'.outstanding)[r] == RoundWeights(ps, g, j.outstanding)[r]
      ensures LeavingWeights(ps', g, j'.outstanding)[r] == LeavingWeights(ps, g, j.outstanding)[r]
    {
      assert SameRankWork(j, j', g, r);
    }
    assert RoundWeights(ps', g, j'.outstanding) == RoundWeights(ps, g, j.outstanding);
    assert LeavingWeights(ps', g, j'.outstanding) == LeavingWeights(ps, g, j.outstanding);
  }

  lemma SameWorkThen(j: Job, j1: Job, j2: Job, g: nat)
    requires SameWork(j, j1, g) == true && SameWork(j1, j2, g) == true
    ensures SameWork(j, j2, g) == true
  {
    forall r | 0 <= r < |j.groups[g].procs| ensures SameRankWork(j, j2, g, r) {
      assert SameRankWork(j, j1, g, r) && SameRankWork(j1, j2, g, r);
    }
  }

  lemma ClosingSameWork(j: Job, g: nat)
    requires g < |j.groups|
    ensures SameWork(j, TearDown(j), g) == true
  {
  }

  lemma FrameSameWork(j: Job, j': Job, g: nat, h: nat)
    requires TouchesOnly(j, j', h) && g != h && g < |j.groups|
    ensures SameWork(j, j', g) == true
  {
  }

  /** Aborting an aborted group again leaves its work alone; so does aborting another group. */
  lemma AbortJobSameWork(j: Job, h: nat, r: nat, reason: AbortReason, code: int, g: nat)
    requires HasRank(j, h, r) && g < |j.groups| && j.groups[g].aborted
    ensures SameWork(j, AbortJob(j, h, r, reason, code), g) == true
  {
    if g != h {
      AbortJobFrame(j, h, r, reason, code);
      FrameSameWork(j, AbortJob(j, h, r, reason, code), g, h);
    }
  }

  lemma {:induction false} AbortAllSameWork(j: Job, k: nat, g: nat)
    requires Populated(j) && k <= |j.groups| && g < |j.groups| && j.groups[g].aborted
    ensures SameWork(j, AbortAll(j, k), g) == true
    decreases k
  {
    if k > 0 {
      var j' := AbortJob(j, k - 1, 0, FatalError, -1);
      AbortJobKeepsShape(j, k - 1, 0, FatalError, -1);
      AbortJobSameWork(j, k - 1, 0, FatalError, -1, g);
      AbortAllSameWork(j', k - 1, g);
      SameWorkThen(j, j', AbortAll(j', k - 1), g);
    }
  }

  /** Opening further groups changes nothing for the ones that exist. */
  lemma AddGroupSameWork(j: Job, n: nat, blocks: seq<seq<nat>>, g: nat)
    requires Deals(blocks, n) && g < |j.groups|
    ensures var j' := AddGroup(j, n, blocks);
            && j'.groups[g] == j.groups[g]
            && Round(j', g) == Round(j, g) && Leaving(j', g) == Leaving(j, g)
  {
    BlocksDiffer(blocks, n);
    LaunchCmdsAre(|j.groups|, blocks, |blocks|);
    var j' := AddGroup(j, n, blocks);
    var ps := j.groups[g].procs;
    assert j'.groups[g].procs == ps;
    assert RoundWeights(ps, g, j'.outstanding) == RoundWeights(ps, g, j.outstanding);
    assert LeavingWeights(ps, g, j'.outstanding) == LeavingWeights(ps, g, j.outstanding);
  }

  /** Less is left: either the suspend round has shrunk, or it is the same and the leaving has. */
  ghost predicate LessLeft(j: Job, j': Job, g: nat) {
    && g < |j.groups| && |j'.groups| == |j.groups|
    && j'.groups[g].aborted == j.groups[g].aborted && |j'.groups[g].procs| == |j.groups[g].procs|
    && (Round(j', g) < Round(j, g) || (Round(j', g) == Round(j, g) && Leaving(j', g) < Leaving(j, g)))
  }

  lemma LaunchOkLeavesLess(j: Job, g: nat, ranks: seq<nat>)
    requires GroupsInv(j) && HasRanks(j, g, ranks) && Launch(g, ranks) in j.outstanding
    ensures LessLeft(j, LaunchOk(j, g, ranks), g)
  {
    var j' := LaunchOk(j, g, ranks);
    var ps := j.groups[g].procs;
    assert InvOf(j, g);
    LaunchRanksFresh(ps, g, ranks, j.outstanding);
    LaunchWeights(ps, g, ranks, j.outstanding);
    assert Unresolved(ps, ranks[0]);
    SumStrict(RoundWeights(j'.groups[g].procs, g, j'.outstanding), RoundWeights(ps, g, j.outstanding), ranks[0]);
  }

  lemma LaunchWeights(ps: seq<Proc>, g: nat, ranks: seq<nat>, out: multiset<Command>)
    requires NoDup(ranks) && ranks != [] && forall r :: r in ranks ==> Unresolved(ps, r)
    requires forall i :: 0 <= i < |ranks| ==> ranks[i] < |ps|
    ensures var out' := out - multiset{Launch(g, ranks)} + DelayedSuspends(g, ps, ranks, |ranks|);
            var w, w' := RoundWeights(ps, g, out), RoundWeights(LaunchProcs(ps, ranks), g, out');
            && (forall r :: 0 <= r < |ps| ==> w'[r] <= w[r])
            && w'[ranks[0]] < w[ranks[0]]
  {
    DelayedSuspendsAre(g, ps, ranks, |ranks|);
    assert ranks[..|ranks|] == ranks;
    assert forall r :: r in ranks ==> Unresolved(ps, r);
  }

  lemma DropLeavesLess(j: Job, g: nat, ranks: seq<nat>)
    requires GroupsInv(j) && HasRanks(j, g, ranks) && Launch(g, ranks) in j.outstanding
    ensures LessLeft(j, DropBlock(j, g, ranks), g)
  {
    var j' := DropBlock(j, g, ranks);
    var ps := j.groups[g].procs;
    assert InvOf(j, g);
    LaunchRanksFresh(ps, g, ranks, j.outstanding);
    var w, w' := RoundWeights(ps, g, j.outstanding), RoundWeights(j'.groups[g].procs, g, j'.outstanding);
    assert forall r :: 0 <= r < |ps| ==> w'[r] <= w[r];
    assert Unresolved(ps, ranks[0]);
    assert w'[ranks[0]] < w[ranks[0]];
    SumStrict(w', w, ranks[0]);
  }

  lemma LaunchFailedLeavesLess(j: Job, g: nat, ranks: seq<nat>)
    requires GroupsInv(j) && HasRanks(j, g, ranks) && Populated(j) && Launch(g, ranks) in j.outstanding
    requires j.groups[g].aborted
    ensures LessLeft(j, LaunchFailed(j, g, ranks), g)
  {
    var j1 := DropBlock(j, g, ranks);
    var j' := LaunchFailed(j, g, ranks);
    DropLeavesLess(j, g, ranks);
    if !(j1.groups[g].aborted && j1.groups[g].numPendingSuspends == 0) {
      AbortAllSameWork(j1, |j1.groups|, g);
    }
    assert SameWork(j1, j', g);
    SameWorkSameRemaining(j1, j', g);
  }

  lemma KillRoundKeepsRound(j: Job, g: nat)
    requires g < |j.groups|
    ensures Round(KillRound(j, g), g) == Round(j, g)
  {
    var ps := j.groups[g].procs;
    KillCmdsAre(g, ps, |ps|);
    assert RoundWeights(ps, g, KillRound(j, g).outstanding) == RoundWeights(ps, g, j.outstanding);
  }

  lemma SuspendLeavesLess(j: Job, g: nat, r: nat)
    requires HasRank(j, g, r) && Suspend(g, r) in j.outstanding
    ensures LessLeft(j, SuspendResult(j, g, r), g)
  {
    var j1 := SetGroup(Answered(j, Suspend(g, r)), g, Suspended(j.groups[g], r));
    var w := RoundWeights(j.groups[g].procs, g, j.outstanding);
    assert RoundWeights(j1.groups[g].procs, g, j1.outstanding) == w[r := w[r] - 1];
    SumUpdate(w, r, w[r] - 1);
    KillRoundKeepsRound(j1, g);
  }

  lemma KillAnswerWeights(ps: seq<Proc>, g: nat, r: nat, out: multiset<Command>)
    requires r < |ps| && Kill(g, r) in out
    ensures var out' := out - multiset{Kill(g, r)};
            && Sum(RoundWeights(ps, g, out')) == Sum(RoundWeights(ps, g, out))
            && Sum(LeavingWeights(ps, g, out')) == Sum(LeavingWeights(ps, g, out)) - 1
  {
    var out' := out - multiset{Kill(g, r)};
    assert RoundWeights(ps, g, out') == RoundWeights(ps, g, out);
    var w := LeavingWeights(ps, g, out);
    assert LeavingWeights(ps, g, out') == w[r := w[r] - 1];
    SumUpdate(w, r, w[r] - 1);
  }

  lemma KillLeavesLess(j: Job, g: nat, r: nat)
    requires HasRank(j, g, r) && Kill(g, r) in j.outstanding
    ensures LessLeft(j, KillResult(j, g, r), g)
  {
    var pg := j.groups[g].(numPendingKills := j.groups[g].numPendingKills - 1);
    var j1 := SetGroup(Answered(j, Kill(g, r)), g, pg);
    KillAnswerWeights(pg.procs, g, r, j.outstanding);
    assert SameWork(j1, TearDown(j1), g);
    SameWorkSameRemaining(j1, TearDown(j1), g);
  }

  lemma MarkExitedLeavesLess(j: Job, g: nat, r: nat)
    requires HasRank(j, g, r) && !j.groups[g].procs[r].exited
    ensures LessLeft(j, MarkExited(j, g, r), g)
  {
    var ps, ps' := j.groups[g].procs, MarkExited(j, g, r).groups[g].procs;
    var w := LeavingWeights(ps, g, j.outstanding);
    assert RoundWeights(ps', g, j.outstanding) == RoundWeights(ps, g, j.outstanding);
    assert LeavingWeights(ps', g, j.outstanding) == w[r := w[r] - 1];
    SumUpdate(w, r, w[r] - 1);
  }

  lemma ExitOfRankSameWork(j: Job, h: nat, r: nat, code: int, g: nat)
    requires HasRank(j, h, r) && g < |j.groups| && j.groups[g].aborted
    ensures SameWork(MarkExited(j, h, r), ExitOfRank(j, h, r, code), g) == true
  {
    var j0 := MarkExited(j, h, r);
    var j1 := NoteExitCode(j0, h, r, code);
    assert SameWork(j0, j1, g);
    AbortJobSameWork(j1, h, r, ExitNoFinalize, code, g);
    AbortJobSameWork(j1, h, r, ExitNoInit, code, g);
    SameWorkThen(j0, j1, AbortJob(j1, h, r, ExitNoFinalize, code), g);
    SameWorkThen(j0, j1, AbortJob(j1, h, r, ExitNoInit, code), g);
    assert SameWork(j1, NoteNoInit(j1, h), g);
    SameWorkThen(j0, j1, NoteNoInit(j1, h), g);
  }

  lemma ExitSameWork(j: Job, h: nat, r: nat, code: int, g: nat)
    requires HasRank(j, h, r) && g < |j.groups| && j.groups[g].aborted
    ensures SameWork(MarkExited(j, h, r), Exit(j, h, r, code), g) == true
  {
    var j1 := ExitOfRank(j, h, r, code);
    ExitOfRankSameWork(j, h, r, code, g);
    assert SameWork(j1, Exit(j, h, r, code), g);
    SameWorkThen(MarkExited(j, h, r), j1, Exit(j, h, r, code), g);
  }

  /** Every answer to an aborted group leaves it less to wait for. */
  lemma AnswersLeaveLess(j: Job, e: Event, g: nat)
    requires Inv(j) && Enabled(j, e) && g < |j.groups| && j.groups[g].aborted && AnswerFor(e, g)
    ensures LessLeft(j, Apply(j, e), g)
  {
    match e {
      case EvLaunchOk(_, ranks) => LaunchOkLeavesLess(j, g, ranks);
      case EvLaunchFailed(_, ranks) => LaunchFailedLeavesLess(j, g, ranks);
      case EvSuspendResult(_, r) => SuspendLeavesLess(j, g, r);
      case EvKillResult(_, r) => KillLeavesLess(j, g, r);
      case EvExit(_, r, code) =>
        MarkExitedLeavesLess(j, g, r);
        ExitSameWork(j, g, r, code, g);
        SameWorkSameRemaining(MarkExited(j, g, r), Exit(j, g, r, code), g);
    }
  }

  lemma OtherLaunches(j: Job, e: Event, g: nat)
    requires Inv(j) && Enabled(j, e) && g < |j.groups| && j.groups[g].aborted
    requires (e.EvLaunchOk? || e.EvLaunchFailed?) && e.g != g
    ensures SameWork(j, Apply(j, e), g) == true
  {
    var h, ranks := e.g, e.ranks;
    if e.EvLaunchOk? {
      assert InvOf(j, h);
      LaunchRanksFresh(j.groups[h].procs, h, ranks, j.outstanding);
      LaunchOkFrame(j, h, ranks);
      FrameSameWork(j, LaunchOk(j, h, ranks), g, h);
    } else {
      LaunchFailedElsewhere(j, h, ranks, g);
    }
  }

  lemma LaunchFailedElsewhere(j: Job, h: nat, ranks: seq<nat>, g: nat)
    requires HasRanks(j, h, ranks) && Populated(j) && g < |j.groups| && g != h && j.groups[g].aborted
    ensures SameWork(j, LaunchFailed(j, h, ranks), g) == true
  {
    var j1 := DropBlock(j, h, ranks);
    DropFrame(j, h, ranks);
    FrameSameWork(j, j1, g, h);
    AbortAllSameWork(j1, |j1.groups|, g);
    ClosingSameWork(j1, g);
    SameWorkThen(j, j1, TearDown(j1), g);
    SameWorkThen(j, j1, AbortAll(j1, |j1.groups|), g);
  }

  lemma OtherSuspendsAndKills(j: Job, e: Event, g: nat)
    requires Enabled(j, e) && g < |j.groups|
    requires (e.EvSuspendResult? || e.EvKillResult?) && e.g != g
    ensures SameWork(j, Apply(j, e), g) == true
  {
    if e.EvSuspendResult? {
      SuspendResultFrame(j, e.g, e.r);
    } else {
      KillResultFrame(j, e.g, e.r);
    }
    FrameSameWork(j, Apply(j, e), g, e.g);
  }

  lemma OtherExits(j: Job, h: nat, r: nat, code: int, g: nat)
    requires HasRank(j, h, r) && g < |j.groups| && j.groups[g].aborted && h != g
    ensures SameWork(j, Exit(j, h, r, code), g) == true
  {
    FrameSameWork(j, MarkExited(j, h, r), g, h);
    ExitSameWork(j, h, r, code, g);
    SameWorkThen(j, MarkExited(j, h, r), Exit(j, h, r, code), g);
  }

  lemma FlagsKeepWork(j: Job, e: Event, g: nat)
    requires Enabled(j, e) && g < |j.groups| && (e.EvInit? || e.EvFinalize?)
    ensures SameWork(j, Apply(j, e), g) == true
  {
  }

  lemma AbortKeepsWork(j: Job, h: nat, r: nat, intern: bool, code: int, g: nat)
    requires HasRank(j, h, r) && g < |j.groups| && j.groups[g].aborted
    ensures SameWork(j, Apply(j, EvAbortJob(h, r, intern, code)), g) == true
  {
    AbortJobSameWork(j, h, r, if intern then FatalError else AppAbort, code, g);
  }

  lemma CtrlCKeepsWork(j: Job, g: nat)
    requires Enabled(j, EvCtrlC) && g < |j.groups| && j.groups[g].aborted
    ensures SameWork(j, Apply(j, EvCtrlC), g) == true
  {
    AbortJobSameWork(j, |j.groups| - 1, 0, CtrlC, 0, g);
  }

  lemma RequestsKeepWork(j: Job, e: Event, g: nat)
    requires Enabled(j, e) && g < |j.groups| && j.groups[g].aborted
    requires e.EvInit? || e.EvFinalize? || e.EvAbortJob? || e.EvCtrlC? || e.EvCmdError?
    ensures SameWork(j, Apply(j, e), g) == true
  {
    match e {
      case EvAbortJob(h, r, intern, code) => AbortKeepsWork(j, h, r, intern, code, g);
      case EvCtrlC => CtrlCKeepsWork(j, g);
      case EvCmdError => AbortAllSameWork(j, |j.groups|, g);
      case _ => FlagsKeepWork(j, e, g);
    }
  }

  /** What is not an answer to the group leaves its work as it was. */
  lemma OthersKeepWork(j: Job, e: Event, g: nat)
    requires Inv(j) && Enabled(j, e) && g < |j.groups| && j.groups[g].aborted && !AnswerFor(e, g)
    requires !e.EvStartDbs? && !e.EvAddDbs?
    ensures SameWork(j, Apply(j, e), g) == true
  {
    if e.EvLaunchOk? || e.EvLaunchFailed? {
      OtherLaunches(j, e, g);
    } else if e.EvSuspendResult? || e.EvKillResult? {
      OtherSuspendsAndKills(j, e, g);
    } else if e.EvExit? {
      OtherExits(j, e.g, e.r, e.code, g);
    } else {
      RequestsKeepWork(j, e, g);
    }
  }

  lemma LeavingBounded(j: Job, g: nat)
    requires Inv(j) && g < |j.groups|
    ensures 0 <= Leaving(j, g) <= 2 * |j.groups[g].procs| && 0 <= Round(j, g)
  {
    var ps := j.groups[g].procs;
    assert InvOf(j, g);
    forall r | 0 <= r < |ps| ensures j.outstanding[Kill(g, r)] <= 1 {
      assert RankInv(ps[r], g, r, j.groups[g].aborted, j.groups[g].numPendingSuspends, j.outstanding, j.posted);
    }
    var twos := seq(|ps|, i => 2);
    SumConst(twos, 2);
    SumMono(LeavingWeights(ps, g, j.outstanding), twos);
    SumZero(LeavingWeights(ps, g, j.outstanding));
    SumZero(RoundWeights(ps, g, j.outstanding));
  }

  lemma LexBound(a: int, b: int, a': int, b': int, m: nat)
    requires 0 <= b && 0 <= b' <= m && (a' < a || (a' == a && b' < b))
    ensures a' * (m + 1) + b' < a * (m + 1) + b
  {
    if a' < a {
      assert a' * (m + 1) <= (a - 1) * (m + 1);
    }
  }

  lemma LessLeftLess(j: Job, j': Job, g: nat)
    requires Inv(j) && Inv(j') && LessLeft(j, j', g)
    ensures Remaining(j', g) < Remaining(j, g)
  {
    LeavingBounded(j, g);
    LeavingBounded(j', g);
    LexBound(Round(j, g), Leaving(j, g), Round(j', g), Leaving(j', g), 2 * |j.groups[g].procs|);
  }

  lemma NewGroupsKeepRemaining(j: Job, e: Event, g: nat)
    requires Enabled(j, e) && g < |j.groups| && (e.EvStartDbs? || e.EvAddDbs?)
    ensures var j' := Apply(j, e);
            g < |j'.groups| && j'.groups[g] == j.groups[g] && Remaining(j', g) == Remaining(j, g)
  {
    AddGroupSameWork(j, if e.EvAddDbs? then e.n else j.nproc, e.blocks, g);
  }

  /** One step of an aborted group: no event adds work, and every answer removes some. */
  lemma StepLeavesLess(j: Job, e: Event, g: nat)
    requires Inv(j) && Enabled(j, e) && g < |j.groups| && j.groups[g].aborted
    ensures var j' := Apply(j, e);
            && g < |j'.groups| && j'.groups[g].aborted
            && Remaining(j', g) <= Remaining(j, g) - (if AnswerFor(e, g) then 1 else 0)
  {
    var j' := Apply(j, e);
    if AnswerFor(e, g) {
      StepKeepsInv(j, e);
      AnswersLeaveLess(j, e, g);
      LessLeftLess(j, j', g);
    } else if e.EvStartDbs? || e.EvAddDbs? {
      NewGroupsKeepRemaining(j, e, g);
    } else {
      OthersKeepWork(j, e, g);
      SameWorkSameRemaining(j, j', g);
    }
  }

  function AnswersIn(es: seq<Event>, g: nat): nat {
    if es == [] then 0 else (if AnswerFor(es[0], g) then 1 else 0) + AnswersIn(es[1..], g)
  }

  /** After an abort, a run holds only so many answers for the group. */
  lemma {:induction false} AnswersRunOut(j: Job, es: seq<Event>, g: nat)
    requires Inv(j) && g < |j.groups| && j.groups[g].aborted && IsRun(j, es)
    ensures AnswersIn(es, g) <= Remaining(j, g)
    decreases |es|
  {
    if es == [] {
      LeavingBounded(j, g);
      assert 0 <= Round(j, g) * (2 * |j.groups[g].procs| + 1);
    } else {
      StepLeavesLess(j, es[0], g);
      StepKeepsInv(j, es[0]);
      AnswersRunOut(Apply(j, es[0]), es[1..], g);
    }
  }

  /** Until the aborted single-group job closes, an answer is still to come: it never hangs. */
  lemma AbortNeverStalls(j: Job)
    requires Inv(j) && |j.groups| == 1 && j.groups[0].aborted && !j.closing
    ensures exists e :: Enabled(j, e) && AnswerFor(e, 0) && !e.EvExit?
  {
    if Quiet(j, 0) {
      QuietCounts(j, 0);
      if AllExited(j.groups[0]) { assert EveryoneExited(j); }
      assert false;
    }
    assert InvOf(j, 0);
    var c: Command :| c in j.outstanding && !c.Close? && c.group == 0;
    assert KnownCommand(j, c);
    match c {
      case Suspend(_, r) => assert Enabled(j, EvSuspendResult(0, r)) && AnswerFor(EvSuspendResult(0, r), 0);
      case Kill(_, r) => assert Enabled(j, EvKillResult(0, r)) && AnswerFor(EvKillResult(0, r), 0);
      case Launch(_, ranks) =>
        LaunchRanksFresh(j.groups[0].procs, 0, ranks, j.outstanding);
        forall i | 0 <= i < |ranks| ensures ranks[i] < |j.groups[0].procs| {
          assert Unresolved(j.groups[0].procs, ranks[i]);
        }
        assert Enabled(j, EvLaunchOk(0, ranks)) && AnswerFor(EvLaunchOk(0, ranks), 0);
    }
  }
}
