/**
 Which events abort a group, whom they blame, what mpiexec's exit code becomes, and which ranks
 the rounds of suspends and kills reach: told from what has happened, not from the handlers.
 */
module JobVerdict {
  import opened Sums
  import opened JobModel
  import opened JobInvariants
  import opened JobSafety
  import opened JobTheorems
  import opened JobHistory

  /** The failure of a launch that was the last thing an aborted group waited for. */
  ghost predicate Settles(j: Job, g: nat, ranks: seq<nat>)
    requires g < |j.groups|
  {
    j.groups[g].aborted && forall r :: r in AwaitedRanks(j, g) ==> r in ranks
  }

  /** An exit after init and without finalize, or without init beside a rank that has called it. */
  ghost predicate BadExit(es: seq<Event>, g: nat, r: nat) {
    !WasSuspended(es, g, r) && if Inited(es, g, r) then !Finalized(es, g, r) else SomeInit(es, g)
  }

  /** What e is to group g after the events es: a reason to abort it. */
  ghost predicate Aborts(j: Job, es: seq<Event>, e: Event, g: nat)
    requires Enabled(j, e)
  {
    match e
    case EvAbortJob(h, _, _, _) => h == g
    case EvExit(h, r, _) => h == g && BadExit(es, g, r)
    case EvCtrlC => g + 1 == |j.groups|
    case EvCmdError => true
    case EvLaunchFailed(h, ranks) => !Settles(j, h, ranks)
    case _ => false
  }

  /** The rank a reason to abort is laid to. */
  predicate Blamed(e: Event, r: nat) {
    match e
    case EvAbortJob(_, q, _, _) => q == r
    case EvExit(_, q, _) => q == r
    case _ => r == 0
  }

  function Why(es: seq<Event>, e: Event): AbortReason {
    match e
    case EvAbortJob(_, _, intern, _) => if intern then FatalError else AppAbort
    case EvExit(h, r, _) => if Inited(es, h, r) then ExitNoFinalize else ExitNoInit
    case EvCtrlC => CtrlC
    case _ => FatalError
  }

  /** The exit code that comes with it. */
  function BlameCode(e: Event): int {
    match e
    case EvAbortJob(_, _, _, code) => code
    case EvExit(_, _, code) => code
    case EvCtrlC => 0
    case _ => -1
  }

  /** mpiexec's exit code for the first abort of a group. */
  function AbortCode(es: seq<Event>, e: Event): int {
    match e
    case EvAbortJob(_, _, intern, code) => if intern then -4 else code
    case EvExit(h, r, _) => if Inited(es, h, r) then -3 else -2
    case EvCtrlC => -1
    case _ => -4
  }

  // ---- one abort ---------------------------------------------------------------------

  predicate Verdict(p: Proc, p': Proc, blamed: bool, why: AbortReason, code: int) {
    && p'.reason == (if blamed && p.reason == Terminated then why else p.reason)
    && p'.exitCode == (if blamed then code else p.exitCode)
  }

  /** Rank q is blamed, and all other ranks keep what they were blamed for. */
  ghost predicate GroupVerdict(pg: Group, pg': Group, q: nat, why: AbortReason, code: int) {
    && |pg'.procs| == |pg.procs|
    && forall r :: 0 <= r < |pg.procs| ==> Verdict(pg.procs[r], pg'.procs[r], r == q, why, code)
  }

  ghost predicate OthersSame(j: Job, j': Job, g: nat) {
    && |j'.groups| == |j.groups| && forall h :: 0 <= h < |j.groups| && h != g ==> j'.groups[h] == j.groups[h]
  }

  lemma BlameVerdict(j: Job, g: nat, q: nat, why: AbortReason, code: int)
    requires HasRank(j, g, q)
    ensures var j' := BlameRank(j, g, q, why, code);
            && OthersSame(j, j', g) == true && GroupVerdict(j.groups[g], j'.groups[g], q, why, code) == true
            && j'.groups[g].aborted == j.groups[g].aborted && j'.exitCode == j.exitCode
  {
  }

  lemma FirstAbortIs(j: Job, g: nat, code: int)
    requires g < |j.groups|
    ensures var (j', pg) := (FirstAbort(j, g, code), j.groups[g]);
            && OthersSame(j, j', g) == true && j'.exitCode == code
            && j'.groups[g] == pg.(aborted := true, procs := AbortProcs(pg.procs), numPendingSuspends := j'.groups[g].numPendingSuspends)
  {
  }

  lemma RoundVerdict(pg: Group, pg1: Group, q: nat, why: AbortReason, c: int, n: int)
    requires GroupVerdict(pg, pg1, q, why, c)
    ensures GroupVerdict(pg, pg1.(aborted := true, procs := AbortProcs(pg1.procs), numPendingSuspends := n), q, why, c) == true
  {
  }

  lemma FirstAbortVerdict(j: Job, g: nat, code: int, pg: Group, q: nat, why: AbortReason, c: int)
    requires g < |j.groups| && GroupVerdict(pg, j.groups[g], q, why, c) == true
    ensures var j' := FirstAbort(j, g, code);
            && OthersSame(j, j', g) == true && GroupVerdict(pg, j'.groups[g], q, why, c) == true
            && j'.groups[g].aborted && j'.exitCode == code
  {
    FirstAbortIs(j, g, code);
    RoundVerdict(pg, j.groups[g], q, why, c, FirstAbort(j, g, code).groups[g].numPendingSuspends);
  }

  lemma OthersSameThen(j: Job, j1: Job, j2: Job, g: nat)
    requires OthersSame(j, j1, g) == true && OthersSame(j1, j2, g) == true
    ensures OthersSame(j, j2, g) == true
  {
  }

  function NegatedReason(why: AbortReason, code: int): int {
    match why
    case Terminated => 0
    case CtrlC => -1
    case ExitNoInit => -2
    case ExitNoFinalize => -3
    case FatalError => -4
    case AppAbort => code
  }

  lemma AbortVerdict(j: Job, g: nat, q: nat, why: AbortReason, code: int)
    requires HasRank(j, g, q)
    ensures var j' := AbortJob(j, g, q, why, code);
            && OthersSame(j, j', g) == true && GroupVerdict(j.groups[g], j'.groups[g], q, why, code) == true
            && j'.groups[g].aborted
            && j'.exitCode == if j.groups[g].aborted then j.exitCode else NegatedReason(why, code)
  {
    var j1 := BlameRank(j, g, q, why, code);
    BlameVerdict(j, g, q, why, code);
    if !j1.groups[g].aborted {
      var c := if why.AppAbort? then code else -ReasonCode(why);
      FirstAbortVerdict(j1, g, c, j.groups[g], q, why, code);
      OthersSameThen(j, j1, FirstAbort(j1, g, c), g);
    }
  }

  ghost predicate AllAborted(j: Job, k: nat)
    requires k <= |j.groups|
  {
    forall g :: 0 <= g < k ==> j.groups[g].aborted
  }

  /** What the walk over the groups below k has done. */
  ghost predicate Walked(j: Job, j': Job, k: nat)
    requires k <= |j.groups|
  {
    && |j'.groups| == |j.groups|
    && (forall g :: 0 <= g < k ==> j'.groups[g].aborted && GroupVerdict(j.groups[g], j'.groups[g], 0, FatalError, -1))
    && (forall g :: k <= g < |j.groups| ==> j'.groups[g] == j.groups[g])
    && j'.exitCode == if AllAborted(j, k) then j.exitCode else -4
  }

  lemma WalkedOn(j: Job, j1: Job, j2: Job, k: nat)
    requires k < |j.groups| && OthersSame(j, j1, k) == true && j1.groups[k].aborted
    requires GroupVerdict(j.groups[k], j1.groups[k], 0, FatalError, -1) == true
    requires j1.exitCode == if j.groups[k].aborted then j.exitCode else -4
    requires Walked(j1, j2, k) == true
    ensures Walked(j, j2, k + 1) == true
  {
  }

  ghost predicate Walks(j: Job, j': Job, k: nat) {
    Populated(j) && k <= |j.groups| && j' == AbortAll(j, k)
  }

  lemma {:induction false} AbortAllVerdict(j: Job, j': Job, k: nat)
    requires k <= |j.groups| && Walks(j, j', k) == true
    ensures Walked(j, j', k) == true
    decreases k
  {
    if k == 0 {
      WalksNone(j, j');
    } else {
      var j1 := AbortsLast(j, j', k);
      AbortAllVerdict(j1, j', k - 1);
      WalkedOn(j, j1, j', k - 1);
    }
  }

  lemma WalksNone(j: Job, j': Job)
    requires Walks(j, j', 0) == true
    ensures Walked(j, j', 0) == true
  {
  }

  lemma AbortsLast(j: Job, j': Job, k: nat) returns (j1: Job)
    requires 0 < k <= |j.groups| && Walks(j, j', k) == true
    ensures Walks(j1, j', k - 1) == true && OthersSame(j, j1, k - 1) == true && |j1.groups| == |j.groups|
    ensures HasRank(j, k - 1, 0) && j1 == AbortJob(j, k - 1, 0, FatalError, -1)
    ensures j1.groups[k - 1].aborted
    ensures GroupVerdict(j.groups[k - 1], j1.groups[k - 1], 0, FatalError, -1) == true
    ensures j1.exitCode == if j.groups[k - 1].aborted then j.exitCode else -4
  {
    j1 := AbortJob(j, k - 1, 0, FatalError, -1);
    AbortJobKeepsShape(j, k - 1, 0, FatalError, -1);
    AbortVerdict(j, k - 1, 0, FatalError, -1);
  }

  // ---- one event ---------------------------------------------------------------------

  /** The exit of a rank that is its own affair: not forced, and not yet blamed for anything. */
  ghost predicate OwnExit(j: Job, es: seq<Event>, e: Event, g: nat, r: nat)
    requires HasRank(j, g, r)
  {
    ExitOf(e, g, r) && !WasSuspended(es, g, r) && j.groups[g].procs[r].reason == Terminated
  }

  /** What a rank is held responsible for, and its exit code. */
  ghost predicate RankVerdict(j: Job, es: seq<Event>, e: Event, g: nat, r: nat, p': Proc)
    requires Enabled(j, e) && HasRank(j, g, r)
  {
    var p := j.groups[g].procs[r];
    if Aborts(j, es, e, g) && Blamed(e, r) then
      p'.reason == (if p.reason == Terminated then Why(es, e) else p.reason) && p'.exitCode == BlameCode(e)
    else
      p'.reason == p.reason && p'.exitCode == if OwnExit(j, es, e, g, r) then e.code else p.exitCode
  }

  ghost predicate Verdicts(j: Job, es: seq<Event>, e: Event, j': Job)
    requires Enabled(j, e)
  {
    && |j.groups| <= |j'.groups|
    && forall g :: 0 <= g < |j.groups| ==>
         && (j'.groups[g].aborted <==> j.groups[g].aborted || Aborts(j, es, e, g))
         && |j'.groups[g].procs| == |j.groups[g].procs|
         && forall r :: 0 <= r < |j.groups[g].procs| ==> RankVerdict(j, es, e, g, r, j'.groups[g].procs[r])
  }

  /** Some group is aborted that was not. */
  ghost predicate FirstFor(j: Job, es: seq<Event>, e: Event)
    requires Enabled(j, e)
  {
    exists g :: 0 <= g < |j.groups| && !j.groups[g].aborted && Aborts(j, es, e, g)
  }

  ghost function ExitCodeAfter(j: Job, es: seq<Event>, e: Event): int
    requires Enabled(j, e)
  {
    if FirstFor(j, es, e) then AbortCode(es, e)
    else if e.EvExit? && OwnExit(j, es, e, e.g, e.r) && j.exitCode == 0 then e.code
    else j.exitCode
  }

  ghost predicate Judged(j: Job, es: seq<Event>, e: Event, j': Job)
    requires Enabled(j, e)
  {
    Verdicts(j, es, e, j') && j'.exitCode == ExitCodeAfter(j, es, e)
  }

  /** Nobody is blamed and nothing is aborted. */
  ghost predicate SameVerdicts(j: Job, j': Job) {
    && |j'.groups| == |j.groups| && j'.exitCode == j.exitCode
    && forall g :: 0 <= g < |j.groups| ==>
         && j'.groups[g].aborted == j.groups[g].aborted && |j'.groups[g].procs| == |j.groups[g].procs|
         && forall r :: 0 <= r < |j.groups[g].procs| ==> SameVerdict(j.groups[g].procs[r], j'.groups[g].procs[r])
  }

  predicate SameVerdict(p: Proc, p': Proc) { p'.reason == p.reason && p'.exitCode == p.exitCode }

  lemma SameJudged(j: Job, es: seq<Event>, e: Event, j': Job)
    requires Enabled(j, e) && SameVerdicts(j, j') && !e.EvExit?
    requires forall g :: 0 <= g < |j.groups| ==> !Aborts(j, es, e, g)
    ensures Judged(j, es, e, j') == true
  {
  }

  lemma LaunchSame(j: Job, g: nat, ranks: seq<nat>)
    requires HasRanks(j, g, ranks)
    ensures SameVerdicts(j, LaunchOk(j, g, ranks)) == true && SameVerdicts(j, DropBlock(j, g, ranks)) == true
  {
  }

  lemma SuspendSame(j: Job, g: nat, r: nat)
    requires HasRank(j, g, r)
    ensures SameVerdicts(j, SuspendResult(j, g, r)) == true
  {
    var j' := SuspendResult(j, g, r);
    SuspendedSame(j.groups[g], r, j'.groups[g].numPendingKills);
    assert j'.groups == j.groups[g := Suspended(j.groups[g], r).(numPendingKills := j'.groups[g].numPendingKills)];
  }

  lemma SuspendedSame(pg: Group, r: nat, kills: int)
    requires r < |pg.procs|
    ensures var pg' := Suspended(pg, r).(numPendingKills := kills);
            && pg'.aborted == pg.aborted && |pg'.procs| == |pg.procs|
            && forall i :: 0 <= i < |pg.procs| ==> SameVerdict(pg.procs[i], pg'.procs[i])
  {
  }

  lemma KillSame(j: Job, g: nat, r: nat)
    requires HasRank(j, g, r)
    ensures SameVerdicts(j, KillResult(j, g, r)) == true
  {
  }

  lemma FlagSame(j: Job, g: nat, r: nat)
    requires HasRank(j, g, r)
    ensures SameVerdicts(j, Init(j, g, r)) == true && SameVerdicts(j, Finalize(j, g, r)) == true
  {
  }

  lemma NewJudged(j: Job, es: seq<Event>, e: Event)
    requires Enabled(j, e) && (e.EvStartDbs? || e.EvAddDbs?)
    ensures Judged(j, es, e, Apply(j, e)) == true
  {
  }

  lemma WalkJudged(j: Job, es: seq<Event>, e: Event, j1: Job, j': Job)
    requires Enabled(j, e) && SameVerdicts(j, j1) && Walked(j1, j', |j1.groups|)
    requires e.EvCmdError? || (e.EvLaunchFailed? && !Settles(j, e.g, e.ranks))
    ensures Judged(j, es, e, j') == true
  {
    forall g | 0 <= g < |j.groups| ensures Aborts(j, es, e, g) && j'.groups[g].aborted {
      assert j'.groups[g].aborted && GroupVerdict(j1.groups[g], j'.groups[g], 0, FatalError, -1);
    }
    assert AllAborted(j1, |j1.groups|) <==> !FirstFor(j, es, e);
    forall g, r | 0 <= g < |j.groups| && 0 <= r < |j.groups[g].procs|
      ensures RankVerdict(j, es, e, g, r, j'.groups[g].procs[r])
    {
      assert GroupVerdict(j1.groups[g], j'.groups[g], 0, FatalError, -1);
      assert Verdict(j1.groups[g].procs[r], j'.groups[g].procs[r], r == 0, FatalError, -1);
      assert SameVerdict(j.groups[g].procs[r], j1.groups[g].procs[r]);
    }
  }

  /** One group is aborted, for rank q. */
  lemma OneJudged(j: Job, es: seq<Event>, e: Event, g: nat, q: nat, why: AbortReason, code: int, j': Job)
    requires Enabled(j, e) && HasRank(j, g, q) && (e.EvAbortJob? || e.EvCtrlC?)
    requires forall h: nat :: Aborts(j, es, e, h) <==> h == g
    requires forall r: nat :: Blamed(e, r) <==> r == q
    requires why == Why(es, e) && code == BlameCode(e) && NegatedReason(why, code) == AbortCode(es, e)
    requires OthersSame(j, j', g) && GroupVerdict(j.groups[g], j'.groups[g], q, why, code) && j'.groups[g].aborted
    requires j'.exitCode == if j.groups[g].aborted then j.exitCode else NegatedReason(why, code)
    ensures Judged(j, es, e, j') == true
  {
    assert FirstFor(j, es, e) <==> !j.groups[g].aborted;
    forall h, r | 0 <= h < |j.groups| && 0 <= r < |j.groups[h].procs|
      ensures RankVerdict(j, es, e, h, r, j'.groups[h].procs[r])
    {
      if h == g {
        assert Verdict(j.groups[g].procs[r], j'.groups[g].procs[r], r == q, why, code);
      }
    }
  }

  lemma RequestJudged(j: Job, es: seq<Event>, g: nat, r: nat, intern: bool, code: int)
    requires HasRank(j, g, r)
    ensures Judged(j, es, EvAbortJob(g, r, intern, code), Apply(j, EvAbortJob(g, r, intern, code))) == true
  {
    var why := if intern then FatalError else AppAbort;
    AbortVerdict(j, g, r, why, code);
    OneJudged(j, es, EvAbortJob(g, r, intern, code), g, r, why, code, AbortJob(j, g, r, why, code));
  }

  lemma CtrlCJudged(j: Job, es: seq<Event>)
    requires Enabled(j, EvCtrlC)
    ensures Judged(j, es, EvCtrlC, Apply(j, EvCtrlC)) == true
  {
    var g := |j.groups| - 1;
    AbortVerdict(j, g, 0, CtrlC, 0);
    OneJudged(j, es, EvCtrlC, g, 0, CtrlC, 0, AbortJob(j, g, 0, CtrlC, 0));
  }

  lemma CmdErrorJudged(j: Job, es: seq<Event>)
    requires Populated(j)
    ensures Judged(j, es, EvCmdError, Apply(j, EvCmdError)) == true
  {
    var j' := AbortAll(j, |j.groups|);
    AbortAllVerdict(j, j', |j.groups|);
    WalkJudged(j, es, EvCmdError, j, j');
  }

  lemma SettledCounts(j: Job, g: nat, ranks: seq<nat>)
    requires GroupsInv(j) && HasRanks(j, g, ranks) && Launch(g, ranks) in j.outstanding
    ensures var pg := DropBlock(j, g, ranks).groups[g]; pg.aborted && pg.numPendingSuspends == 0 <==> Settles(j, g, ranks)
  {
    var j1 := DropBlock(j, g, ranks);
    var ps, ps' := j.groups[g].procs, j1.groups[g].procs;
    DroppedCounts(j, g, ranks);
    WeightsNonNegative(ps', g, j1.outstanding);
    assert InvOf(j, g);
    forall r | 0 <= r < |ps|
      ensures AwaitedSuspend(ps'[r], j1.outstanding[Suspend(g, r)]) == 0 <==> r !in AwaitedRanks(j, g) || r in ranks
    {
      DroppedRank(j, g, ranks, r);
    }
  }

  lemma DroppedCounts(j: Job, g: nat, ranks: seq<nat>)
    requires GroupsInv(j) && HasRanks(j, g, ranks) && Launch(g, ranks) in j.outstanding
    ensures var j1 := DropBlock(j, g, ranks);
            && j1.groups[g].numPendingSuspends == Sum(SuspendWeights(j1.groups[g].procs, g, j1.outstanding))
            && j1.groups[g].aborted == j.groups[g].aborted && |j1.groups[g].procs| == |j.groups[g].procs|
  {
    DropKeeps(j, g, ranks);
  }

  lemma DroppedRank(j: Job, g: nat, ranks: seq<nat>, r: nat)
    requires HasRank(j, g, r) && InvOf(j, g) && HasRanks(j, g, ranks) && Launch(g, ranks) in j.outstanding
    ensures var j1 := DropBlock(j, g, ranks);
            AwaitedSuspend(j1.groups[g].procs[r], j1.outstanding[Suspend(g, r)]) == 0 <==> r !in AwaitedRanks(j, g) || r in ranks
  {
    var pg := j.groups[g];
    assert RankInv(pg.procs[r], g, r, pg.aborted, pg.numPendingSuspends, j.outstanding, j.posted);
    if r in ranks {
      assert LaunchOf(Launch(g, ranks), g) && r in Launch(g, ranks).ranks;
      assert Unresolved(pg.procs, r);
    }
  }

  lemma FailureJudged(j: Job, es: seq<Event>, g: nat, ranks: seq<nat>)
    requires GroupsInv(j) && Enabled(j, EvLaunchFailed(g, ranks))
    ensures Judged(j, es, EvLaunchFailed(g, ranks), LaunchFailed(j, g, ranks)) == true
  {
    var e, j1, j' := EvLaunchFailed(g, ranks), DropBlock(j, g, ranks), LaunchFailed(j, g, ranks);
    LaunchSame(j, g, ranks);
    SettledCounts(j, g, ranks);
    if Settles(j, g, ranks) {
      assert SameVerdicts(j, TearDown(j1));
      SameJudged(j, es, e, j');
    } else {
      AbortAllVerdict(j1, j', |j1.groups|);
      WalkJudged(j, es, e, j1, j');
    }
  }

  // ---- exits -------------------------------------------------------------------------

  /** An exit has been noted, and the group not yet aborted for it. */
  ghost predicate Noted(j: Job, j1: Job, g: nat, r: nat, own: bool, code: int)
    requires HasRank(j, g, r)
  {
    && OthersSame(j, j1, g) && j1.groups[g].aborted == j.groups[g].aborted && |j1.groups[g].procs| == |j.groups[g].procs|
    && (forall i :: 0 <= i < |j.groups[g].procs| && i != r ==> j1.groups[g].procs[i] == j.groups[g].procs[i])
    && j1.groups[g].procs[r].reason == j.groups[g].procs[r].reason
    && j1.groups[g].procs[r].exitCode == (if own then code else j.groups[g].procs[r].exitCode)
    && j1.exitCode == if own && j.exitCode == 0 then code else j.exitCode
  }

  lemma NoteNoted(j: Job, g: nat, r: nat, code: int)
    requires HasRank(j, g, r)
    ensures Noted(j, NoteExitCode(MarkExited(j, g, r), g, r, code), g, r, j.groups[g].procs[r].reason == Terminated, code) == true
    ensures Noted(j, MarkExited(j, g, r), g, r, false, code) == true
  {
  }

  lemma NotedOn(j: Job, j1: Job, g: nat, r: nat, own: bool, code: int)
    requires HasRank(j, g, r) && Noted(j, j1, g, r, own, code)
    ensures Noted(j, NoteNoInit(j1, g), g, r, own, code) == true
  {
  }

  lemma NotedCounts(j: Job, j1: Job, g: nat, r: nat, own: bool, code: int)
    requires HasRank(j, g, r) && Noted(j, j1, g, r, own, code) == true
    ensures Noted(j, CountExit(j1), g, r, own, code) == true
  {
  }

  lemma CountedExit(j: Job)
    ensures CountExit(j).groups == j.groups && CountExit(j).exitCode == j.exitCode
  {
  }

  lemma GoodExitJudged(j: Job, es: seq<Event>, g: nat, r: nat, code: int, j': Job)
    requires Enabled(j, EvExit(g, r, code)) && !BadExit(es, g, r)
    requires Noted(j, j', g, r, OwnExit(j, es, EvExit(g, r, code), g, r), code) == true
    ensures Judged(j, es, EvExit(g, r, code), j') == true
  {
    var e := EvExit(g, r, code);
    forall h, i | 0 <= h < |j.groups| && 0 <= i < |j.groups[h].procs|
      ensures RankVerdict(j, es, e, h, i, j'.groups[h].procs[i])
    {
      if h == g && i != r {
        assert j'.groups[g].procs[i] == j.groups[g].procs[i];
      }
    }
  }

  lemma BadExitJudged(j: Job, es: seq<Event>, g: nat, r: nat, code: int, j1: Job, j': Job)
    requires Enabled(j, EvExit(g, r, code)) && BadExit(es, g, r)
    requires Noted(j, j1, g, r, OwnExit(j, es, EvExit(g, r, code), g, r), code)
    requires var why := Why(es, EvExit(g, r, code));
             && OthersSame(j1, j', g) && GroupVerdict(j1.groups[g], j'.groups[g], r, why, code) && j'.groups[g].aborted
             && j'.exitCode == if j1.groups[g].aborted then j1.exitCode else NegatedReason(why, code)
    ensures Judged(j, es, EvExit(g, r, code), j') == true
  {
    var e := EvExit(g, r, code);
    assert FirstFor(j, es, e) <==> !j.groups[g].aborted;
    forall h, i | 0 <= h < |j.groups| && 0 <= i < |j.groups[h].procs|
      ensures RankVerdict(j, es, e, h, i, j'.groups[h].procs[i])
    {
      if h == g {
        assert Verdict(j1.groups[g].procs[i], j'.groups[g].procs[i], i == r, Why(es, e), code);
      }
    }
  }

  /** What the group and the rank know of the run. */
  lemma ExitKnows(j: Job, es: seq<Event>, g: nat, r: nat)
    requires Recorded(j, es) == true && HasRank(j, g, r)
    ensures var (pg, p) := (j.groups[g], j.groups[g].procs[r]);
            && (p.suspended <==> WasSuspended(es, g, r)) && (p.initCalled <==> Inited(es, g, r))
            && (p.finalizeCalled <==> Finalized(es, g, r)) && (pg.anyInit <==> SomeInit(es, g))
  {
    assert GroupRecord(j.groups[g], es, g);
    assert RankRecord(j.groups[g].procs[r], es, g, r);
  }

  /** The paths of mpiexec_handle_exit_command. */
  lemma ExitPaths(j: Job, g: nat, r: nat, code: int)
    requires HasRank(j, g, r)
    ensures var (pg, p, j0) := (j.groups[g], j.groups[g].procs[r], MarkExited(j, g, r));
            var (j1, j') := (NoteExitCode(j0, g, r, code), ExitOfRank(j, g, r, code));
            if p.suspended then j' == j0
            else if p.initCalled then j' == if p.finalizeCalled then j1 else AbortJob(j1, g, r, ExitNoFinalize, code)
            else j' == if pg.anyInit then AbortJob(j1, g, r, ExitNoInit, code) else NoteNoInit(j1, g)
  {
  }

  lemma ExitJudged(j: Job, es: seq<Event>, g: nat, r: nat, code: int)
    requires Recorded(j, es) == true && Enabled(j, EvExit(g, r, code))
    ensures Judged(j, es, EvExit(g, r, code), Exit(j, g, r, code)) == true
  {
    var e, j0 := EvExit(g, r, code), MarkExited(j, g, r);
    var j1, j' := NoteExitCode(j0, g, r, code), ExitOfRank(j, g, r, code);
    ExitKnows(j, es, g, r);
    ExitPaths(j, g, r, code);
    NoteNoted(j, g, r, code);
    CountedExit(j');
    if BadExit(es, g, r) {
      AbortVerdict(j1, g, r, Why(es, e), code);
      BadExitJudged(j, es, g, r, code, j1, CountExit(j'));
    } else {
      if !j.groups[g].procs[r].suspended {
        NotedOn(j, j1, g, r, j.groups[g].procs[r].reason == Terminated, code);
      }
      NotedCounts(j, j', g, r, OwnExit(j, es, e, g, r), code);
      GoodExitJudged(j, es, g, r, code, CountExit(j'));
    }
  }

  // ---- every run ---------------------------------------------------------------------

  lemma SameEventJudged(j: Job, es: seq<Event>, e: Event)
    requires Enabled(j, e) && (e.EvLaunchOk? || e.EvSuspendResult? || e.EvKillResult? || e.EvInit? || e.EvFinalize?)
    ensures Judged(j, es, e, Apply(j, e)) == true
  {
    match e {
      case EvLaunchOk(g, ranks) => LaunchSame(j, g, ranks);
      case EvSuspendResult(g, r) => SuspendSame(j, g, r);
      case EvKillResult(g, r) => KillSame(j, g, r);
      case EvInit(g, r) => FlagSame(j, g, r);
      case EvFinalize(g, r) => FlagSame(j, g, r);
    }
    SameJudged(j, es, e, Apply(j, e));
  }

  lemma EventJudged(j: Job, es: seq<Event>, e: Event)
    requires Recorded(j, es) == true && Inv(j) == true && Enabled(j, e)
    ensures Judged(j, es, e, Apply(j, e)) == true
  {
    match e {
      case EvStartDbs(_) => NewJudged(j, es, e);
      case EvAddDbs(_, _) => NewJudged(j, es, e);
      case EvLaunchFailed(g, ranks) => FailureJudged(j, es, g, ranks);
      case EvExit(g, r, code) => ExitJudged(j, es, g, r, code);
      case EvAbortJob(g, r, intern, code) => RequestJudged(j, es, g, r, intern, code);
      case EvCtrlC => CtrlCJudged(j, es);
      case EvCmdError => CmdErrorJudged(j, es);
      case _ => SameEventJudged(j, es, e);
    }
  }

  lemma RunJudged(nproc: int, es: seq<Event>, e: Event)
    requires IsRun(Initial(nproc), es) && Enabled(Run(Initial(nproc), es), e)
    ensures Judged(Run(Initial(nproc), es), es, e, Apply(Run(Initial(nproc), es), e)) == true
  {
    var j := Run(Initial(nproc), es);
    InitialInv(nproc);
    RunKeepsInv(Initial(nproc), es);
    RunRecords(Initial(nproc), [], es);
    assert [] + es == es;
    EventJudged(j, es, e);
  }

  predicate IsAborted(j: Job, g: nat) { g < |j.groups| && j.groups[g].aborted }

  /** After any run: an event aborts exactly the groups it is a reason to abort. */
  lemma AbortedIff(nproc: int, es: seq<Event>, e: Event, g: nat)
    requires IsRun(Initial(nproc), es) && Enabled(Run(Initial(nproc), es), e) && g < |Run(Initial(nproc), es).groups|
    ensures var j := Run(Initial(nproc), es);
            IsAborted(Apply(j, e), g) <==> IsAborted(j, g) || Aborts(j, es, e, g)
  {
    RunJudged(nproc, es, e);
  }

  /**
   An exit aborts the group exactly when it was not forced by a suspend and comes between init
   and finalize, or without init beside a rank that has called it.
   */
  lemma ExitAborts(nproc: int, es: seq<Event>, g: nat, r: nat, code: int)
    requires IsRun(Initial(nproc), es) && Enabled(Run(Initial(nproc), es), EvExit(g, r, code))
    ensures var j := Run(Initial(nproc), es);
            IsAborted(Apply(j, EvExit(g, r, code)), g) <==>
              || IsAborted(j, g)
              || (EvSuspendResult(g, r) !in es && EvInit(g, r) in es && EvFinalize(g, r) !in es)
              || (EvSuspendResult(g, r) !in es && EvInit(g, r) !in es && exists q :: EvInit(g, q) in es)
  {
    AbortedIff(nproc, es, EvExit(g, r, code), g);
    assert SomeInit(es, g) <==> exists q :: EvInit(g, q) in es by {
      if q :| EvInit(g, q) in es { assert Inited(es, g, q); }
    }
  }

  /** The first blame stays with a rank; the exit code is that of the last, or of its own exit. */
  lemma BlameIs(nproc: int, es: seq<Event>, e: Event, g: nat, r: nat)
    requires IsRun(Initial(nproc), es) && Enabled(Run(Initial(nproc), es), e) && HasRank(Run(Initial(nproc), es), g, r)
    ensures var (j, j') := (Run(Initial(nproc), es), Apply(Run(Initial(nproc), es), e));
            HasRank(j', g, r) && RankVerdict(j, es, e, g, r, j'.groups[g].procs[r])
  {
    RunJudged(nproc, es, e);
  }

  /** mpiexec returns -1 to -4 or the code of the abort request, or else the first exit code that is not 0. */
  lemma ExitCodeIs(nproc: int, es: seq<Event>, e: Event)
    requires IsRun(Initial(nproc), es) && Enabled(Run(Initial(nproc), es), e)
    ensures var j := Run(Initial(nproc), es);
            Apply(j, e).exitCode == ExitCodeAfter(j, es, e)
  {
    RunJudged(nproc, es, e);
  }

  /** An init is refused exactly when some rank had left, of its own accord, before the group's first init. */
  lemma InitRefused(nproc: int, es: seq<Event>, g: nat)
    requires IsRun(Initial(nproc), es) && g < |Run(Initial(nproc), es).groups|
    ensures Run(Initial(nproc), es).groups[g].anyNoInitExit <==> SomeEarlyExit(es, g)
  {
    FlagsAreHistory(nproc, es, g);
  }

  /** A code that is not 0 stays when every group is aborted and none is added. */
  lemma {:induction false} ExitCodeStays(j: Job, past: seq<Event>, es: seq<Event>)
    requires Recorded(j, past) == true && Inv(j) == true && IsRun(j, es)
    requires AllAborted(j, |j.groups|) && j.groups != [] && j.exitCode != 0 && forall e :: e in es ==> !e.EvAddDbs?
    ensures Run(j, es).exitCode == j.exitCode
    decreases |es|
  {
    if es != [] {
      var j' := Apply(j, es[0]);
      EventJudged(j, past, es[0]);
      RecordOn(j, past, es[0]);
      StepKeepsInv(j, es[0]);
      EventSteps(j, es[0], past);
      ExitCodeStays(j', past + [es[0]], es[1..]);
    }
  }
}
