/**
 Every step of every run keeps the job invariant: the per-group lemmas of JobInvariants put
 together with the tear-down and with the groups the step does not touch.
 */
module JobSafety {
  import opened Sums
  import opened JobModel
  import opened JobInvariants

  /** j' differs from j in group g, and on the wire in commands of g and the close command. */
  ghost predicate TouchesOnly(j: Job, j': Job, g: nat) {
    && g < |j.groups| && |j'.groups| == |j.groups|
    && (forall h :: 0 <= h < |j.groups| && h != g ==> j'.groups[h] == j.groups[h])
    && |j'.groups[g].procs| == |j.groups[g].procs|
    && (forall c: Command :: !c.Close? && c.group != g ==>
          j'.outstanding[c] == j.outstanding[c] && j'.posted[c] == j.posted[c])
    && (j.closing ==> j'.closing)
  }

  /** Every command that is new in j' belongs to a rank the job knows. */
  ghost predicate FreshKnown(j: Job, j': Job) {
    forall c :: c in j'.posted || c in j'.outstanding ==> c in j.posted || c in j.outstanding || KnownCommand(j, c)
  }

  predicate ClosedOnce(j: Job) {
    j.posted[Close] == (if j.closing then 1 else 0)
  }

  ghost predicate Framed(j: Job, j': Job, g: nat) {
    && TouchesOnly(j, j', g)
    && FreshKnown(j, j')
    && (ClosedOnce(j) ==> ClosedOnce(j'))
    && SameTotals(j, j')
  }

  lemma StepKeepsGroups(j: Job, j': Job, g: nat)
    requires GroupsInv(j) && TouchesOnly(j, j', g) && FreshKnown(j, j') && ClosedOnce(j')
    requires GroupInv(j'.groups[g], g, j'.outstanding, j'.posted, j'.closing)
    ensures GroupsInv(j') == true
  {
    forall h | 0 <= h < |j'.groups| ensures InvOf(j', h) {
      if h != g {
        OtherGroupKept(j, j', g, h);
      }
    }
    forall c | c in j'.posted || c in j'.outstanding ensures KnownCommand(j', c) {
      assert KnownCommand(j, c);
    }
  }

  lemma OtherGroupKept(j: Job, j': Job, g: nat, h: nat)
    requires h < |j.groups| && h != g && InvOf(j, h) && TouchesOnly(j, j', g)
    ensures InvOf(j', h)
  {
    GroupFrame(j.groups[h], h, j.outstanding, j.posted, j.closing, j'.outstanding, j'.posted, j'.closing);
  }

  /** The counts of exits and ranks, which only exits and new groups change. */
  ghost predicate SameTotals(j: Job, j': Job) {
    && |j'.groups| == |j.groups|
    && j'.nproc == j.nproc && j'.nprocExited == j.nprocExited
    && (j.closing ==> j'.closing)
    && forall h :: 0 <= h < |j.groups| ==>
         j'.groups[h].numExited == j.groups[h].numExited && SameExits(j.groups[h].procs, j'.groups[h].procs)
  }

  ghost predicate SameExits(ps: seq<Proc>, ps': seq<Proc>) {
    |ps'| == |ps| && forall r :: 0 <= r < |ps| ==> ps'[r].exited == ps[r].exited
  }

  lemma TotalsFrame(j: Job, j': Job)
    requires SameTotals(j, j') && TotalsInv(j)
    ensures TotalsInv(j')
  {
    assert Exits(j') == Exits(j);
    assert Sizes(j') == Sizes(j);
    if EveryoneExited(j') {
      forall h | 0 <= h < |j.groups| ensures AllExited(j.groups[h]) {
        assert AllExited(j'.groups[h]) && SameExits(j.groups[h].procs, j'.groups[h].procs);
      }
    }
  }

  // ---- frames compose ----------------------------------------------------------------

  lemma FramedThen(j: Job, j1: Job, j2: Job, g: nat)
    requires Framed(j, j1, g) == true && Framed(j1, j2, g) == true
    ensures Framed(j, j2, g) == true
  {
    SameTotalsThen(j, j1, j2);
    forall c | c in j2.posted || c in j2.outstanding
      ensures c in j.posted || c in j.outstanding || KnownCommand(j, c)
    {
      assert c in j1.posted || c in j1.outstanding || KnownCommand(j1, c);
      assert KnownCommand(j1, c) ==> KnownCommand(j, c);
    }
  }

  lemma SameTotalsThen(j: Job, j1: Job, j2: Job)
    requires SameTotals(j, j1) && SameTotals(j1, j2)
    ensures SameTotals(j, j2)
  {
    forall h | 0 <= h < |j.groups|
      ensures j2.groups[h].numExited == j.groups[h].numExited && SameExits(j.groups[h].procs, j2.groups[h].procs)
    {
      assert SameExits(j.groups[h].procs, j1.groups[h].procs) && SameExits(j1.groups[h].procs, j2.groups[h].procs);
    }
  }

  lemma SetFrame(j: Job, g: nat, pg: Group)
    requires g < |j.groups| && SameExits(j.groups[g].procs, pg.procs) && pg.numExited == j.groups[g].numExited
    ensures Framed(j, SetGroup(j, g, pg), g) == true
  {
  }

  lemma ExitCodeFrame(j: Job, g: nat, code: int)
    requires g < |j.groups|
    ensures Framed(j, j.(exitCode := code), g) == true
  {
    SameTotalsRefl(j);
  }

  /** Commands for ranks of group g. */
  ghost predicate CommandsOf(j: Job, g: nat, cs: multiset<Command>) {
    forall c :: c in cs ==> (c.Suspend? || c.Kill?) && c.group == g && HasRank(j, g, c.rank)
  }

  lemma PostFrame(j: Job, g: nat, cs: multiset<Command>)
    requires g < |j.groups| && CommandsOf(j, g, cs)
    ensures Framed(j, PostAll(j, cs), g) == true
  {
    forall c: Command | !c.Close? && c.group != g ensures cs[c] == 0 {
      assert c !in cs;
    }
    assert Close !in cs;
    SameTotalsRefl(j);
  }

  lemma AnswerFrame(j: Job, g: nat, c: Command)
    requires g < |j.groups| && !c.Close? && c.group == g
    ensures Framed(j, Answered(j, c), g) == true
  {
    SameTotalsRefl(j);
  }

  lemma SameTotalsRefl(j: Job)
    ensures SameTotals(j, j)
  {
  }

  // ---- mpiexec_abort_job -------------------------------------------------------------

  lemma BlameFrame(j: Job, g: nat, r: nat, reason: AbortReason, code: int)
    requires HasRank(j, g, r)
    ensures Framed(j, BlameRank(j, g, r, reason, code), g) == true
  {
    SetFrame(j, g, BlameRank(j, g, r, reason, code).groups[g]);
  }

  lemma BlameKeeps(j: Job, g: nat, r: nat, reason: AbortReason, code: int)
    requires GroupsInv(j) && HasRank(j, g, r)
    ensures GroupsInv(BlameRank(j, g, r, reason, code)) == true
  {
    var j' := BlameRank(j, g, r, reason, code);
    BlameFrame(j, g, r, reason, code);
    assert InvOf(j, g);
    TouchKeepsGroup(j.groups[g], j'.groups[g], g, r, j.outstanding, j.posted, j.closing);
    StepKeepsGroups(j, j', g);
  }

  lemma SuspendRoundFrame(j: Job, g: nat)
    requires g < |j.groups|
    ensures Framed(j, SuspendRound(j, g), g) == true
  {
    var pg := SuspendRound(j, g).groups[g];
    var cs := SuspendCmds(g, j.groups[g].procs, |j.groups[g].procs|);
    SetFrame(j, g, pg);
    SuspendCmdsAre(g, j.groups[g].procs, |j.groups[g].procs|);
    PostFrame(SetGroup(j, g, pg), g, cs);
    FramedThen(j, SetGroup(j, g, pg), PostAll(SetGroup(j, g, pg), cs), g);
  }

  lemma TearDownFramed(j: Job, j': Job, g: nat)
    requires Framed(j, j', g) == true
    ensures Framed(j, TearDown(j'), g) == true
  {
    assert FreshKnown(j, TearDown(j')) by {
      forall c | c in TearDown(j').posted || c in TearDown(j').outstanding
        ensures c in j.posted || c in j.outstanding || KnownCommand(j, c)
      {
        if !c.Close? { assert c in j'.posted || c in j'.outstanding; }
      }
    }
  }

  /** A group invariant that holds once the tree closes holds after the tear-down. */
  lemma GroupClosed(j: Job, g: nat)
    requires g < |j.groups| && GroupInv(j.groups[g], g, j.outstanding, j.posted, true)
    ensures InvOf(TearDown(j), g)
  {
    var j' := TearDown(j);
    GroupFrame(j.groups[g], g, j.outstanding, j.posted, true, j'.outstanding, j'.posted, true);
  }

  lemma FirstAbortKeeps(j: Job, g: nat, code: int)
    requires GroupsInv(j) && g < |j.groups| && !j.groups[g].aborted
    ensures GroupsInv(FirstAbort(j, g, code)) == true
  {
    var j1 := SuspendRound(j, g);
    var j2 := j1.(exitCode := code);
    SuspendRoundFrame(j, g);
    ExitCodeFrame(j1, g, code);
    FramedThen(j, j1, j2, g);
    SuspendRoundInv(j, g);
    if j2.groups[g].numPendingSuspends == 0 {
      GroupClosed(j2, g);
      TearDownFramed(j, j2, g);
      StepKeepsGroups(j, TearDown(j2), g);
    } else {
      StepKeepsGroups(j, j2, g);
    }
  }

  lemma SuspendRoundInv(j: Job, g: nat)
    requires g < |j.groups| && InvOf(j, g) && !j.groups[g].aborted
    ensures var j' := SuspendRound(j, g);
            GroupInv(j'.groups[g], g, j'.outstanding, j'.posted, j'.closing || j'.groups[g].numPendingSuspends == 0)
  {
    AbortRoundKeepsGroup(j.groups[g], g, j.outstanding, j.posted, j.closing);
  }

  lemma AbortJobFrame(j: Job, g: nat, r: nat, reason: AbortReason, code: int)
    requires HasRank(j, g, r)
    ensures Framed(j, AbortJob(j, g, r, reason, code), g) == true
  {
    var j1 := BlameRank(j, g, r, reason, code);
    var code' := if reason.AppAbort? then code else -ReasonCode(reason);
    BlameFrame(j, g, r, reason, code);
    AbortRoundFrame(j, j1, g, code');
    AbortEnds(j, g, r, reason, code, j1, SuspendRound(j1, g).(exitCode := code'));
  }

  /** Where an abort ends: at once, or after the suspend round, or with the tree closing. */
  lemma AbortEnds(j: Job, g: nat, r: nat, reason: AbortReason, code: int, j1: Job, j2: Job)
    requires HasRank(j, g, r) && j1 == BlameRank(j, g, r, reason, code)
    requires j2 == SuspendRound(j1, g).(exitCode := if reason.AppAbort? then code else -ReasonCode(reason))
    ensures var j' := AbortJob(j, g, r, reason, code); j' == j1 || j' == j2 || j' == TearDown(j2)
  {
  }

  lemma AbortRoundFrame(j: Job, j1: Job, g: nat, code: int)
    requires g < |j1.groups| && Framed(j, j1, g) == true
    ensures Framed(j, SuspendRound(j1, g).(exitCode := code), g) == true
    ensures Framed(j, TearDown(SuspendRound(j1, g).(exitCode := code)), g) == true
  {
    var j2 := SuspendRound(j1, g);
    SuspendRoundFrame(j1, g);
    ExitCodeFrame(j2, g, code);
    FramedThen(j, j1, j2, g);
    FramedThen(j, j2, j2.(exitCode := code), g);
    TearDownFramed(j, j2.(exitCode := code), g);
  }

  lemma AbortJobKeeps(j: Job, g: nat, r: nat, reason: AbortReason, code: int)
    requires GroupsInv(j) && HasRank(j, g, r)
    ensures GroupsInv(AbortJob(j, g, r, reason, code)) == true
  {
    BlameKeeps(j, g, r, reason, code);
    var j1 := BlameRank(j, g, r, reason, code);
    if !j1.groups[g].aborted {
      FirstAbortKeeps(j1, g, if reason.AppAbort? then code else -ReasonCode(reason));
    }
  }

  lemma AbortRoundKeepsGroup(pg: Group, g: nat, out: multiset<Command>, posted: multiset<Command>, closing: bool)
    requires GroupInv(pg, g, out, posted, closing) && !pg.aborted
    ensures var cs := SuspendCmds(g, pg.procs, |pg.procs|);
            var pending := pg.numPendingSuspends + LiveCount(pg.procs, |pg.procs|);
            var pg' := pg.(aborted := true, procs := AbortProcs(pg.procs), numPendingSuspends := pending);
            GroupInv(pg', g, out + cs, posted + cs, closing || pending == 0)
  {
    AbortRoundKeepsCounts(pg, g, out, posted, closing);
    SuspendCmdsAre(g, pg.procs, |pg.procs|);
    LaunchFrame(pg.procs, AbortProcs(pg.procs), g, out, out + SuspendCmds(g, pg.procs, |pg.procs|));
  }

  lemma {:induction false} AbortAllKeeps(j: Job, k: nat)
    requires GroupsInv(j) && Populated(j) && k <= |j.groups|
    ensures GroupsInv(AbortAll(j, k)) && SameTotals(j, AbortAll(j, k)) == true
    decreases k
  {
    if k == 0 {
      SameTotalsRefl(j);
    } else {
      var j' := AbortJob(j, k - 1, 0, FatalError, -1);
      AbortJobKeepsShape(j, k - 1, 0, FatalError, -1);
      AbortJobKeeps(j, k - 1, 0, FatalError, -1);
      AbortJobFrame(j, k - 1, 0, FatalError, -1);
      AbortAllKeeps(j', k - 1);
      SameTotalsThen(j, j', AbortAll(j', k - 1));
    }
  }

  // ---- answers -----------------------------------------------------------------------

  lemma NotedFrame(j: Job, g: nat, c: Command, pg: Group)
    requires g < |j.groups| && !c.Close? && c.group == g
    requires SameExits(j.groups[g].procs, pg.procs) && pg.numExited == j.groups[g].numExited
    ensures Framed(j, SetGroup(Answered(j, c), g, pg), g) == true
  {
    var j1 := Answered(j, c);
    AnswerFrame(j, g, c);
    SetFrame(j1, g, pg);
    FramedThen(j, j1, SetGroup(j1, g, pg), g);
  }

  lemma KillRoundFrame(j: Job, g: nat)
    requires g < |j.groups|
    ensures Framed(j, KillRound(j, g), g) == true
  {
    var pg := KillRound(j, g).groups[g];
    KillCmdsAre(g, pg.procs, |pg.procs|);
    SetFrame(j, g, pg);
    PostFrame(SetGroup(j, g, pg), g, KillCmds(g, pg.procs, |pg.procs|));
    FramedThen(j, SetGroup(j, g, pg), KillRound(j, g), g);
  }

  lemma SuspendResultFrame(j: Job, g: nat, r: nat)
    requires HasRank(j, g, r)
    ensures Framed(j, SuspendResult(j, g, r), g) == true
  {
    var pg := Suspended(j.groups[g], r);
    var j1 := SetGroup(Answered(j, Suspend(g, r)), g, pg);
    NotedFrame(j, g, Suspend(g, r), pg);
    KillRoundFrame(j1, g);
    FramedThen(j, j1, KillRound(j1, g), g);
  }

  lemma SuspendResultInv(j: Job, g: nat, r: nat)
    requires HasRank(j, g, r) && InvOf(j, g) && Suspend(g, r) in j.outstanding
    ensures InvOf(SuspendResult(j, g, r), g)
  {
    SuspendAnswerKeepsGroup(j.groups[g], g, r, j.outstanding, j.posted, j.closing);
  }

  lemma SuspendResultKeeps(j: Job, g: nat, r: nat)
    requires GroupsInv(j) && HasRank(j, g, r) && Suspend(g, r) in j.outstanding
    ensures GroupsInv(SuspendResult(j, g, r)) == true
  {
    SuspendResultFrame(j, g, r);
    SuspendResultInv(j, g, r);
    StepKeepsGroups(j, SuspendResult(j, g, r), g);
  }

  lemma KillResultFrame(j: Job, g: nat, r: nat)
    requires HasRank(j, g, r)
    ensures Framed(j, KillResult(j, g, r), g) == true
  {
    var pg := j.groups[g].(numPendingKills := j.groups[g].numPendingKills - 1);
    var j1 := SetGroup(Answered(j, Kill(g, r)), g, pg);
    NotedFrame(j, g, Kill(g, r), pg);
    if pg.numPendingKills == 0 && pg.numPendingSuspends == 0 {
      TearDownFramed(j, j1, g);
      assert KillResult(j, g, r) == TearDown(j1);
    } else {
      assert KillResult(j, g, r) == j1;
    }
  }

  lemma KillResultKeeps(j: Job, g: nat, r: nat)
    requires GroupsInv(j) && HasRank(j, g, r) && Kill(g, r) in j.outstanding
    ensures GroupsInv(KillResult(j, g, r)) == true
  {
    KillResultFrame(j, g, r);
    assert InvOf(j, g);
    KillAnswerKeepsGroup(j.groups[g], g, r, j.outstanding, j.posted, j.closing);
    var pg := j.groups[g].(numPendingKills := j.groups[g].numPendingKills - 1);
    if pg.numPendingKills == 0 && pg.numPendingSuspends == 0 {
      GroupClosed(SetGroup(Answered(j, Kill(g, r)), g, pg), g);
    }
    StepKeepsGroups(j, KillResult(j, g, r), g);
  }

  lemma LaunchOkFrame(j: Job, g: nat, ranks: seq<nat>)
    requires HasRanks(j, g, ranks) && NoDup(ranks)
    ensures Framed(j, LaunchOk(j, g, ranks), g) == true
  {
    var pg := LaunchOk(j, g, ranks).groups[g];
    var j1 := SetGroup(Answered(j, Launch(g, ranks)), g, pg);
    var cs := DelayedSuspends(g, j.groups[g].procs, ranks, |ranks|);
    NotedFrame(j, g, Launch(g, ranks), pg);
    DelayedSuspendsAre(g, j.groups[g].procs, ranks, |ranks|);
    assert ranks[..|ranks|] == ranks;
    PostFrame(j1, g, cs);
    FramedThen(j, j1, PostAll(j1, cs), g);
  }

  lemma LaunchOkKeeps(j: Job, g: nat, ranks: seq<nat>)
    requires GroupsInv(j) && HasRanks(j, g, ranks) && Launch(g, ranks) in j.outstanding
    ensures GroupsInv(LaunchOk(j, g, ranks)) && SameTotals(j, LaunchOk(j, g, ranks)) == true
  {
    assert InvOf(j, g);
    LaunchRanksFresh(j.groups[g].procs, g, ranks, j.outstanding);
    LaunchOkKeepsGroup(j.groups[g], g, ranks, j.outstanding, j.posted, j.closing);
    LaunchOkFrame(j, g, ranks);
    StepKeepsGroups(j, LaunchOk(j, g, ranks), g);
  }

  lemma DropFrame(j: Job, g: nat, ranks: seq<nat>)
    requires HasRanks(j, g, ranks)
    ensures Framed(j, DropBlock(j, g, ranks), g) == true
  {
    NotedFrame(j, g, Launch(g, ranks), DropBlock(j, g, ranks).groups[g]);
  }

  lemma DropKeeps(j: Job, g: nat, ranks: seq<nat>)
    requires GroupsInv(j) && HasRanks(j, g, ranks) && Launch(g, ranks) in j.outstanding
    ensures var j' := DropBlock(j, g, ranks);
            var last := j'.groups[g].aborted && j'.groups[g].numPendingSuspends == 0;
            && GroupInv(j'.groups[g], g, j'.outstanding, j'.posted, j'.closing || last)
            && GroupsInv(if last then TearDown(j') else j')
  {
    var j1 := DropBlock(j, g, ranks);
    DropFrame(j, g, ranks);
    assert InvOf(j, g);
    DropKeepsGroup(j.groups[g], g, ranks, j.outstanding, j.posted, j.closing);
    if j1.groups[g].aborted && j1.groups[g].numPendingSuspends == 0 {
      GroupClosed(j1, g);
      TearDownFramed(j, j1, g);
      StepKeepsGroups(j, TearDown(j1), g);
    } else {
      StepKeepsGroups(j, j1, g);
    }
  }

  lemma LaunchFailedKeeps(j: Job, g: nat, ranks: seq<nat>)
    requires GroupsInv(j) && HasRanks(j, g, ranks) && Populated(j) && Launch(g, ranks) in j.outstanding
    ensures GroupsInv(LaunchFailed(j, g, ranks)) && SameTotals(j, LaunchFailed(j, g, ranks)) == true
  {
    var j1 := DropBlock(j, g, ranks);
    DropKeeps(j, g, ranks);
    DropFrame(j, g, ranks);
    if j1.groups[g].aborted && j1.groups[g].numPendingSuspends == 0 {
      TearDownFramed(j, j1, g);
    } else {
      AbortAllKeeps(j1, |j1.groups|);
      SameTotalsThen(j, j1, AbortAll(j1, |j1.groups|));
    }
  }

  // ---- exits -------------------------------------------------------------------------

  lemma MarkExitedKeeps(j: Job, g: nat, r: nat)
    requires GroupsInv(j) && HasRank(j, g, r) && !j.groups[g].procs[r].exited
    ensures GroupsInv(MarkExited(j, g, r)) == true
  {
    assert InvOf(j, g);
    ExitKeepsGroup(j.groups[g], g, r, j.outstanding, j.posted, j.closing);
    StepKeepsGroups(j, MarkExited(j, g, r), g);
  }

  lemma NoteExitCodeFrame(j: Job, g: nat, r: nat, code: int)
    requires HasRank(j, g, r)
    ensures Framed(j, NoteExitCode(j, g, r, code), g) == true
  {
    var j' := NoteExitCode(j, g, r, code);
    var j1 := SetGroup(j, g, j'.groups[g]);
    SetFrame(j, g, j'.groups[g]);
    ExitCodeFrame(j1, g, j'.exitCode);
    FramedThen(j, j1, j1.(exitCode := j'.exitCode), g);
    assert j' == j1.(exitCode := j'.exitCode);
  }

  lemma NoteExitCodeInv(j: Job, g: nat, r: nat, code: int)
    requires HasRank(j, g, r) && InvOf(j, g) && j.groups[g].procs[r].reason.Terminated?
    ensures InvOf(NoteExitCode(j, g, r, code), g)
  {
    var pg := j.groups[g];
    var pg' := pg.(procs := pg.procs[r := pg.procs[r].(exitCode := code)]);
    TouchKeepsGroup(pg, pg', g, r, j.outstanding, j.posted, j.closing);
    assert NoteExitCode(j, g, r, code).groups[g] == pg';
  }

  lemma NoteExitCodeKeeps(j: Job, g: nat, r: nat, code: int)
    requires GroupsInv(j) && HasRank(j, g, r)
    ensures GroupsInv(NoteExitCode(j, g, r, code)) == true
  {
    if j.groups[g].procs[r].reason.Terminated? {
      NoteExitCodeFrame(j, g, r, code);
      NoteExitCodeInv(j, g, r, code);
      StepKeepsGroups(j, NoteExitCode(j, g, r, code), g);
    }
  }

  /** Setting what a rank or its group reports about init and finalize. */
  lemma FlagKeeps(j: Job, g: nat, r: nat, pg: Group)
    requires GroupsInv(j) && HasRank(j, g, r)
    requires pg == j.groups[g].(procs := pg.procs, anyInit := pg.anyInit, anyNoInitExit := pg.anyNoInitExit)
    requires |pg.procs| == |j.groups[g].procs|
    requires forall i :: 0 <= i < |pg.procs| && i != r ==> pg.procs[i] == j.groups[g].procs[i]
    requires var p, p' := j.groups[g].procs[r], pg.procs[r];
             p' == p.(initCalled := p'.initCalled, finalizeCalled := p'.finalizeCalled)
    ensures GroupsInv(SetGroup(j, g, pg)) && SameTotals(j, SetGroup(j, g, pg)) == true
  {
    assert InvOf(j, g);
    SetFrame(j, g, pg);
    TouchKeepsGroup(j.groups[g], pg, g, r, j.outstanding, j.posted, j.closing);
    StepKeepsGroups(j, SetGroup(j, g, pg), g);
  }

  /** What an exit does before the count of all exits is looked at. */
  lemma ExitOfRankKeeps(j: Job, g: nat, r: nat, code: int)
    requires GroupsInv(j) && HasRank(j, g, r) && !j.groups[g].procs[r].exited
    ensures var j' := ExitOfRank(j, g, r, code);
            GroupsInv(j') == true && SameTotals(MarkExited(j, g, r), j')
  {
    var j0 := MarkExited(j, g, r);
    MarkExitedKeeps(j, g, r);
    SameTotalsRefl(j0);
    var p := j0.groups[g].procs[r];
    if !p.suspended {
      var j1 := NoteExitCode(j0, g, r, code);
      NoteExitCodeKeeps(j0, g, r, code);
      NoteExitCodeFrame(j0, g, r, code);
      var reason := if p.initCalled then ExitNoFinalize else ExitNoInit;
      AbortJobKeeps(j1, g, r, reason, code);
      AbortJobFrame(j1, g, r, reason, code);
      SameTotalsThen(j0, j1, AbortJob(j1, g, r, reason, code));
      FlagKeeps(j1, g, r, NoteNoInit(j1, g).groups[g]);
      SameTotalsThen(j0, j1, NoteNoInit(j1, g));
    }
  }

  /** All ranks of all groups have exited exactly when the two totals meet. */
  lemma EveryoneExitedCounts(j: Job)
    requires GroupsInv(j) && EveryoneExited(j)
    ensures Sum(Exits(j)) == Sum(Sizes(j))
  {
    forall g | 0 <= g < |j.groups| ensures Exits(j)[g] == Sizes(j)[g] {
      assert InvOf(j, g) && AllExited(j.groups[g]);
      SumConst(ExitWeights(j.groups[g].procs), 1);
    }
    assert Exits(j) == Sizes(j);
  }

  lemma ExitTotals(j: Job, j': Job, g: nat, r: nat)
    requires HasRank(j, g, r) && SameTotals(MarkExited(j, g, r), j')
    ensures Sum(Exits(j')) == Sum(Exits(j)) + 1 && Sizes(j') == Sizes(j)
  {
    var j0 := MarkExited(j, g, r);
    assert Exits(j0) == Exits(j)[g := Exits(j)[g] + 1];
    SumUpdate(Exits(j), g, Exits(j)[g] + 1);
    assert Exits(j') == Exits(j0);
    forall h | 0 <= h < |j.groups| ensures Sizes(j')[h] == Sizes(j)[h] {
      assert SameExits(j0.groups[h].procs, j'.groups[h].procs);
    }
    assert Sizes(j') == Sizes(j);
  }

  lemma ExitKeeps(j: Job, g: nat, r: nat, code: int)
    requires Inv(j) && HasRank(j, g, r) && !j.groups[g].procs[r].exited
    ensures Inv(Exit(j, g, r, code)) == true
  {
    ExitOfRankCounts(j, g, r, code);
    CountExitKeeps(ExitOfRank(j, g, r, code));
  }

  lemma ExitOfRankCounts(j: Job, g: nat, r: nat, code: int)
    requires Inv(j) && HasRank(j, g, r) && !j.groups[g].procs[r].exited
    ensures var j' := ExitOfRank(j, g, r, code);
            GroupsInv(j') == true && j'.groups != [] && j'.nprocExited + 1 == Sum(Exits(j')) && j'.nproc == Sum(Sizes(j'))
  {
    ExitOfRankKeeps(j, g, r, code);
    ExitTotals(j, ExitOfRank(j, g, r, code), g, r);
  }

  lemma CountExitKeeps(j: Job)
    requires GroupsInv(j) == true && j.groups != []
    requires j.nprocExited + 1 == Sum(Exits(j)) && j.nproc == Sum(Sizes(j))
    ensures Inv(CountExit(j)) == true
  {
    var j1 := j.(nprocExited := j.nprocExited + 1);
    CountingKeepsGroups(j, j1);
    assert Exits(j1) == Exits(j) && Sizes(j1) == Sizes(j);
    if j1.nproc == j1.nprocExited {
      TearDownKeepsGroups(j1);
      assert Exits(TearDown(j1)) == Exits(j) && Sizes(TearDown(j1)) == Sizes(j);
    } else if EveryoneExited(j1) {
      EveryoneExitedCounts(j1);
      assert false;
    }
  }

  lemma CountingKeepsGroups(j: Job, j': Job)
    requires GroupsInv(j) && j' == j.(nproc := j'.nproc, nprocExited := j'.nprocExited)
    ensures GroupsInv(j') == true
  {
    assert forall g :: 0 <= g < |j.groups| ==> InvOf(j, g) == InvOf(j', g);
    assert forall c :: KnownCommand(j, c) == KnownCommand(j', c);
  }

  lemma TearDownKeepsGroups(j: Job)
    requires GroupsInv(j)
    ensures GroupsInv(TearDown(j)) == true
  {
    var j' := TearDown(j);
    forall g | 0 <= g < |j.groups| ensures InvOf(j', g) {
      assert InvOf(j, g);
      GroupFrame(j.groups[g], g, j.outstanding, j.posted, j.closing, j'.outstanding, j'.posted, true);
    }
    forall c | c in j'.posted || c in j'.outstanding ensures KnownCommand(j', c) {
      if !c.Close? { assert KnownCommand(j, c); }
    }
  }

  lemma AddGroupKeepsGroups(j: Job, n: nat, blocks: seq<seq<nat>>)
    requires GroupsInv(j) && 0 < n && Deals(blocks, n)
    ensures GroupsInv(AddGroup(j, n, blocks)) == true
  {
    var g := |j.groups|;
    var j' := AddGroup(j, n, blocks);
    BlocksDiffer(blocks, n);
    LaunchCmdsAre(g, blocks, |blocks|);
    AddedGroupInv(j, n, blocks);
    forall h | 0 <= h < |j'.groups| ensures InvOf(j', h) {
      if h < g {
        assert InvOf(j, h);
        GroupFrame(j.groups[h], h, j.outstanding, j.posted, j.closing, j'.outstanding, j'.posted, j'.closing);
      }
    }
    forall c | c in j'.posted || c in j'.outstanding ensures KnownCommand(j', c) {
      if c in j.posted || c in j.outstanding { assert KnownCommand(j, c); }
    }
  }

  lemma AddedGroupInv(j: Job, n: nat, blocks: seq<seq<nat>>)
    requires GroupsInv(j) && 0 < n && Deals(blocks, n)
    ensures InvOf(AddGroup(j, n, blocks), |j.groups|)
  {
    forall c: Command | !c.Close? && c.group == |j.groups| ensures j.outstanding[c] == 0 && j.posted[c] == 0 {
      assert !KnownCommand(j, c);
    }
    NewGroupInv(n, |j.groups|, blocks, j.outstanding, j.posted, j.closing);
  }

  lemma AddGroupKeeps(j: Job, n: nat, blocks: seq<seq<nat>>, nproc: int)
    requires Inv(j) && 0 < n && Deals(blocks, n)
    requires nproc == Sum(Sizes(j)) + n
    ensures Inv(AddGroup(j, n, blocks).(nproc := nproc)) == true
  {
    var j1 := AddGroup(j, n, blocks);
    var j' := j1.(nproc := nproc);
    AddGroupKeepsGroups(j, n, blocks);
    CountingKeepsGroups(j1, j');
    assert Exits(j') == Exits(j) + [0];
    assert Sizes(j') == Sizes(j) + [n];
    SumAppend(Exits(j), 0);
    SumAppend(Sizes(j), n);
    assert !NewGroup(n).procs[0].exited;
    assert !AllExited(j'.groups[|j.groups|]);
  }

  /** Steps that leave the totals alone keep the invariant once they keep the groups. */
  lemma KeepsInv(j: Job, j': Job)
    requires Inv(j) && GroupsInv(j') && SameTotals(j, j')
    ensures Inv(j') == true
  {
    TotalsFrame(j, j');
  }

  lemma StartDbsKeepsInv(j: Job, blocks: seq<seq<nat>>)
    requires Inv(j) && Enabled(j, EvStartDbs(blocks))
    ensures Inv(Apply(j, EvStartDbs(blocks))) == true
  {
    assert Sizes(j) == [];
    AddGroupKeeps(j, j.nproc, blocks, j.nproc);
    assert AddGroup(j, j.nproc, blocks).(nproc := j.nproc) == Apply(j, EvStartDbs(blocks));
  }

  lemma AnswerKeepsInv(j: Job, e: Event)
    requires Inv(j) && Enabled(j, e)
    requires e.EvLaunchOk? || e.EvLaunchFailed? || e.EvSuspendResult? || e.EvKillResult?
    ensures Inv(Apply(j, e)) == true
  {
    match e {
      case EvLaunchOk(g, ranks) => LaunchOkKeeps(j, g, ranks);
      case EvLaunchFailed(g, ranks) => LaunchFailedKeeps(j, g, ranks);
      case EvSuspendResult(g, r) => SuspendResultKeeps(j, g, r); SuspendResultFrame(j, g, r);
      case EvKillResult(g, r) => KillResultKeeps(j, g, r); KillResultFrame(j, g, r);
    }
    KeepsInv(j, Apply(j, e));
  }

  lemma AbortKeepsInv(j: Job, e: Event)
    requires Inv(j) && Enabled(j, e)
    requires e.EvAbortJob? || e.EvCtrlC? || e.EvCmdError?
    ensures Inv(Apply(j, e)) == true
  {
    match e {
      case EvAbortJob(g, r, intern, code) => AbortJobKeeps(j, g, r, if intern then FatalError else AppAbort, code);
                                             AbortJobFrame(j, g, r, if intern then FatalError else AppAbort, code);
      case EvCtrlC => AbortJobKeeps(j, |j.groups| - 1, 0, CtrlC, 0); AbortJobFrame(j, |j.groups| - 1, 0, CtrlC, 0);
      case EvCmdError => AbortAllKeeps(j, |j.groups|);
    }
    KeepsInv(j, Apply(j, e));
  }

  lemma ReportKeepsInv(j: Job, e: Event)
    requires Inv(j) && Enabled(j, e) && (e.EvInit? || e.EvFinalize?)
    ensures Inv(Apply(j, e)) == true
  {
    FlagKeeps(j, e.g, e.r, Apply(j, e).groups[e.g]);
    KeepsInv(j, Apply(j, e));
  }

  lemma OtherKeepsInv(j: Job, e: Event)
    requires Inv(j) && Enabled(j, e) && (e.EvStartDbs? || e.EvAddDbs? || e.EvExit?)
    ensures Inv(Apply(j, e)) == true
  {
    match e {
      case EvStartDbs(blocks) => StartDbsKeepsInv(j, blocks);
      case EvAddDbs(n, blocks) => AddGroupKeeps(j, n, blocks, j.nproc + n);
      case EvExit(g, r, code) => ExitKeeps(j, g, r, code);
    }
  }

  lemma StepKeepsInv(j: Job, e: Event)
    requires Inv(j) && Enabled(j, e)
    ensures Inv(Apply(j, e)) == true
  {
    if e.EvLaunchOk? || e.EvLaunchFailed? || e.EvSuspendResult? || e.EvKillResult? {
      AnswerKeepsInv(j, e);
    } else if e.EvAbortJob? || e.EvCtrlC? || e.EvCmdError? {
      AbortKeepsInv(j, e);
    } else if e.EvInit? || e.EvFinalize? {
      ReportKeepsInv(j, e);
    } else {
      OtherKeepsInv(j, e);
    }
  }

  lemma {:induction false} RunKeepsInv(j: Job, es: seq<Event>)
    requires Inv(j) && IsRun(j, es)
    ensures Inv(Run(j, es)) == true
    decreases |es|
  {
    if es != [] {
      StepKeepsInv(j, es[0]);
      RunKeepsInv(Apply(j, es[0]), es[1..]);
    }
  }

  lemma InitialInv(nproc: int)
    ensures Inv(Initial(nproc)) == true
  {
    assert Exits(Initial(nproc)) == [];
  }
}
