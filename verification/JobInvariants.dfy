/**
 What every step of the job protocol keeps. The counters in a process group are tied to
 the commands on the wire, rank by rank, and the tear-down is tied to both.
 */
module JobInvariants {
  import opened Sums
  import opened JobModel

  // ---- the invariant -----------------------------------------------------------------

  /** A rank the abort is waiting for: its suspend is delayed until it comes up, or on the wire. */
  function AwaitedSuspend(p: Proc, onWire: int): int {
    (if p.suspendPending && !p.launched then 1 else 0) + onWire
  }

  ghost function SuspendWeights(ps: seq<Proc>, g: nat, out: multiset<Command>): seq<int> {
    seq(|ps|, r requires 0 <= r < |ps| => AwaitedSuspend(ps[r], out[Suspend(g, r)]))
  }

  ghost function KillWeights(ps: seq<Proc>, g: nat, out: multiset<Command>): seq<int> {
    seq(|ps|, r requires 0 <= r < |ps| => out[Kill(g, r)])
  }

  ghost function ExitWeights(ps: seq<Proc>): seq<int> {
    seq(|ps|, r requires 0 <= r < |ps| => if ps[r].exited then 1 else 0)
  }

  ghost predicate AllExited(pg: Group) {
    forall r :: 0 <= r < |pg.procs| ==> pg.procs[r].exited
  }

  /** Every rank that is still running has been sent a kill. */
  ghost predicate AllKilled(pg: Group, g: nat, posted: multiset<Command>) {
    forall r :: 0 <= r < |pg.procs| ==> pg.procs[r].exited || posted[Kill(g, r)] == 1
  }

  ghost predicate RankInv(p: Proc, g: nat, r: nat, aborted: bool, pending: int,
                          out: multiset<Command>, posted: multiset<Command>) {
    && out[Suspend(g, r)] <= posted[Suspend(g, r)] <= 1
    && out[Kill(g, r)] <= posted[Kill(g, r)] <= 1
    && (p.launched ==> !p.failedLaunch)
    && (p.suspendPending && !p.launched ==> !p.failedLaunch)
    && (!p.launched ==> posted[Suspend(g, r)] == 0)
    && (!aborted ==> !p.suspendPending && posted[Suspend(g, r)] == 0 && posted[Kill(g, r)] == 0)
    && (posted[Kill(g, r)] > 0 ==> aborted && pending == 0)
  }

  predicate LaunchOf(c: Command, g: nat) {
    c.Launch? && c.group == g
  }

  /** Rank r is still up to the answer of some launch command. */
  ghost predicate Launching(out: multiset<Command>, g: nat, r: nat) {
    exists c :: c in out && LaunchOf(c, g) && r in c.ranks
  }

  predicate Unresolved(ps: seq<Proc>, r: nat) {
    r < |ps| && !ps[r].launched && !ps[r].failedLaunch
  }

  /** The launch commands on the wire deal out exactly the ranks that have neither come up nor failed. */
  ghost predicate LaunchInv(ps: seq<Proc>, g: nat, out: multiset<Command>) {
    && (forall c :: c in out && LaunchOf(c, g) ==> out[c] == 1 && c.ranks != [] && NoDup(c.ranks))
    && (forall c, r :: c in out && LaunchOf(c, g) && r in c.ranks ==> Unresolved(ps, r))
    && (forall c, d, r :: c in out && LaunchOf(c, g) && d in out && LaunchOf(d, g) && r in c.ranks && r in d.ranks ==> c == d)
    && (forall r :: Unresolved(ps, r) ==> Launching(out, g, r))
  }

  ghost predicate RanksInv(pg: Group, g: nat, out: multiset<Command>, posted: multiset<Command>) {
    forall r :: 0 <= r < |pg.procs| ==> RankInv(pg.procs[r], g, r, pg.aborted, pg.numPendingSuspends, out, posted)
  }

  ghost predicate CountInv(pg: Group, g: nat, out: multiset<Command>, posted: multiset<Command>, closing: bool) {
    && 0 < |pg.procs|
    && RanksInv(pg, g, out, posted)
    && pg.numPendingSuspends == Sum(SuspendWeights(pg.procs, g, out))
    && pg.numPendingKills == Sum(KillWeights(pg.procs, g, out))
    && pg.numExited == Sum(ExitWeights(pg.procs))
    && (pg.aborted && pg.numPendingSuspends == 0 && !closing ==> AllKilled(pg, g, posted))
    && (pg.aborted && pg.numPendingSuspends == 0 && pg.numPendingKills == 0 ==> closing || AllExited(pg))
  }

  ghost predicate GroupInv(pg: Group, g: nat, out: multiset<Command>, posted: multiset<Command>, closing: bool) {
    CountInv(pg, g, out, posted, closing) && LaunchInv(pg.procs, g, out)
  }

  ghost predicate KnownCommand(j: Job, c: Command) {
    c.Close? || (c.group < |j.groups| && (c.Launch? || c.rank < |j.groups[c.group].procs|))
  }

  ghost function Sizes(j: Job): seq<int> {
    seq(|j.groups|, g requires 0 <= g < |j.groups| => |j.groups[g].procs|)
  }

  ghost function Exits(j: Job): seq<int> {
    seq(|j.groups|, g requires 0 <= g < |j.groups| => j.groups[g].numExited)
  }

  ghost predicate InvOf(j: Job, g: nat)
    requires g < |j.groups|
  {
    GroupInv(j.groups[g], g, j.outstanding, j.posted, j.closing)
  }

  /** Every group, and the one close command, agree with the wire. */
  ghost predicate GroupsInv(j: Job) {
    && (forall g :: 0 <= g < |j.groups| ==> InvOf(j, g))
    && (forall c :: c in j.posted || c in j.outstanding ==> KnownCommand(j, c))
    && j.posted[Close] == (if j.closing then 1 else 0)
  }

  ghost predicate EveryoneExited(j: Job) {
    j.groups != [] && forall g :: 0 <= g < |j.groups| ==> AllExited(j.groups[g])
  }

  ghost predicate TotalsInv(j: Job) {
    && j.nprocExited == Sum(Exits(j))
    && (j.groups != [] ==> j.nproc == Sum(Sizes(j)))
    && (EveryoneExited(j) ==> j.closing)
  }

  ghost predicate Inv(j: Job) {
    GroupsInv(j) && TotalsInv(j)
  }

  // ---- frames ------------------------------------------------------------------------

  /** out and out' hold the same commands of group g. */
  ghost predicate SameFor(g: nat, out: multiset<Command>, out': multiset<Command>) {
    forall c: Command :: !c.Close? && c.group == g ==> out[c] == out'[c]
  }

  lemma GroupFrame(pg: Group, g: nat, out: multiset<Command>, posted: multiset<Command>, closing: bool,
                   out': multiset<Command>, posted': multiset<Command>, closing': bool)
    requires GroupInv(pg, g, out, posted, closing)
    requires SameFor(g, out, out') && SameFor(g, posted, posted') && (closing ==> closing')
    ensures GroupInv(pg, g, out', posted', closing')
  {
    assert SuspendWeights(pg.procs, g, out') == SuspendWeights(pg.procs, g, out);
    assert KillWeights(pg.procs, g, out') == KillWeights(pg.procs, g, out);
    forall r | 0 <= r < |pg.procs|
      ensures RankInv(pg.procs[r], g, r, pg.aborted, pg.numPendingSuspends, out', posted')
    {
      assert RankInv(pg.procs[r], g, r, pg.aborted, pg.numPendingSuspends, out, posted);
    }
    LaunchFrame(pg.procs, pg.procs, g, out, out');
    if pg.aborted && pg.numPendingSuspends == 0 && !closing' {
      assert AllKilled(pg, g, posted);
    }
  }

  ghost predicate SameLaunches(g: nat, out: multiset<Command>, out': multiset<Command>) {
    forall c :: LaunchOf(c, g) ==> out[c] == out'[c]
  }

  lemma LaunchFrame(ps: seq<Proc>, ps': seq<Proc>, g: nat, out: multiset<Command>, out': multiset<Command>)
    requires LaunchInv(ps, g, out) && SameLaunches(g, out, out')
    requires |ps'| == |ps|
    requires forall r :: 0 <= r < |ps| ==>
               ps'[r].launched == ps[r].launched && ps'[r].failedLaunch == ps[r].failedLaunch
    ensures LaunchInv(ps', g, out')
  {
    forall c, r | c in out' && LaunchOf(c, g) && r in c.ranks
      ensures Unresolved(ps', r)
    {
      assert c in out;
      assert Unresolved(ps, r);
    }
    forall r | Unresolved(ps', r) ensures Launching(out', g, r) {
      assert Unresolved(ps, r);
      var c :| c in out && LaunchOf(c, g) && r in c.ranks;
      assert c in out';
    }
  }

  // ---- what the rounds post ----------------------------------------------------------

  lemma {:induction false} SuspendCmdsAre(g: nat, ps: seq<Proc>, k: nat)
    requires k <= |ps|
    ensures forall c :: SuspendCmds(g, ps, k)[c] ==
              if c.Suspend? && c.group == g && c.rank < k && Live(ps[c.rank]) && ps[c.rank].launched then 1 else 0
  {
    if k > 0 { SuspendCmdsAre(g, ps, k - 1); }
  }

  lemma {:induction false} KillCmdsAre(g: nat, ps: seq<Proc>, k: nat)
    requires k <= |ps|
    ensures forall c :: KillCmds(g, ps, k)[c] ==
              if c.Kill? && c.group == g && c.rank < k && !ps[c.rank].exited then 1 else 0
  {
    if k > 0 { KillCmdsAre(g, ps, k - 1); }
  }

  lemma {:induction false} DelayedSuspendsAre(g: nat, ps: seq<Proc>, ranks: seq<nat>, k: nat)
    requires k <= |ranks| && forall i :: 0 <= i < |ranks| ==> ranks[i] < |ps|
    requires NoDup(ranks)
    ensures forall c :: DelayedSuspends(g, ps, ranks, k)[c] ==
              if c.Suspend? && c.group == g && c.rank in ranks[..k] && ps[c.rank].suspendPending then 1 else 0
  {
    if k > 0 {
      DelayedSuspendsAre(g, ps, ranks, k - 1);
      assert ranks[..k] == ranks[..k - 1] + [ranks[k - 1]];
    }
  }

  lemma {:induction false} LaunchCmdsAre(g: nat, blocks: seq<seq<nat>>, k: nat)
    requires k <= |blocks|
    requires forall b, c :: 0 <= b < c < |blocks| ==> blocks[b] != blocks[c]
    ensures forall c :: LaunchCmds(g, blocks, k)[c] == if LaunchOf(c, g) && c.ranks in blocks[..k] then 1 else 0
  {
    if k > 0 {
      LaunchCmdsAre(g, blocks, k - 1);
      assert blocks[..k] == blocks[..k - 1] + [blocks[k - 1]];
    }
  }

  lemma {:induction false} LiveCountIsSum(ps: seq<Proc>, k: nat, w: seq<int>)
    requires k <= |ps| && |w| == k && forall i :: 0 <= i < k ==> w[i] == if Live(ps[i]) then 1 else 0
    ensures LiveCount(ps, k) == Sum(w)
  {
    if k > 0 {
      LiveCountIsSum(ps, k - 1, w[..k - 1]);
      SumAppend(w[..k - 1], w[k - 1]);
      assert w == w[..k - 1] + [w[k - 1]];
    }
  }

  lemma {:induction false} UnexitedCountIsSum(ps: seq<Proc>, k: nat, w: seq<int>)
    requires k <= |ps| && |w| == k && forall i :: 0 <= i < k ==> w[i] == if ps[i].exited then 0 else 1
    ensures UnexitedCount(ps, k) == Sum(w)
  {
    if k > 0 {
      UnexitedCountIsSum(ps, k - 1, w[..k - 1]);
      SumAppend(w[..k - 1], w[k - 1]);
      assert w == w[..k - 1] + [w[k - 1]];
    }
  }

  // ---- one group, one step -----------------------------------------------------------

  lemma WeightsNonNegative(ps: seq<Proc>, g: nat, out: multiset<Command>)
    ensures 0 <= Sum(SuspendWeights(ps, g, out)) && 0 <= Sum(KillWeights(ps, g, out))
    ensures Sum(SuspendWeights(ps, g, out)) == 0 <==>
            forall r :: 0 <= r < |ps| ==> AwaitedSuspend(ps[r], out[Suspend(g, r)]) == 0
    ensures Sum(KillWeights(ps, g, out)) == 0 <==>
            forall r :: 0 <= r < |ps| ==> out[Kill(g, r)] == 0
  {
    var w, k := SuspendWeights(ps, g, out), KillWeights(ps, g, out);
    SumZero(w);
    SumZero(k);
    assert forall r :: 0 <= r < |ps| ==> w[r] == AwaitedSuspend(ps[r], out[Suspend(g, r)]);
    assert forall r :: 0 <= r < |ps| ==> k[r] == out[Kill(g, r)];
  }

  /** Changing what a rank reports about itself (blame, exit code, init, finalize) keeps its group's invariant. */
  lemma TouchKeepsGroup(pg: Group, pg': Group, g: nat, r: nat, out: multiset<Command>, posted: multiset<Command>, closing: bool)
    requires GroupInv(pg, g, out, posted, closing) && r < |pg.procs|
    requires pg' == pg.(procs := pg'.procs, anyInit := pg'.anyInit, anyNoInitExit := pg'.anyNoInitExit)
    requires |pg'.procs| == |pg.procs| && forall i :: 0 <= i < |pg.procs| && i != r ==> pg'.procs[i] == pg.procs[i]
    requires var p, p' := pg.procs[r], pg'.procs[r];
             p' == p.(initCalled := p'.initCalled, finalizeCalled := p'.finalizeCalled, reason := p'.reason, exitCode := p'.exitCode)
    ensures GroupInv(pg', g, out, posted, closing)
  {
    assert SuspendWeights(pg'.procs, g, out) == SuspendWeights(pg.procs, g, out);
    assert KillWeights(pg'.procs, g, out) == KillWeights(pg.procs, g, out);
    assert ExitWeights(pg'.procs) == ExitWeights(pg.procs);
    assert forall i :: 0 <= i < |pg.procs| ==> pg'.procs[i].exited == pg.procs[i].exited;
    LaunchFrame(pg.procs, pg'.procs, g, out, out);
    forall i | 0 <= i < |pg.procs|
      ensures RankInv(pg'.procs[i], g, i, pg.aborted, pg.numPendingSuspends, out, posted)
    {
      assert RankInv(pg.procs[i], g, i, pg.aborted, pg.numPendingSuspends, out, posted);
    }
  }

  /** The suspend round. */
  lemma AbortRoundKeepsCounts(pg: Group, g: nat, out: multiset<Command>, posted: multiset<Command>, closing: bool)
    requires CountInv(pg, g, out, posted, closing) && !pg.aborted
    ensures var cs := SuspendCmds(g, pg.procs, |pg.procs|);
            var pending := pg.numPendingSuspends + LiveCount(pg.procs, |pg.procs|);
            var pg' := pg.(aborted := true, procs := AbortProcs(pg.procs), numPendingSuspends := pending);
            CountInv(pg', g, out + cs, posted + cs, closing || pending == 0)
  {
    var ps := pg.procs;
    var cs := SuspendCmds(g, ps, |ps|);
    var pending := pg.numPendingSuspends + LiveCount(ps, |ps|);
    var pg' := pg.(aborted := true, procs := AbortProcs(ps), numPendingSuspends := pending);
    forall r | 0 <= r < |ps|
      ensures out[Suspend(g, r)] == 0 && posted[Kill(g, r)] == 0 && !ps[r].suspendPending
    {
      assert RankInv(ps[r], g, r, pg.aborted, pg.numPendingSuspends, out, posted);
    }
    WeightsNonNegative(pg.procs, g, out);
    AbortRoundCounts(pg, g, out);
    forall r | 0 <= r < |ps| ensures RankInv(pg'.procs[r], g, r, true, pending, out + cs, posted + cs) {
      assert RankInv(ps[r], g, r, pg.aborted, pg.numPendingSuspends, out, posted);
      SuspendCmdsAre(g, ps, |ps|);
    }
  }

  lemma AbortRoundCounts(pg: Group, g: nat, out: multiset<Command>)
    requires forall r :: 0 <= r < |pg.procs| ==>
               out[Suspend(g, r)] == 0 && !pg.procs[r].suspendPending
    ensures var cs := SuspendCmds(g, pg.procs, |pg.procs|);
            var pending := pg.numPendingSuspends + LiveCount(pg.procs, |pg.procs|);
            var pg' := pg.(aborted := true, procs := AbortProcs(pg.procs), numPendingSuspends := pending);
            && Sum(SuspendWeights(pg'.procs, g, out + cs)) == LiveCount(pg.procs, |pg.procs|)
            && KillWeights(pg'.procs, g, out + cs) == KillWeights(pg.procs, g, out)
            && ExitWeights(pg'.procs) == ExitWeights(pg.procs)
  {
    var ps := pg.procs;
    var cs := SuspendCmds(g, ps, |ps|);
    SuspendCmdsAre(g, ps, |ps|);
    var pending := pg.numPendingSuspends + LiveCount(ps, |ps|);
    var pg' := pg.(aborted := true, procs := AbortProcs(ps), numPendingSuspends := pending);
    LiveCountIsSum(ps, |ps|, SuspendWeights(pg'.procs, g, out + cs));
    assert KillWeights(pg'.procs, g, out + cs) == KillWeights(pg.procs, g, out);
    assert ExitWeights(pg'.procs) == ExitWeights(pg.procs);
  }

  /** The answer to a suspend, before the kill round it may start. */
  lemma SuspendAnswerCounts(pg: Group, g: nat, r: nat, out: multiset<Command>, posted: multiset<Command>, closing: bool)
    requires CountInv(pg, g, out, posted, closing) && r < |pg.procs| && Suspend(g, r) in out
    ensures var pg', out' := Suspended(pg, r), out - multiset{Suspend(g, r)};
            && pg.aborted && pg'.numPendingSuspends >= 0
            && RanksInv(pg', g, out', posted)
            && pg'.numPendingSuspends == Sum(SuspendWeights(pg'.procs, g, out'))
            && pg'.numPendingKills == Sum(KillWeights(pg'.procs, g, out'))
            && pg'.numExited == Sum(ExitWeights(pg'.procs))
            && forall i :: 0 <= i < |pg.procs| ==> posted[Kill(g, i)] == 0
  {
    var pg', out' := Suspended(pg, r), out - multiset{Suspend(g, r)};
    var w := SuspendWeights(pg.procs, g, out);
    WeightsNonNegative(pg.procs, g, out);
    WeightsNonNegative(pg'.procs, g, out');
    assert SuspendWeights(pg'.procs, g, out') == w[r := w[r] - 1];
    SumUpdate(w, r, w[r] - 1);
    assert AwaitedSuspend(pg.procs[r], out[Suspend(g, r)]) > 0;
    assert RankInv(pg.procs[r], g, r, pg.aborted, pg.numPendingSuspends, out, posted);
    assert ExitWeights(pg'.procs) == ExitWeights(pg.procs);
    assert KillWeights(pg'.procs, g, out') == KillWeights(pg.procs, g, out);
    forall i | 0 <= i < |pg.procs|
      ensures posted[Kill(g, i)] == 0 && RankInv(pg'.procs[i], g, i, true, pg'.numPendingSuspends, out', posted)
    {
      assert RankInv(pg.procs[i], g, i, pg.aborted, pg.numPendingSuspends, out, posted);
    }
  }

  /** The kill round, once no suspend is awaited any more. */
  lemma KillRoundKeepsCounts(pg: Group, g: nat, out: multiset<Command>, posted: multiset<Command>, closing: bool)
    requires 0 < |pg.procs| && pg.aborted && pg.numPendingSuspends == 0 && RanksInv(pg, g, out, posted)
    requires forall r :: 0 <= r < |pg.procs| ==> posted[Kill(g, r)] == 0
    requires pg.numPendingSuspends == Sum(SuspendWeights(pg.procs, g, out))
    requires pg.numPendingKills == Sum(KillWeights(pg.procs, g, out))
    requires pg.numExited == Sum(ExitWeights(pg.procs))
    ensures var cs := KillCmds(g, pg.procs, |pg.procs|);
            CountInv(pg.(numPendingKills := pg.numPendingKills + UnexitedCount(pg.procs, |pg.procs|)), g,
                     out + cs, posted + cs, closing)
  {
    var ps := pg.procs;
    var cs := KillCmds(g, ps, |ps|);
    var pg' := pg.(numPendingKills := pg.numPendingKills + UnexitedCount(ps, |ps|));
    forall r | 0 <= r < |ps| ensures out[Kill(g, r)] == 0 {
      assert RankInv(ps[r], g, r, true, 0, out, posted);
    }
    WeightsNonNegative(pg.procs, g, out);
    KillRoundCounts(pg, g, out);
    WeightsNonNegative(pg'.procs, g, out + cs);
    forall r | 0 <= r < |ps|
      ensures RankInv(ps[r], g, r, true, 0, out + cs, posted + cs)
      ensures ps[r].exited || (posted + cs)[Kill(g, r)] == 1
      ensures ps[r].exited || (out + cs)[Kill(g, r)] == 1
    {
      assert RankInv(ps[r], g, r, true, 0, out, posted);
      KillCmdsAre(g, ps, |ps|);
    }
  }

  lemma KillRoundCounts(pg: Group, g: nat, out: multiset<Command>)
    requires forall r :: 0 <= r < |pg.procs| ==> out[Kill(g, r)] == 0
    ensures var cs := KillCmds(g, pg.procs, |pg.procs|);
            var pg' := pg.(numPendingKills := pg.numPendingKills + UnexitedCount(pg.procs, |pg.procs|));
            && Sum(KillWeights(pg'.procs, g, out + cs)) == UnexitedCount(pg.procs, |pg.procs|)
            && SuspendWeights(pg'.procs, g, out + cs) == SuspendWeights(pg.procs, g, out)
            && ExitWeights(pg'.procs) == ExitWeights(pg.procs)
  {
    var ps := pg.procs;
    var cs := KillCmds(g, ps, |ps|);
    var pg' := pg.(numPendingKills := pg.numPendingKills + UnexitedCount(ps, |ps|));
    KillCmdsAre(g, ps, |ps|);
    UnexitedCountIsSum(ps, |ps|, KillWeights(pg'.procs, g, out + cs));
    assert SuspendWeights(pg'.procs, g, out + cs) == SuspendWeights(pg.procs, g, out);
    assert ExitWeights(pg'.procs) == ExitWeights(pg.procs);
  }

  lemma SuspendAnswerKeepsGroup(pg: Group, g: nat, r: nat, out: multiset<Command>, posted: multiset<Command>, closing: bool)
    requires GroupInv(pg, g, out, posted, closing) && r < |pg.procs| && Suspend(g, r) in out
    ensures var pg' := Suspended(pg, r);
            var out' := out - multiset{Suspend(g, r)};
            if pg'.numPendingSuspends != 0 then GroupInv(pg', g, out', posted, closing)
            else
              var cs := KillCmds(g, pg'.procs, |pg'.procs|);
              GroupInv(pg'.(numPendingKills := pg'.numPendingKills + UnexitedCount(pg'.procs, |pg'.procs|)), g,
                       out' + cs, posted + cs, closing)
  {
    var pg', out' := Suspended(pg, r), out - multiset{Suspend(g, r)};
    SuspendAnswerCounts(pg, g, r, out, posted, closing);
    var cs := KillCmds(g, pg'.procs, |pg'.procs|);
    KillCmdsAre(g, pg'.procs, |pg'.procs|);
    LaunchFrame(pg.procs, pg'.procs, g, out, if pg'.numPendingSuspends == 0 then out' + cs else out');
    if pg'.numPendingSuspends == 0 {
      KillRoundKeepsCounts(pg', g, out', posted, closing);
    }
  }

  lemma KillAnswerKeepsGroup(pg: Group, g: nat, r: nat, out: multiset<Command>, posted: multiset<Command>, closing: bool)
    requires GroupInv(pg, g, out, posted, closing) && r < |pg.procs| && Kill(g, r) in out
    ensures var pg' := pg.(numPendingKills := pg.numPendingKills - 1);
            GroupInv(pg', g, out - multiset{Kill(g, r)}, posted,
                     closing || (pg'.numPendingKills == 0 && pg'.numPendingSuspends == 0))
  {
    var pg' := pg.(numPendingKills := pg.numPendingKills - 1);
    var out' := out - multiset{Kill(g, r)};
    var w := KillWeights(pg.procs, g, out);
    assert KillWeights(pg'.procs, g, out') == w[r := w[r] - 1];
    SumUpdate(w, r, w[r] - 1);
    assert SuspendWeights(pg'.procs, g, out') == SuspendWeights(pg.procs, g, out);
    assert ExitWeights(pg'.procs) == ExitWeights(pg.procs);
    LaunchFrame(pg.procs, pg.procs, g, out, out');
    forall i | 0 <= i < |pg.procs|
      ensures RankInv(pg.procs[i], g, i, pg.aborted, pg.numPendingSuspends, out', posted)
    {
      assert RankInv(pg.procs[i], g, i, pg.aborted, pg.numPendingSuspends, out, posted);
    }
  }

  /** A block that came up: what was delayed is now on the wire. */
  lemma LaunchOkKeepsGroup(pg: Group, g: nat, ranks: seq<nat>, out: multiset<Command>, posted: multiset<Command>, closing: bool)
    requires GroupInv(pg, g, out, posted, closing) && Launch(g, ranks) in out
    requires forall i :: 0 <= i < |ranks| ==> ranks[i] < |pg.procs|
    ensures var cs := DelayedSuspends(g, pg.procs, ranks, |ranks|);
            var pg' := pg.(procs := LaunchProcs(pg.procs, ranks), numResults := pg.numResults + |ranks|);
            GroupInv(pg', g, out - multiset{Launch(g, ranks)} + cs, posted + cs, closing)
  {
    LaunchRanksFresh(pg.procs, g, ranks, out);
    LaunchOkKeepsCounts(pg, g, ranks, out, posted, closing);
    var cs := DelayedSuspends(g, pg.procs, ranks, |ranks|);
    DelayedSuspendsAre(g, pg.procs, ranks, |ranks|);
    LaunchAnswerFrame(pg.procs, LaunchProcs(pg.procs, ranks), g, ranks, out, out - multiset{Launch(g, ranks)} + cs);
  }

  lemma LaunchRanksFresh(ps: seq<Proc>, g: nat, ranks: seq<nat>, out: multiset<Command>)
    requires LaunchInv(ps, g, out) && Launch(g, ranks) in out
    ensures NoDup(ranks) && ranks != []
    ensures forall r :: r in ranks ==> Unresolved(ps, r)
  {
    var c := Launch(g, ranks);
    assert LaunchOf(c, g);
    assert forall r :: r in c.ranks ==> Unresolved(ps, r);
  }

  lemma LaunchOkKeepsCounts(pg: Group, g: nat, ranks: seq<nat>, out: multiset<Command>, posted: multiset<Command>, closing: bool)
    requires CountInv(pg, g, out, posted, closing) && Launch(g, ranks) in out && NoDup(ranks)
    requires forall i :: 0 <= i < |ranks| ==> ranks[i] < |pg.procs|
    requires forall r :: r in ranks ==> Unresolved(pg.procs, r)
    ensures var cs := DelayedSuspends(g, pg.procs, ranks, |ranks|);
            var pg' := pg.(procs := LaunchProcs(pg.procs, ranks), numResults := pg.numResults + |ranks|);
            CountInv(pg', g, out - multiset{Launch(g, ranks)} + cs, posted + cs, closing)
  {
    var pg' := pg.(procs := LaunchProcs(pg.procs, ranks), numResults := pg.numResults + |ranks|);
    var cs := DelayedSuspends(g, pg.procs, ranks, |ranks|);
    var out', posted' := out - multiset{Launch(g, ranks)} + cs, posted + cs;
    forall r | 0 <= r < |pg.procs|
      ensures RankInv(pg'.procs[r], g, r, pg.aborted, pg.numPendingSuspends, out', posted')
      ensures AwaitedSuspend(pg'.procs[r], out'[Suspend(g, r)]) == AwaitedSuspend(pg.procs[r], out[Suspend(g, r)])
      ensures out'[Kill(g, r)] == out[Kill(g, r)] && posted'[Kill(g, r)] == posted[Kill(g, r)]
      ensures pg'.procs[r].exited == pg.procs[r].exited
    {
      LaunchOkRank(pg.procs, g, ranks, r, pg.aborted, pg.numPendingSuspends, out, posted);
    }
    assert SuspendWeights(pg'.procs, g, out') == SuspendWeights(pg.procs, g, out);
    assert KillWeights(pg'.procs, g, out') == KillWeights(pg.procs, g, out);
    assert ExitWeights(pg'.procs) == ExitWeights(pg.procs);
  }

  lemma LaunchOkRank(ps: seq<Proc>, g: nat, ranks: seq<nat>, r: nat, aborted: bool, pending: int,
                     out: multiset<Command>, posted: multiset<Command>)
    requires r < |ps| && RankInv(ps[r], g, r, aborted, pending, out, posted) && NoDup(ranks)
    requires forall i :: 0 <= i < |ranks| ==> ranks[i] < |ps|
    requires r in ranks ==> Unresolved(ps, r)
    ensures var cs := DelayedSuspends(g, ps, ranks, |ranks|);
            var out', posted' := out - multiset{Launch(g, ranks)} + cs, posted + cs;
            var p' := LaunchProcs(ps, ranks)[r];
            && RankInv(p', g, r, aborted, pending, out', posted')
            && AwaitedSuspend(p', out'[Suspend(g, r)]) == AwaitedSuspend(ps[r], out[Suspend(g, r)])
            && out'[Kill(g, r)] == out[Kill(g, r)] && posted'[Kill(g, r)] == posted[Kill(g, r)]
  {
    DelayedSuspendsAre(g, ps, ranks, |ranks|);
    assert ranks[..|ranks|] == ranks;
  }

  /** Answering one launch resolves exactly its ranks. */
  lemma LaunchAnswerFrame(ps: seq<Proc>, ps': seq<Proc>, g: nat, ranks: seq<nat>, out: multiset<Command>, out': multiset<Command>)
    requires LaunchInv(ps, g, out) && Launch(g, ranks) in out
    requires |ps'| == |ps| && forall r :: 0 <= r < |ps| ==>
               if r in ranks then ps'[r].launched || ps'[r].failedLaunch
               else ps'[r].launched == ps[r].launched && ps'[r].failedLaunch == ps[r].failedLaunch
    requires forall c :: LaunchOf(c, g) ==> out'[c] == if c == Launch(g, ranks) then out[c] - 1 else out[c]
    ensures LaunchInv(ps', g, out')
  {
    assert LaunchOf(Launch(g, ranks), g);
    forall c, r | c in out' && LaunchOf(c, g) && r in c.ranks ensures Unresolved(ps', r) {
      assert c in out && c != Launch(g, ranks);
      assert Unresolved(ps, r);
      assert r !in ranks;
    }
    forall r | Unresolved(ps', r) ensures Launching(out', g, r) {
      assert r !in ranks && Unresolved(ps, r);
      assert Launching(out, g, r);
      var c :| c in out && LaunchOf(c, g) && r in c.ranks;
      assert c in out';
    }
    forall c | c in out' && LaunchOf(c, g) ensures out'[c] == 1 && c.ranks != [] && NoDup(c.ranks) {
      assert c in out;
    }
  }

  /** Weights with the suspends of some ranks dropped. */
  ghost function Dropped(w: seq<int>, gone: seq<nat>): seq<int> {
    seq(|w|, r requires 0 <= r < |w| => if r in gone then 0 else w[r])
  }

  lemma {:induction false} DropSum(pg: Group, g: nat, ranks: seq<nat>, k: nat, out: multiset<Command>)
    requires k <= |ranks| && NoDup(ranks) && forall i :: 0 <= i < |ranks| ==> ranks[i] < |pg.procs|
    requires forall r :: r in ranks ==> r < |pg.procs| && !pg.procs[r].launched && out[Suspend(g, r)] == 0
    ensures Sum(Dropped(SuspendWeights(pg.procs, g, out), ranks[..k]))
            == Sum(SuspendWeights(pg.procs, g, out)) - DelayedCount(pg.procs, ranks, k)
  {
    var w := SuspendWeights(pg.procs, g, out);
    if k == 0 {
      assert Dropped(w, ranks[..0]) == w;
    } else {
      DropSum(pg, g, ranks, k - 1, out);
      var r := ranks[k - 1];
      var u := Dropped(w, ranks[..k - 1]);
      assert ranks[..k] == ranks[..k - 1] + [r];
      assert r !in ranks[..k - 1];
      assert Dropped(w, ranks[..k]) == u[r := 0];
      SumUpdate(u, r, 0);
      assert r in ranks;
    }
  }

  /** A block that failed: its delayed suspends are no longer awaited. */
  lemma DropKeepsGroup(pg: Group, g: nat, ranks: seq<nat>, out: multiset<Command>, posted: multiset<Command>, closing: bool)
    requires GroupInv(pg, g, out, posted, closing) && Launch(g, ranks) in out
    requires forall i :: 0 <= i < |ranks| ==> ranks[i] < |pg.procs|
    ensures var pg' := pg.(procs := FailProcs(pg.procs, ranks),
                           numPendingSuspends := pg.numPendingSuspends - DelayedCount(pg.procs, ranks, |ranks|));
            && 0 <= pg'.numPendingSuspends
            && GroupInv(pg', g, out - multiset{Launch(g, ranks)}, posted,
                        closing || (pg'.aborted && pg'.numPendingSuspends == 0))
  {
    LaunchRanksFresh(pg.procs, g, ranks, out);
    DropKeepsCounts(pg, g, ranks, out, posted, closing);
    LaunchAnswerFrame(pg.procs, FailProcs(pg.procs, ranks), g, ranks, out, out - multiset{Launch(g, ranks)});
  }

  lemma DropKeepsCounts(pg: Group, g: nat, ranks: seq<nat>, out: multiset<Command>, posted: multiset<Command>, closing: bool)
    requires CountInv(pg, g, out, posted, closing) && Launch(g, ranks) in out && NoDup(ranks)
    requires forall i :: 0 <= i < |ranks| ==> ranks[i] < |pg.procs|
    requires forall r :: r in ranks ==> Unresolved(pg.procs, r)
    ensures var pg' := pg.(procs := FailProcs(pg.procs, ranks),
                           numPendingSuspends := pg.numPendingSuspends - DelayedCount(pg.procs, ranks, |ranks|));
            && 0 <= pg'.numPendingSuspends
            && CountInv(pg', g, out - multiset{Launch(g, ranks)}, posted,
                        closing || (pg'.aborted && pg'.numPendingSuspends == 0))
  {
    DropKeepsSums(pg, g, ranks, out, posted);
    DropRanks(pg, g, ranks, pg.numPendingSuspends - DelayedCount(pg.procs, ranks, |ranks|), out, posted);
  }

  lemma DropKeepsSums(pg: Group, g: nat, ranks: seq<nat>, out: multiset<Command>, posted: multiset<Command>)
    requires RanksInv(pg, g, out, posted) && Launch(g, ranks) in out && NoDup(ranks)
    requires pg.numPendingSuspends == Sum(SuspendWeights(pg.procs, g, out))
    requires forall i :: 0 <= i < |ranks| ==> ranks[i] < |pg.procs|
    requires forall r :: r in ranks ==> Unresolved(pg.procs, r)
    ensures var (ps', out') := (FailProcs(pg.procs, ranks), out - multiset{Launch(g, ranks)});
            var pending := pg.numPendingSuspends - DelayedCount(pg.procs, ranks, |ranks|);
            && pending == Sum(SuspendWeights(ps', g, out')) && 0 <= pending
            && (pg.numPendingSuspends == 0 ==> pending == 0)
            && KillWeights(ps', g, out') == KillWeights(pg.procs, g, out)
            && ExitWeights(ps') == ExitWeights(pg.procs)
  {
    forall r | r in ranks
      ensures r < |pg.procs| && !pg.procs[r].launched && out[Suspend(g, r)] == 0
    {
      assert Unresolved(pg.procs, r);
      assert RankInv(pg.procs[r], g, r, pg.aborted, pg.numPendingSuspends, out, posted);
    }
    DropSum(pg, g, ranks, |ranks|, out);
    assert ranks[..|ranks|] == ranks;
    DropWeights(pg.procs, g, ranks, out);
    WeightsNonNegative(FailProcs(pg.procs, ranks), g, out - multiset{Launch(g, ranks)});
  }

  lemma DropRanks(pg: Group, g: nat, ranks: seq<nat>, pending: int, out: multiset<Command>, posted: multiset<Command>)
    requires RanksInv(pg, g, out, posted) && (pg.numPendingSuspends == 0 ==> pending == 0)
    requires forall r :: r in ranks ==> Unresolved(pg.procs, r)
    ensures RanksInv(pg.(procs := FailProcs(pg.procs, ranks), numPendingSuspends := pending), g,
                     out - multiset{Launch(g, ranks)}, posted)
  {
    forall r | 0 <= r < |pg.procs|
      ensures RankInv(FailProcs(pg.procs, ranks)[r], g, r, pg.aborted, pending, out - multiset{Launch(g, ranks)}, posted)
    {
      assert RankInv(pg.procs[r], g, r, pg.aborted, pg.numPendingSuspends, out, posted);
      assert r in ranks ==> Unresolved(pg.procs, r);
    }
  }

  lemma DropWeights(ps: seq<Proc>, g: nat, ranks: seq<nat>, out: multiset<Command>)
    requires forall r :: r in ranks ==> r < |ps| && !ps[r].launched && out[Suspend(g, r)] == 0
    ensures var out' := out - multiset{Launch(g, ranks)};
            && SuspendWeights(FailProcs(ps, ranks), g, out') == Dropped(SuspendWeights(ps, g, out), ranks)
            && KillWeights(FailProcs(ps, ranks), g, out') == KillWeights(ps, g, out)
            && ExitWeights(FailProcs(ps, ranks)) == ExitWeights(ps)
  {
  }

  lemma ExitKeepsGroup(pg: Group, g: nat, r: nat, out: multiset<Command>, posted: multiset<Command>, closing: bool)
    requires GroupInv(pg, g, out, posted, closing) && r < |pg.procs| && !pg.procs[r].exited
    ensures GroupInv(pg.(procs := pg.procs[r := pg.procs[r].(exited := true)], numExited := pg.numExited + 1),
                     g, out, posted, closing)
  {
    var pg' := pg.(procs := pg.procs[r := pg.procs[r].(exited := true)], numExited := pg.numExited + 1);
    var w := ExitWeights(pg.procs);
    assert ExitWeights(pg'.procs) == w[r := 1];
    SumUpdate(w, r, 1);
    assert SuspendWeights(pg'.procs, g, out) == SuspendWeights(pg.procs, g, out);
    assert KillWeights(pg'.procs, g, out) == KillWeights(pg.procs, g, out);
    LaunchFrame(pg.procs, pg'.procs, g, out, out);
    forall i | 0 <= i < |pg.procs|
      ensures RankInv(pg'.procs[i], g, i, pg.aborted, pg.numPendingSuspends, out, posted)
      ensures pg.procs[i].exited ==> pg'.procs[i].exited
    {
      assert RankInv(pg.procs[i], g, i, pg.aborted, pg.numPendingSuspends, out, posted);
    }
  }

  lemma NewGroupInv(n: nat, g: nat, blocks: seq<seq<nat>>, out: multiset<Command>, posted: multiset<Command>, closing: bool)
    requires 0 < n && Deals(blocks, n)
    requires forall c: Command :: !c.Close? && c.group == g ==> out[c] == 0 && posted[c] == 0
    ensures var cs := LaunchCmds(g, blocks, |blocks|);
            GroupInv(NewGroup(n), g, out + cs, posted + cs, closing)
  {
    var cs := LaunchCmds(g, blocks, |blocks|);
    BlocksDiffer(blocks, n);
    LaunchCmdsAre(g, blocks, |blocks|);
    assert blocks[..|blocks|] == blocks;
    NewGroupCounts(n, g, out + cs, posted + cs, closing);
    NewLaunchInv(n, g, blocks, out + cs);
  }

  lemma NewGroupCounts(n: nat, g: nat, out: multiset<Command>, posted: multiset<Command>, closing: bool)
    requires 0 < n
    requires forall c: Command :: !c.Close? && !c.Launch? && c.group == g ==> out[c] == 0 && posted[c] == 0
    ensures CountInv(NewGroup(n), g, out, posted, closing) == true
  {
    var pg := NewGroup(n);
    SumConst(SuspendWeights(pg.procs, g, out), 0);
    SumConst(KillWeights(pg.procs, g, out), 0);
    SumConst(ExitWeights(pg.procs), 0);
  }

  lemma BlocksDiffer(blocks: seq<seq<nat>>, n: nat)
    requires Deals(blocks, n)
    ensures forall b, c :: 0 <= b < c < |blocks| ==> blocks[b] != blocks[c]
  {
    forall b, c | 0 <= b < c < |blocks| ensures blocks[b] != blocks[c] {
      assert blocks[b][0] in blocks[b];
    }
  }

  lemma NewLaunchInv(n: nat, g: nat, blocks: seq<seq<nat>>, out: multiset<Command>)
    requires Deals(blocks, n)
    requires forall c :: LaunchOf(c, g) ==> out[c] == if c.ranks in blocks then 1 else 0
    ensures LaunchInv(NewGroup(n).procs, g, out)
  {
    var ps := NewGroup(n).procs;
    forall c, d, r | c in out && LaunchOf(c, g) && d in out && LaunchOf(d, g) && r in c.ranks && r in d.ranks ensures c == d {
      var i :| 0 <= i < |blocks| && blocks[i] == c.ranks;
      var k :| 0 <= k < |blocks| && blocks[k] == d.ranks;
      assert i == k;
    }
    forall r | Unresolved(ps, r) ensures Launching(out, g, r) {
      assert Dealt(blocks, r);
      var b :| 0 <= b < |blocks| && r in blocks[b];
      assert LaunchOf(Launch(g, blocks[b]), g);
    }
    forall c | c in out && LaunchOf(c, g) ensures out[c] == 1 && c.ranks != [] && NoDup(c.ranks) {
      var i :| 0 <= i < |blocks| && blocks[i] == c.ranks;
    }
    forall c, r | c in out && LaunchOf(c, g) && r in c.ranks ensures Unresolved(ps, r) {
      var i :| 0 <= i < |blocks| && blocks[i] == c.ranks;
    }
  }
}
