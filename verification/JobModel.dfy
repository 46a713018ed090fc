/**
 The job life cycle as mpiexec sees it once process groups exist: the state its handlers
 keep, the commands it has on the wire, and what each handler does to them
 (mpiexec_handle_command.cpp, and the launch-failure handler in mpiexec.cpp).

 A command leaves `outstanding` when its one answer arrives; `posted` keeps every command
 ever sent. Answers arrive in any order, and exits, init, finalize and abort requests of
 the ranks come in between as they like.
 */
module JobModel {

  datatype AbortReason = Terminated | CtrlC | ExitNoInit | ExitNoFinalize | FatalError | AppAbort

  /** The enumerator values of abort_reason_t; the exit code of an abort is their negation. */
  function ReasonCode(r: AbortReason): int {
    match r
    case Terminated => 0
    case CtrlC => 1
    case ExitNoInit => 2
    case ExitNoFinalize => 3
    case FatalError => 4
    case AppAbort => 5
  }

  datatype Proc = Proc(
    launched: bool, initCalled: bool, finalizeCalled: bool, suspendPending: bool,
    suspended: bool, exited: bool, failedLaunch: bool, reason: AbortReason, exitCode: int)

  const NEW_PROC := Proc(false, false, false, false, false, false, false, Terminated, 0)

  datatype Group = Group(
    procs: seq<Proc>, aborted: bool, anyNoInitExit: bool, anyInit: bool, numExited: int,
    numPendingSuspends: int, numPendingKills: int, numResults: int)

  datatype Command =
    | Launch(group: nat, ranks: seq<nat>)
    | Suspend(group: nat, rank: nat)
    | Kill(group: nat, rank: nat)
    | Close

  datatype Job = Job(
    groups: seq<Group>, closing: bool, nproc: int, nprocExited: int, exitCode: int,
    outstanding: multiset<Command>, posted: multiset<Command>)

  predicate HasRank(j: Job, g: nat, r: nat) {
    g < |j.groups| && r < |j.groups[g].procs|
  }

  function PostAll(j: Job, cs: multiset<Command>): Job {
    j.(outstanding := j.outstanding + cs, posted := j.posted + cs)
  }

  function SetGroup(j: Job, g: nat, pg: Group): Job
    requires g < |j.groups|
  {
    j.(groups := j.groups[g := pg])
  }

  /** mpiexec_tear_down_tree */
  function TearDown(j: Job): Job {
    if j.closing then j else PostAll(j.(closing := true), multiset{Close})
  }

  // ---- mpiexec_abort_job -------------------------------------------------------------

  predicate Live(p: Proc) {
    !p.exited && !p.failedLaunch
  }

  /** What the suspend round does to one rank's record. */
  function AbortProc(p: Proc): Proc {
    if Live(p) && !p.launched then p.(suspendPending := true) else p
  }

  function AbortProcs(ps: seq<Proc>): (r: seq<Proc>) {
    seq(|ps|, i requires 0 <= i < |ps| => AbortProc(ps[i]))
  }

  /** The suspend commands the round posts for ranks below k. */
  function SuspendCmds(g: nat, ps: seq<Proc>, k: nat): multiset<Command>
    requires k <= |ps|
  {
    if k == 0 then multiset{}
    else if Live(ps[k - 1]) && ps[k - 1].launched then SuspendCmds(g, ps, k - 1) + multiset{Suspend(g, k - 1)}
    else SuspendCmds(g, ps, k - 1)
  }

  /** How many of the ranks below k the round counts as pending. */
  function LiveCount(ps: seq<Proc>, k: nat): nat
    requires k <= |ps|
  {
    if k == 0 then 0 else LiveCount(ps, k - 1) + (if Live(ps[k - 1]) then 1 else 0)
  }

  function Blame(p: Proc, reason: AbortReason, code: int): Proc {
    p.(reason := if p.reason.Terminated? then reason else p.reason, exitCode := code)
  }

  function BlameRank(j: Job, g: nat, r: nat, reason: AbortReason, code: int): Job
    requires HasRank(j, g, r)
  {
    SetGroup(j, g, j.groups[g].(procs := j.groups[g].procs[r := Blame(j.groups[g].procs[r], reason, code)]))
  }

  /** The suspend round: every live rank is sent a suspend now, or once it has come up. */
  function SuspendRound(j: Job, g: nat): Job
    requires g < |j.groups|
  {
    var pg := j.groups[g];
    PostAll(SetGroup(j, g, pg.(aborted := true, procs := AbortProcs(pg.procs),
                               numPendingSuspends := pg.numPendingSuspends + LiveCount(pg.procs, |pg.procs|))),
            SuspendCmds(g, pg.procs, |pg.procs|))
  }

  function AbortJob(j: Job, g: nat, r: nat, reason: AbortReason, code: int): Job
    requires HasRank(j, g, r)
  {
    var j1 := BlameRank(j, g, r, reason, code);
    if j1.groups[g].aborted then j1
    else FirstAbort(j1, g, if reason.AppAbort? then code else -ReasonCode(reason))
  }

  function FirstAbort(j: Job, g: nat, code: int): Job
    requires g < |j.groups|
  {
    var j' := SuspendRound(j, g).(exitCode := code);
    if j'.groups[g].numPendingSuspends == 0 then TearDown(j') else j'
  }

  /** Aborts groups k-1 down to 0: pg_list is walked from the group added last. */
  function AbortAll(j: Job, k: nat): Job
    requires k <= |j.groups| && forall g :: 0 <= g < |j.groups| ==> 0 < |j.groups[g].procs|
    decreases k
  {
    if k == 0 then j
    else
      AbortJobKeepsShape(j, k - 1, 0, FatalError, -1);
      AbortAll(AbortJob(j, k - 1, 0, FatalError, -1), k - 1)
  }

  lemma AbortJobKeepsShape(j: Job, g: nat, r: nat, reason: AbortReason, code: int)
    requires HasRank(j, g, r)
    ensures var j' := AbortJob(j, g, r, reason, code);
            |j'.groups| == |j.groups|
            && forall h :: 0 <= h < |j.groups| ==> |j'.groups[h].procs| == |j.groups[h].procs|
  {
  }

  // ---- answers -----------------------------------------------------------------------

  /** The kill commands the kill round posts for ranks below k: everyone who has not exited. */
  function KillCmds(g: nat, ps: seq<Proc>, k: nat): multiset<Command>
    requires k <= |ps|
  {
    if k == 0 then multiset{}
    else if !ps[k - 1].exited then KillCmds(g, ps, k - 1) + multiset{Kill(g, k - 1)}
    else KillCmds(g, ps, k - 1)
  }

  function UnexitedCount(ps: seq<Proc>, k: nat): nat
    requires k <= |ps|
  {
    if k == 0 then 0 else UnexitedCount(ps, k - 1) + (if ps[k - 1].exited then 0 else 1)
  }

  function Suspended(pg: Group, r: nat): Group
    requires r < |pg.procs|
  {
    pg.(procs := pg.procs[r := pg.procs[r].(suspended := true)], numPendingSuspends := pg.numPendingSuspends - 1)
  }

  /** The kill round: every rank that has not exited is sent a kill. */
  function KillRound(j: Job, g: nat): Job
    requires g < |j.groups|
  {
    var pg := j.groups[g];
    PostAll(SetGroup(j, g, pg.(numPendingKills := pg.numPendingKills + UnexitedCount(pg.procs, |pg.procs|))),
            KillCmds(g, pg.procs, |pg.procs|))
  }

  function Answered(j: Job, c: Command): Job {
    j.(outstanding := j.outstanding - multiset{c})
  }

  /** mpiexec_handle_suspend_result */
  function SuspendResult(j: Job, g: nat, r: nat): Job
    requires HasRank(j, g, r)
  {
    var j' := SetGroup(Answered(j, Suspend(g, r)), g, Suspended(j.groups[g], r));
    if j'.groups[g].numPendingSuspends != 0 then j' else KillRound(j', g)
  }

  /** mpiexec_handle_kill_result */
  function KillResult(j: Job, g: nat, r: nat): Job
    requires g < |j.groups|
  {
    var pg := j.groups[g].(numPendingKills := j.groups[g].numPendingKills - 1);
    var j' := SetGroup(Answered(j, Kill(g, r)), g, pg);
    if pg.numPendingKills == 0 && pg.numPendingSuspends == 0 then TearDown(j') else j'
  }

  function LaunchProcs(ps: seq<Proc>, ranks: seq<nat>): seq<Proc> {
    seq(|ps|, r requires 0 <= r < |ps| => if r in ranks then ps[r].(launched := true) else ps[r])
  }

  /** The delayed suspends sent for the first k ranks of a block that came up. */
  function DelayedSuspends(g: nat, ps: seq<Proc>, ranks: seq<nat>, k: nat): multiset<Command>
    requires k <= |ranks| && forall i :: 0 <= i < |ranks| ==> ranks[i] < |ps|
  {
    if k == 0 then multiset{}
    else if ps[ranks[k - 1]].suspendPending
    then DelayedSuspends(g, ps, ranks, k - 1) + multiset{Suspend(g, ranks[k - 1])}
    else DelayedSuspends(g, ps, ranks, k - 1)
  }

  predicate HasRanks(j: Job, g: nat, ranks: seq<nat>) {
    g < |j.groups| && forall i :: 0 <= i < |ranks| ==> ranks[i] < |j.groups[g].procs|
  }

  /** mpiexec_handle_launch_result for a block that was launched */
  function LaunchOk(j: Job, g: nat, ranks: seq<nat>): Job
    requires HasRanks(j, g, ranks)
  {
    var pg := j.groups[g];
    var pg' := pg.(procs := LaunchProcs(pg.procs, ranks), numResults := pg.numResults + |ranks|);
    PostAll(SetGroup(Answered(j, Launch(g, ranks)), g, pg'),
            DelayedSuspends(g, pg.procs, ranks, |ranks|))
  }

  function FailProcs(ps: seq<Proc>, ranks: seq<nat>): seq<Proc> {
    seq(|ps|, r requires 0 <= r < |ps| =>
      if r in ranks then ps[r].(suspendPending := false, failedLaunch := true) else ps[r])
  }

  function DelayedCount(ps: seq<Proc>, ranks: seq<nat>, k: nat): nat
    requires k <= |ranks| && forall i :: 0 <= i < |ranks| ==> ranks[i] < |ps|
  {
    if k == 0 then 0
    else DelayedCount(ps, ranks, k - 1) + (if ps[ranks[k - 1]].suspendPending then 1 else 0)
  }

  /** The part of MpiexecHandleCmdError that drops a failed block. */
  function DropBlock(j: Job, g: nat, ranks: seq<nat>): Job
    requires HasRanks(j, g, ranks)
  {
    var pg := j.groups[g];
    SetGroup(Answered(j, Launch(g, ranks)), g, pg.(
      procs := FailProcs(pg.procs, ranks),
      numPendingSuspends := pg.numPendingSuspends - DelayedCount(pg.procs, ranks, |ranks|)))
  }

  predicate Populated(j: Job) {
    forall g :: 0 <= g < |j.groups| ==> 0 < |j.groups[g].procs|
  }

  /** MpiexecHandleCmdError for a launch command */
  function LaunchFailed(j: Job, g: nat, ranks: seq<nat>): Job
    requires HasRanks(j, g, ranks) && Populated(j)
  {
    var j' := DropBlock(j, g, ranks);
    if j'.groups[g].aborted && j'.groups[g].numPendingSuspends == 0 then TearDown(j')
    else AbortAll(j', |j'.groups|)
  }

  // ---- what the ranks send -----------------------------------------------------------

  function MarkExited(j: Job, g: nat, r: nat): Job
    requires HasRank(j, g, r)
  {
    var pg := j.groups[g];
    SetGroup(j, g, pg.(procs := pg.procs[r := pg.procs[r].(exited := true)], numExited := pg.numExited + 1))
  }

  /** The exit code counts only for a rank that has not been blamed for anything yet. */
  function NoteExitCode(j: Job, g: nat, r: nat, code: int): Job
    requires HasRank(j, g, r)
  {
    var pg := j.groups[g];
    var p := pg.procs[r];
    if !p.reason.Terminated? then j
    else
      SetGroup(j, g, pg.(procs := pg.procs[r := p.(exitCode := code)]))
      .(exitCode := if j.exitCode == 0 then code else j.exitCode)
  }

  function NoteNoInit(j: Job, g: nat): Job
    requires g < |j.groups|
  {
    SetGroup(j, g, j.groups[g].(anyNoInitExit := true))
  }

  /** mpiexec_handle_exit_command, up to the test that every process of the job has exited. */
  function ExitOfRank(j: Job, g: nat, r: nat, code: int): Job
    requires HasRank(j, g, r)
  {
    var j0 := MarkExited(j, g, r);
    var p := j0.groups[g].procs[r];
    if p.suspended then j0
    else
      var j1 := NoteExitCode(j0, g, r, code);
      if p.initCalled && !p.finalizeCalled then AbortJob(j1, g, r, ExitNoFinalize, code)
      else if p.initCalled then j1
      else if j1.groups[g].anyInit then AbortJob(j1, g, r, ExitNoInit, code)
      else NoteNoInit(j1, g)
  }

  function Exit(j: Job, g: nat, r: nat, code: int): Job
    requires HasRank(j, g, r)
  {
    CountExit(ExitOfRank(j, g, r, code))
  }

  /** The count of all exits, and the tear-down on the last one. */
  function CountExit(j: Job): Job {
    var j' := j.(nprocExited := j.nprocExited + 1);
    if j'.nproc == j'.nprocExited then TearDown(j') else j'
  }

  /** mpiexec_handle_init_command; the rank is refused when anyNoInitExit is set. */
  function Init(j: Job, g: nat, r: nat): Job
    requires HasRank(j, g, r)
  {
    var pg := j.groups[g];
    SetGroup(j, g, pg.(anyInit := true, procs := pg.procs[r := pg.procs[r].(initCalled := true)]))
  }

  /** mpiexec_handle_finalize_command */
  function Finalize(j: Job, g: nat, r: nat): Job
    requires HasRank(j, g, r)
  {
    var pg := j.groups[g];
    SetGroup(j, g, pg.(procs := pg.procs[r := pg.procs[r].(finalizeCalled := true)]))
  }

  // ---- new groups --------------------------------------------------------------------

  predicate NoDup(s: seq<nat>) {
    forall i, k :: 0 <= i < k < |s| ==> s[i] != s[k]
  }

  /** The launch blocks of a group deal out each of its n ranks exactly once. */
  ghost predicate Deals(blocks: seq<seq<nat>>, n: nat) {
    && (forall b :: 0 <= b < |blocks| ==> blocks[b] != [] && NoDup(blocks[b]))
    && (forall b, r :: 0 <= b < |blocks| && r in blocks[b] ==> r < n)
    && (forall b, c, r :: 0 <= b < c < |blocks| && r in blocks[b] ==> r !in blocks[c])
    && (forall r :: 0 <= r < n ==> Dealt(blocks, r))
  }

  ghost predicate Dealt(blocks: seq<seq<nat>>, r: nat) {
    exists b :: 0 <= b < |blocks| && r in blocks[b]
  }

  function LaunchCmds(g: nat, blocks: seq<seq<nat>>, k: nat): multiset<Command>
    requires k <= |blocks|
  {
    if k == 0 then multiset{} else LaunchCmds(g, blocks, k - 1) + multiset{Launch(g, blocks[k - 1])}
  }

  function NewGroup(n: nat): Group {
    Group(seq(n, i => NEW_PROC), false, false, false, 0, 0, 0, 0)
  }

  /** create_process_group followed by one launch command per block */
  function AddGroup(j: Job, n: nat, blocks: seq<seq<nat>>): Job {
    PostAll(j.(groups := j.groups + [NewGroup(n)]), LaunchCmds(|j.groups|, blocks, |blocks|))
  }

  // ---- events ------------------------------------------------------------------------

  datatype Event =
    | EvStartDbs(blocks: seq<seq<nat>>)
    | EvAddDbs(n: nat, blocks: seq<seq<nat>>)
    | EvLaunchOk(g: nat, ranks: seq<nat>)
    | EvLaunchFailed(g: nat, ranks: seq<nat>)
    | EvSuspendResult(g: nat, r: nat)
    | EvKillResult(g: nat, r: nat)
    | EvExit(g: nat, r: nat, code: int)
    | EvInit(g: nat, r: nat)
    | EvFinalize(g: nat, r: nat)
    | EvAbortJob(g: nat, r: nat, intern: bool, code: int)
    | EvCtrlC
    | EvCmdError

  ghost predicate Enabled(j: Job, e: Event) {
    match e
    case EvStartDbs(blocks) => j.groups == [] && 0 < j.nproc && Deals(blocks, j.nproc)
    case EvAddDbs(n, blocks) => j.groups != [] && 0 < n && Deals(blocks, n)
    case EvLaunchOk(g, ranks) => HasRanks(j, g, ranks) && Launch(g, ranks) in j.outstanding
    case EvLaunchFailed(g, ranks) => HasRanks(j, g, ranks) && Populated(j) && Launch(g, ranks) in j.outstanding
    case EvSuspendResult(g, r) => HasRank(j, g, r) && Suspend(g, r) in j.outstanding
    case EvKillResult(g, r) => HasRank(j, g, r) && Kill(g, r) in j.outstanding
    case EvExit(g, r, _) => HasRank(j, g, r) && !j.groups[g].procs[r].exited
    case EvInit(g, r) => HasRank(j, g, r)
    case EvFinalize(g, r) => HasRank(j, g, r)
    case EvAbortJob(g, r, _, _) => HasRank(j, g, r)
    case EvCtrlC => j.groups != [] && Populated(j)
    case EvCmdError => Populated(j)
  }

  ghost function Apply(j: Job, e: Event): Job
    requires Enabled(j, e)
  {
    match e
    case EvStartDbs(blocks) => AddGroup(j, j.nproc, blocks)
    case EvAddDbs(n, blocks) => var j' := AddGroup(j, n, blocks); j'.(nproc := j'.nproc + n)
    case EvLaunchOk(g, ranks) => LaunchOk(j, g, ranks)
    case EvLaunchFailed(g, ranks) => LaunchFailed(j, g, ranks)
    case EvSuspendResult(g, r) => SuspendResult(j, g, r)
    case EvKillResult(g, r) => KillResult(j, g, r)
    case EvExit(g, r, code) => Exit(j, g, r, code)
    case EvInit(g, r) => Init(j, g, r)
    case EvFinalize(g, r) => Finalize(j, g, r)
    case EvAbortJob(g, r, intern, code) => AbortJob(j, g, r, if intern then FatalError else AppAbort, code)
    case EvCtrlC => AbortJob(j, |j.groups| - 1, 0, CtrlC, 0)
    case EvCmdError => AbortAll(j, |j.groups|)
  }

  /** mpiexec before any group exists, with the rank count the command line asked for. */
  function Initial(nproc: int): Job {
    Job([], false, nproc, 0, 0, multiset{}, multiset{})
  }

  /** The events of a run happen one after the other, each enabled when it does. */
  ghost predicate IsRun(j: Job, es: seq<Event>)
    decreases |es|
  {
    es == [] || (Enabled(j, es[0]) && IsRun(Apply(j, es[0]), es[1..]))
  }

  ghost function Run(j: Job, es: seq<Event>): Job
    requires IsRun(j, es)
    decreases |es|
  {
    if es == [] then j else Run(Apply(j, es[0]), es[1..])
  }
}
