/**
 mpiexec's handlers as they run: they update the process groups and the global record in
 place and post commands as they go. Each is proved to take the job from its old state to
 the state the model gives for that event.
 */
module JobHandlers {
  import M = JobModel
  import opened JobModel

  lemma LaunchProcsStep(ps: seq<Proc>, ranks: seq<nat>, i: nat)
    requires i < |ranks| && ranks[i] < |ps|
    ensures LaunchProcs(ps, ranks[..i + 1])
            == LaunchProcs(ps, ranks[..i])[ranks[i] := ps[ranks[i]].(launched := true)]
  {
    assert ranks[..i + 1] == ranks[..i] + [ranks[i]];
  }

  lemma FailProcsStep(ps: seq<Proc>, ranks: seq<nat>, i: nat)
    requires i < |ranks| && ranks[i] < |ps| && NoDup(ranks)
    ensures ranks[i] !in ranks[..i]
    ensures FailProcs(ps, ranks[..i + 1])
            == FailProcs(ps, ranks[..i])[ranks[i] := ps[ranks[i]].(suspendPending := false, failedLaunch := true)]
  {
    assert ranks[..i + 1] == ranks[..i] + [ranks[i]];
  }

  /** What a launched block changes, its answer taken off the wire. */
  ghost function BroughtUp(j: Job, g: nat, ranks: seq<nat>): Job
    requires HasRanks(j, g, ranks)
  {
    var pg := j.groups[g];
    var pg' := pg.(procs := LaunchProcs(pg.procs, ranks), numResults := pg.numResults + |ranks|);
    PostAll(SetGroup(j, g, pg'), DelayedSuspends(g, pg.procs, ranks, |ranks|))
  }

  lemma LaunchOkIs(j: Job, g: nat, ranks: seq<nat>)
    requires HasRanks(j, g, ranks)
    ensures HasRanks(Answered(j, Launch(g, ranks)), g, ranks)
    ensures LaunchOk(j, g, ranks) == BroughtUp(Answered(j, Launch(g, ranks)), g, ranks)
  {
  }

  /** A launch that has failed, once its answer is taken. */
  ghost function Dropped(j: Job, g: nat, ranks: seq<nat>): Job
    requires HasRanks(j, g, ranks)
  {
    var pg := j.groups[g];
    SetGroup(j, g, pg.(procs := FailProcs(pg.procs, ranks),
                       numPendingSuspends := pg.numPendingSuspends - DelayedCount(pg.procs, ranks, |ranks|)))
  }

  lemma DropBlockIs(j: Job, g: nat, ranks: seq<nat>)
    requires HasRanks(j, g, ranks)
    ensures HasRanks(Answered(j, Launch(g, ranks)), g, ranks)
    ensures DropBlock(j, g, ranks) == Dropped(Answered(j, Launch(g, ranks)), g, ranks)
  {
  }

  ghost function AfterKill(j: Job, g: nat): Job
    requires g < |j.groups|
  {
    var pg := j.groups[g];
    if pg.numPendingKills == 0 && pg.numPendingSuspends == 0 then TearDown(j) else j
  }

  lemma KillResultIs(j: Job, g: nat, r: nat, j': Job)
    requires g < |j.groups|
    requires j' == SetGroup(Answered(j, Kill(g, r)), g, j.groups[g].(numPendingKills := j.groups[g].numPendingKills - 1))
    ensures KillResult(j, g, r) == AfterKill(j', g)
  {
  }

  /** smpd_process_group_t; the rank records are allocated once, with the group. */
  class ProcessGroup {
    const procs: array<Proc>
    var aborted: bool
    var anyNoInitExit: bool
    var anyInit: bool
    var numExited: int
    var numPendingSuspends: int
    var numPendingKills: int
    var numResults: int

    /** create_process_group */
    constructor (n: nat)
      ensures View() == NewGroup(n) && fresh(procs)
    {
      procs := new Proc[n](_ => NEW_PROC);
      aborted, anyNoInitExit, anyInit := false, false, false;
      numExited, numPendingSuspends, numPendingKills, numResults := 0, 0, 0, 0;
    }

    ghost function View(): Group
      reads this, procs
    {
      Group(procs[..], aborted, anyNoInitExit, anyInit, numExited, numPendingSuspends, numPendingKills, numResults)
    }
  }

  /** The part of smpd_process the handlers work on, and the commands on the wire. */
  class Mpiexec {
    var pgList: seq<ProcessGroup>
    var closing: bool
    var nproc: int
    var nprocExited: int
    var exitCode: int
    var outstanding: multiset<Command>
    var posted: multiset<Command>

    /** Groups and their rank arrays are all different objects. */
    ghost predicate Valid()
      reads this
    {
      forall g, h :: 0 <= g < h < |pgList| ==> pgList[g] != pgList[h] && pgList[g].procs != pgList[h].procs
    }

    ghost function Groups(): seq<Group>
      reads this, pgList, set pg | pg in pgList :: pg.procs
    {
      seq(|pgList|, g requires 0 <= g < |pgList|
                      reads this, pgList, set pg | pg in pgList :: pg.procs => pgList[g].View())
    }

    ghost function State(): Job
      reads this, pgList, set pg | pg in pgList :: pg.procs
    {
      Job(Groups(), closing, nproc, nprocExited, exitCode, outstanding, posted)
    }

    /** When only group g was written, the state differs in that group alone. */
    twostate lemma OneGroup(g: nat)
      requires old(Valid()) && pgList == old(pgList) && g < |pgList|
      requires forall h :: 0 <= h < |pgList| && h != g ==> unchanged(pgList[h]) && unchanged(pgList[h].procs)
      ensures State().groups == old(State()).groups[g := pgList[g].View()]
    {
    }

    constructor (nproc: int)
      ensures Valid() && State() == Initial(nproc)
    {
      pgList, closing, exitCode, this.nproc, nprocExited := [], false, 0, nproc, 0;
      outstanding, posted := multiset{}, multiset{};
    }

    /** smpd_post_command */
    method Post(c: Command)
      modifies this`outstanding, this`posted
      ensures outstanding == old(outstanding) + multiset{c} && posted == old(posted) + multiset{c}
    {
      outstanding := outstanding + multiset{c};
      posted := posted + multiset{c};
    }

    method Receive(c: Command)
      modifies this`outstanding
      ensures outstanding == old(outstanding) - multiset{c}
    {
      outstanding := outstanding - multiset{c};
    }

    method TearDownTree()
      requires Valid()
      modifies this`closing, this`outstanding, this`posted
      ensures Valid() && State() == TearDown(old(State()))
    {
      if closing {
        return;
      }
      closing := true;
      Post(Close);
      assert State().groups == old(State().groups);
    }

    /** Overwrites the record of one rank. */
    method SetRank(g: nat, rank: nat, p: Proc)
      requires Valid() && HasRank(State(), g, rank)
      modifies pgList[g].procs
      ensures Valid()
      ensures var pg := old(State()).groups[g];
              State() == SetGroup(old(State()), g, pg.(procs := pg.procs[rank := p]))
    {
      pgList[g].procs[rank] := p;
      assert pgList[g].procs[..] == old(pgList[g].procs[..])[rank := p];
      OneGroup(g);
    }

    /** mpiexec_abort_job */
    method AbortJob(g: nat, rank: nat, reason: AbortReason, code: int)
      requires Valid() && HasRank(State(), g, rank)
      modifies this`closing, this`exitCode, this`outstanding, this`posted, pgList[g], pgList[g].procs
      ensures Valid() && State() == M.AbortJob(old(State()), g, rank, reason, code)
    {
      Blame(g, rank, reason, code);
      if pgList[g].aborted {
        return;
      }
      FirstAbort(g, if reason.AppAbort? then code else -ReasonCode(reason));
    }

    method Blame(g: nat, rank: nat, reason: AbortReason, code: int)
      requires Valid() && HasRank(State(), g, rank)
      modifies pgList[g].procs
      ensures Valid() && State() == BlameRank(old(State()), g, rank, reason, code)
    {
      var p := pgList[g].procs[rank];
      SetRank(g, rank, p.(reason := if p.reason.Terminated? then reason else p.reason, exitCode := code));
    }

    /** mpiexec_abort_job, past the test for an earlier abort. */
    method FirstAbort(g: nat, code: int)
      requires Valid() && g < |pgList|
      modifies this`closing, this`exitCode, this`outstanding, this`posted, pgList[g], pgList[g].procs
      ensures Valid() && State() == M.FirstAbort(old(State()), g, code)
    {
      SetExitCode(code);
      SendSuspends(g);
      assert State() == SuspendRound(old(State()), g).(exitCode := code);
      if pgList[g].numPendingSuspends == 0 {
        TearDownTree();
      }
    }

    method SetExitCode(code: int)
      requires Valid()
      modifies this`exitCode
      ensures Valid() && State() == old(State()).(exitCode := code)
    {
      exitCode := code;
      assert State().groups == old(State()).groups;
    }

    /** The suspend round of mpiexec_abort_job. */
    method SendSuspends(g: nat)
      requires Valid() && g < |pgList|
      modifies this`outstanding, this`posted, pgList[g], pgList[g].procs
      ensures Valid() && State() == SuspendRound(old(State()), g)
    {
      pgList[g].aborted := true;
      SuspendLoop(pgList[g], g);
      OneGroup(g);
      assert pgList[g].View() == SuspendRound(old(State()), g).groups[g];
    }

    method SuspendLoop(pg: ProcessGroup, g: nat)
      modifies this`outstanding, this`posted, pg`numPendingSuspends, pg.procs
      ensures var ps := old(pg.procs[..]);
              && pg.procs[..] == AbortProcs(ps)
              && pg.numPendingSuspends == old(pg.numPendingSuspends) + LiveCount(ps, |ps|)
              && outstanding == old(outstanding) + SuspendCmds(g, ps, |ps|)
              && posted == old(posted) + SuspendCmds(g, ps, |ps|)
    {
      ghost var ps := pg.procs[..];
      for i := 0 to pg.procs.Length
        invariant forall r :: 0 <= r < pg.procs.Length ==>
                    pg.procs[r] == if r < i then AbortProc(ps[r]) else ps[r]
        invariant pg.numPendingSuspends == old(pg.numPendingSuspends) + LiveCount(ps, i)
        invariant outstanding == old(outstanding) + SuspendCmds(g, ps, i)
        invariant posted == old(posted) + SuspendCmds(g, ps, i)
      {
        if pg.procs[i].exited || pg.procs[i].failedLaunch {
          continue;
        }
        if !pg.procs[i].launched {
          pg.procs[i] := pg.procs[i].(suspendPending := true);
          pg.numPendingSuspends := pg.numPendingSuspends + 1;
          continue;
        }
        Post(Suspend(g, i));
        pg.numPendingSuspends := pg.numPendingSuspends + 1;
      }
      assert pg.procs[..] == AbortProcs(ps);
    }

    /** mpiexec_handle_suspend_result */
    method HandleSuspendResult(g: nat, rank: nat)
      requires Valid() && HasRank(State(), g, rank)
      modifies this`outstanding, this`posted, pgList[g], pgList[g].procs
      ensures Valid() && State() == SuspendResult(old(State()), g, rank)
    {
      NoteSuspended(g, rank);
      if pgList[g].numPendingSuspends != 0 {
        return;
      }
      SendKills(g);
    }

    method NoteSuspended(g: nat, rank: nat)
      requires Valid() && HasRank(State(), g, rank)
      modifies this`outstanding, pgList[g], pgList[g].procs
      ensures Valid()
      ensures State() == SetGroup(Answered(old(State()), Suspend(g, rank)), g, Suspended(old(State()).groups[g], rank))
    {
      Receive(Suspend(g, rank));
      var pg := pgList[g];
      pg.procs[rank] := pg.procs[rank].(suspended := true);
      pg.numPendingSuspends := pg.numPendingSuspends - 1;
      OneGroup(g);
      assert pg.procs[..] == old(pg.procs[..])[rank := old(pg.procs[rank]).(suspended := true)];
      assert pg.View() == Suspended(old(pg.View()), rank);
    }

    /** The kill round of mpiexec_handle_suspend_result. */
    method SendKills(g: nat)
      requires Valid() && g < |pgList|
      modifies this`outstanding, this`posted, pgList[g]
      ensures Valid() && State() == KillRound(old(State()), g)
    {
      KillLoop(pgList[g], g);
      OneGroup(g);
      assert pgList[g].View() == KillRound(old(State()), g).groups[g];
    }

    /** The loop of mpiexec_handle_suspend_result over the ranks of the group. */
    method KillLoop(pg: ProcessGroup, g: nat)
      modifies this`outstanding, this`posted, pg`numPendingKills
      ensures var ps := pg.procs[..];
              && pg.numPendingKills == old(pg.numPendingKills) + UnexitedCount(ps, |ps|)
              && outstanding == old(outstanding) + KillCmds(g, ps, |ps|)
              && posted == old(posted) + KillCmds(g, ps, |ps|)
    {
      ghost var ps := pg.procs[..];
      for i := 0 to pg.procs.Length
        invariant pg.numPendingKills == old(pg.numPendingKills) + UnexitedCount(ps, i)
        invariant outstanding == old(outstanding) + KillCmds(g, ps, i)
        invariant posted == old(posted) + KillCmds(g, ps, i)
      {
        if pg.procs[i].exited {
          continue;
        }
        Post(Kill(g, i));
        pg.numPendingKills := pg.numPendingKills + 1;
      }
    }

    /** mpiexec_handle_kill_result */
    method HandleKillResult(g: nat, rank: nat)
      requires Valid() && g < |pgList|
      modifies this`closing, this`outstanding, this`posted, pgList[g]
      ensures Valid() && State() == KillResult(old(State()), g, rank)
    {
      TakeAnswer(Kill(g, rank));
      CountKill(g);
      KillResultIs(old(State()), g, rank, State());
      CloseWhenKilled(g);
    }

    method CloseWhenKilled(g: nat)
      requires Valid() && g < |pgList|
      modifies this`closing, this`outstanding, this`posted
      ensures Valid() && State() == AfterKill(old(State()), g)
    {
      assert State().groups[g] == pgList[g].View();
      if pgList[g].numPendingKills == 0 && pgList[g].numPendingSuspends == 0 {
        TearDownTree();
      }
    }

    method CountKill(g: nat)
      requires Valid() && g < |pgList|
      modifies pgList[g]
      ensures Valid()
      ensures var pg := old(State()).groups[g];
              State() == SetGroup(old(State()), g, pg.(numPendingKills := pg.numPendingKills - 1))
    {
      pgList[g].numPendingKills := pgList[g].numPendingKills - 1;
      OneGroup(g);
    }

    /** mpiexec_handle_launch_result, for a block that came up */
    method HandleLaunchResult(g: nat, ranks: seq<nat>)
      requires Valid() && HasRanks(State(), g, ranks)
      modifies this`outstanding, this`posted, pgList[g], pgList[g].procs
      ensures Valid() && State() == LaunchOk(old(State()), g, ranks)
    {
      LaunchOkIs(State(), g, ranks);
      TakeAnswer(Launch(g, ranks));
      BringUp(g, ranks);
    }

    method TakeAnswer(c: Command)
      requires Valid()
      modifies this`outstanding
      ensures Valid() && State() == Answered(old(State()), c)
    {
      Receive(c);
      assert State().groups == old(State()).groups;
    }

    method BringUp(g: nat, ranks: seq<nat>)
      requires Valid() && HasRanks(State(), g, ranks)
      modifies this`outstanding, this`posted, pgList[g], pgList[g].procs
      ensures Valid() && State() == BroughtUp(old(State()), g, ranks)
    {
      LaunchLoop(pgList[g], g, ranks);
      OneGroup(g);
    }

    method LaunchLoop(pg: ProcessGroup, g: nat, ranks: seq<nat>)
      requires forall i :: 0 <= i < |ranks| ==> ranks[i] < pg.procs.Length
      modifies this`outstanding, this`posted, pg`numResults, pg.procs
      ensures var ps := old(pg.procs[..]);
              && pg.procs[..] == LaunchProcs(ps, ranks)
              && pg.numResults == old(pg.numResults) + |ranks|
              && outstanding == old(outstanding) + DelayedSuspends(g, ps, ranks, |ranks|)
              && posted == old(posted) + DelayedSuspends(g, ps, ranks, |ranks|)
    {
      ghost var ps := pg.procs[..];
      for i := 0 to |ranks|
        invariant pg.procs[..] == LaunchProcs(ps, ranks[..i])
        invariant pg.numResults == old(pg.numResults) + i
        invariant outstanding == old(outstanding) + DelayedSuspends(g, ps, ranks, i)
        invariant posted == old(posted) + DelayedSuspends(g, ps, ranks, i)
      {
        var rank := ranks[i];
        LaunchProcsStep(ps, ranks, i);
        assert pg.procs[rank] == LaunchProcs(ps, ranks[..i])[rank];
        pg.procs[rank] := pg.procs[rank].(launched := true);
        pg.numResults := pg.numResults + 1;
        if pg.procs[rank].suspendPending {
          Post(Suspend(g, rank));
        }
      }
      assert ranks[..|ranks|] == ranks;
    }

    /** MpiexecHandleCmdError, for a launch command */
    method HandleLaunchFailure(g: nat, ranks: seq<nat>)
      requires Valid() && HasRanks(State(), g, ranks) && NoDup(ranks) && Populated(State())
      modifies this`closing, this`exitCode, this`outstanding, this`posted
      modifies pgList, set pg | pg in pgList :: pg.procs
      ensures Valid() && State() == LaunchFailed(old(State()), g, ranks)
    {
      Drop(g, ranks);
      if pgList[g].aborted && pgList[g].numPendingSuspends == 0 {
        TearDownTree();
        return;
      }
      AbortEveryGroup();
    }

    method Drop(g: nat, ranks: seq<nat>)
      requires Valid() && HasRanks(State(), g, ranks) && NoDup(ranks)
      modifies this`outstanding, pgList[g], pgList[g].procs
      ensures Valid() && State() == DropBlock(old(State()), g, ranks)
    {
      DropBlockIs(State(), g, ranks);
      TakeAnswer(Launch(g, ranks));
      DropRanks(g, ranks);
    }

    method DropRanks(g: nat, ranks: seq<nat>)
      requires Valid() && HasRanks(State(), g, ranks) && NoDup(ranks)
      modifies pgList[g], pgList[g].procs
      ensures Valid() && State() == Dropped(old(State()), g, ranks)
    {
      DropLoop(pgList[g], ranks);
      OneGroup(g);
    }

    method DropLoop(pg: ProcessGroup, ranks: seq<nat>)
      requires NoDup(ranks) && forall i :: 0 <= i < |ranks| ==> ranks[i] < pg.procs.Length
      modifies pg`numPendingSuspends, pg.procs
      ensures var ps := old(pg.procs[..]);
              && pg.procs[..] == FailProcs(ps, ranks)
              && pg.numPendingSuspends == old(pg.numPendingSuspends) - DelayedCount(ps, ranks, |ranks|)
    {
      ghost var ps := pg.procs[..];
      for i := 0 to |ranks|
        invariant pg.procs[..] == FailProcs(ps, ranks[..i])
        invariant pg.numPendingSuspends == old(pg.numPendingSuspends) - DelayedCount(ps, ranks, i)
      {
        var rank := ranks[i];
        FailProcsStep(ps, ranks, i);
        assert pg.procs[rank] == FailProcs(ps, ranks[..i])[rank] == ps[rank];
        if pg.procs[rank].suspendPending {
          pg.procs[rank] := pg.procs[rank].(suspendPending := false);
          pg.numPendingSuspends := pg.numPendingSuspends - 1;
        }
        pg.procs[rank] := pg.procs[rank].(failedLaunch := true);
      }
      assert ranks[..|ranks|] == ranks;
    }

    /** Aborting groups k-1 down to 0 from here leads to `whole`. */
    ghost predicate Walking(k: int, whole: Job)
      reads this, pgList, set pg | pg in pgList :: pg.procs
    {
      Valid() && Populated(State()) && 0 <= k <= |pgList| && AbortAll(State(), k) == whole
    }

    /** The walk over pg_list in MpiexecHandleCmdError, newest group first */
    method AbortEveryGroup()
      requires Valid() && Populated(State())
      modifies this`closing, this`exitCode, this`outstanding, this`posted
      modifies pgList, set pg | pg in pgList :: pg.procs
      ensures Valid() && State() == AbortAll(old(State()), |pgList|)
    {
      WalkGroups(AbortAll(State(), |pgList|));
    }

    method WalkGroups(ghost whole: Job)
      requires Walking(|pgList|, whole) == true
      modifies this`closing, this`exitCode, this`outstanding, this`posted
      modifies pgList, set pg | pg in pgList :: pg.procs
      ensures Walking(0, whole) == true
    {
      var k := |pgList|;
      while k > 0
        invariant 0 <= k
        invariant Walking(k, whole) == true
      {
        k := k - 1;
        AbortNext(k, whole);
      }
    }

    method AbortNext(k: nat, ghost whole: Job)
      requires Walking(k + 1, whole) == true
      modifies this`closing, this`exitCode, this`outstanding, this`posted
      modifies pgList, set pg | pg in pgList :: pg.procs
      ensures Walking(k, whole) == true
    {
      AbortJobKeepsShape(State(), k, 0, FatalError, -1);
      AbortJob(k, 0, FatalError, -1);
    }

    /** mpiexec_handle_exit_command */
    method HandleExit(g: nat, rank: nat, code: int)
      requires Valid() && HasRank(State(), g, rank)
      modifies this`closing, this`exitCode, this`nprocExited, this`outstanding, this`posted, pgList[g], pgList[g].procs
      ensures Valid() && State() == Exit(old(State()), g, rank, code)
    {
      ExitRank(g, rank, code);
      CountExit();
    }

    method CountExit()
      requires Valid()
      modifies this`closing, this`nprocExited, this`outstanding, this`posted
      ensures Valid() && State() == M.CountExit(old(State()))
    {
      nprocExited := nprocExited + 1;
      assert State().groups == old(State()).groups;
      if nproc == nprocExited {
        TearDownTree();
      }
    }

    method ExitRank(g: nat, rank: nat, code: int)
      requires Valid() && HasRank(State(), g, rank)
      modifies this`closing, this`exitCode, this`outstanding, this`posted, pgList[g], pgList[g].procs
      ensures Valid() && State() == ExitOfRank(old(State()), g, rank, code)
    {
      NoteExited(g, rank);
      var p := pgList[g].procs[rank];
      if p.suspended {
        return;
      }
      SaveExitCode(g, rank, code);
      JudgeExit(g, rank, code, p.initCalled, p.finalizeCalled);
    }

    /** An exit between init and finalize, or without init beside others with, aborts the group. */
    method JudgeExit(g: nat, rank: nat, code: int, initCalled: bool, finalizeCalled: bool)
      requires Valid() && HasRank(State(), g, rank)
      modifies this`closing, this`exitCode, this`outstanding, this`posted, pgList[g], pgList[g].procs
      ensures Valid()
      ensures var j := old(State());
              State() == if initCalled && !finalizeCalled then M.AbortJob(j, g, rank, ExitNoFinalize, code)
                         else if initCalled then j
                         else if j.groups[g].anyInit then M.AbortJob(j, g, rank, ExitNoInit, code)
                         else NoteNoInit(j, g)
    {
      if initCalled && !finalizeCalled {
        AbortJob(g, rank, ExitNoFinalize, code);
      }
      if !initCalled {
        if pgList[g].anyInit {
          AbortJob(g, rank, ExitNoInit, code);
        } else {
          NoteNoInitExit(g);
        }
      }
    }

    method NoteNoInitExit(g: nat)
      requires Valid() && g < |pgList|
      modifies pgList[g]
      ensures Valid() && State() == NoteNoInit(old(State()), g)
    {
      pgList[g].anyNoInitExit := true;
      OneGroup(g);
    }

    method NoteExited(g: nat, rank: nat)
      requires Valid() && HasRank(State(), g, rank)
      modifies pgList[g], pgList[g].procs
      ensures Valid() && State() == MarkExited(old(State()), g, rank)
    {
      var pg := pgList[g];
      pg.procs[rank] := pg.procs[rank].(exited := true);
      pg.numExited := pg.numExited + 1;
      OneGroup(g);
      assert pg.procs[..] == old(pg.procs[..])[rank := old(pg.procs[rank]).(exited := true)];
    }

    method SaveExitCode(g: nat, rank: nat, code: int)
      requires Valid() && HasRank(State(), g, rank)
      modifies this`exitCode, pgList[g].procs
      ensures Valid() && State() == NoteExitCode(old(State()), g, rank, code)
    {
      if pgList[g].procs[rank].reason.Terminated? {
        SetRank(g, rank, pgList[g].procs[rank].(exitCode := code));
        if exitCode == 0 {
          SetExitCode(code);
        }
      }
    }

    /** mpiexec_handle_init_command: refused when a rank has already left without init */
    method HandleInit(g: nat, rank: nat) returns (ok: bool)
      requires Valid() && HasRank(State(), g, rank)
      modifies pgList[g], pgList[g].procs
      ensures Valid() && State() == Init(old(State()), g, rank)
      ensures ok == !old(State()).groups[g].anyNoInitExit
    {
      var pg := pgList[g];
      pg.anyInit := true;
      pg.procs[rank] := pg.procs[rank].(initCalled := true);
      OneGroup(g);
      assert pg.procs[..] == old(pg.procs[..])[rank := old(pg.procs[rank]).(initCalled := true)];
      ok := !pg.anyNoInitExit;
    }

    /** mpiexec_handle_finalize_command */
    method HandleFinalize(g: nat, rank: nat)
      requires Valid() && HasRank(State(), g, rank)
      modifies pgList[g].procs
      ensures Valid() && State() == Finalize(old(State()), g, rank)
    {
      SetRank(g, rank, pgList[g].procs[rank].(finalizeCalled := true));
    }

    /** mpiexec_launch_processes and the launch part of mpiexec_handle_add_dbs_result */
    method LaunchGroup(n: nat, blocks: seq<seq<nat>>)
      requires Valid()
      modifies this`pgList, this`outstanding, this`posted
      ensures Valid() && State() == AddGroup(old(State()), n, blocks)
    {
      var g := |pgList|;
      AppendGroup(n);
      ghost var j := State();
      PostLaunches(g, blocks);
      assert State().groups == j.groups;
    }

    method PostLaunches(g: nat, blocks: seq<seq<nat>>)
      modifies this`outstanding, this`posted
      ensures outstanding == old(outstanding) + LaunchCmds(g, blocks, |blocks|)
      ensures posted == old(posted) + LaunchCmds(g, blocks, |blocks|)
    {
      for b := 0 to |blocks|
        invariant outstanding == old(outstanding) + LaunchCmds(g, blocks, b)
        invariant posted == old(posted) + LaunchCmds(g, blocks, b)
      {
        Post(Launch(g, blocks[b]));
      }
    }

    method AppendGroup(n: nat)
      requires Valid()
      modifies this`pgList
      ensures Valid()
      ensures State() == old(State()).(groups := old(State()).groups + [NewGroup(n)])
    {
      var pg := new ProcessGroup(n);
      pgList := pgList + [pg];
    }

    /** mpiexec_handle_start_dbs_result: the first group holds the ranks of the command line. */
    method HandleStartDbs(blocks: seq<seq<nat>>)
      requires Valid() && Enabled(State(), EvStartDbs(blocks))
      modifies this`pgList, this`outstanding, this`posted
      ensures Valid() && State() == Apply(old(State()), EvStartDbs(blocks))
    {
      LaunchGroup(nproc, blocks);
    }

    /** mpiexec_handle_add_dbs_result: a spawned group adds its ranks to the job's. */
    method HandleAddDbs(n: nat, blocks: seq<seq<nat>>)
      requires Valid() && Enabled(State(), EvAddDbs(n, blocks))
      modifies this`pgList, this`nproc, this`outstanding, this`posted
      ensures Valid() && State() == Apply(old(State()), EvAddDbs(n, blocks))
    {
      LaunchGroup(n, blocks);
      ghost var j := State();
      nproc := nproc + n;
      assert State().groups == j.groups;
    }

    /** mpiexec_ctrl_abort: only the group added last is aborted. */
    method HandleCtrlC()
      requires Valid() && Enabled(State(), EvCtrlC)
      modifies this`closing, this`exitCode, this`outstanding, this`posted
      modifies pgList, set pg | pg in pgList :: pg.procs
      ensures Valid() && State() == Apply(old(State()), EvCtrlC)
    {
      AbortJob(|pgList| - 1, 0, CtrlC, 0);
    }
  }
}
