# MS-MPI launcher and runtime support

A Dafny model of the Windows MPI launcher and its runtime support code, with proofs of what
the code keeps over every run. `dafny verify dfyconfig.toml` checks all of it.

- **Job life cycle and abort** (`Job*.dfy`). mpiexec suspends every rank of an aborted group,
  then kills every rank, then closes the tree. `JobModel` has the state, the commands on the
  wire and one function per handler; answers arrive in any order, and launches may still be
  out when the abort begins. `JobInvariants` and `JobSafety` prove the invariant of every
  step, `JobTheorems` what it means, `JobLiveness` that an abort ends, `JobClosing` when a
  running rank is spared. `JobHistory`, `JobVerdict` and `JobRounds` say from the events of a
  run alone which groups are aborted, who is blamed, what mpiexec returns, and whom the rounds
  of suspends and kills reach. `JobHandlers` has the handlers as they run, on process groups
  updated in place, each proved to do what the model's function says.
- **Startup** (`HostTree.dfy`, `Startup.dfy`, `StartupHistory.dfy`). Connect, collect, start_dbs
  and launch over the tree of hosts.
- **Hardware tree, view and layout** (`Hw*.dfy`, `PackedTree.dfy`, `TreeSpans.dfy`,
  `Modular.dfy`). A tree of affinity masks packed into one array, a view that filters it, and
  nested modular enumerators that walk the view. `PackedTree` has the theorem about filling a
  levelled array through shared strides, for any way of cutting a node into children; the
  builders of tree and view are proved against it. `HwLayoutRows` says from the layout's fields
  where the rows of a pass stand.
- **Sockets** (`SockConnect.dfy`, `SockAttempts.dfy`, `SockIo.dfy`). Connecting to several hosts
  with retries while the socket may be closed, and reads and writes that complete in parts.
- **Launch service** (`LaunchPool.dfy`, `LaunchQueue.dfy`). A pool of contexts whose free list
  is a permutation, and a queue of processes drained by another thread.
- **Launch list and hosts** (`LaunchList.dfy`, `HostsParser.dfy`, `HostMasks.dfy`, `Machine*.dfy`).
  Processes are dealt to host slots; the hosts option is parsed, its masks as they are spelled; a
  machine file is printed for it. `MachineLines` says which lines name a host, and
  `MachinefileTheorems` when the hosts of a file come back.
- **Quoted strings** (`ArgText.dfy`, `ArgStr.dfy`), **binomial trees** (`Binomial.dfy`), **error
  ring** (`ErrorRing.dfy`).
- `Sums.dfy` and `Sealing.dfy` are shared helpers.

A UINT64 affinity mask is the set of its bits. UINT32 sums in an enumerator's steps wrap. The
creation counter of the error ring only ever counts modulo 2^21 and 128, which its wrap-around
does not disturb. Where the code shifts or or-s by powers of two the model adds and divides.

## Findings

Properties that one might expect of the code and that do not hold of it, each with an input
and with the condition under which they do hold.

- The close is meant to come after a kill round. When the last awaited suspend is a delayed
  one and its launch fails, the tree is closed with no kill sent (mpiexec.cpp:420-439).
  `JobClosing.ARankCanBeSpared` is such a run. `JobClosing.ClosingSparesNone` says exactly
  when it happens with one group, `JobClosing.ClosingSparesGroup` with any number.
- A stride that is coprime to its window is meant to visit every node. When a step's 32-bit
  sum wraps and the size does not divide 2^32 some node is missed from some start:
  `HwLayoutTheorems.SevenMissed`, `HwLayoutTheorems.VisitsAllIff`.
- The view is meant to hold every node that meets its group's active mask. With irregular masks
  an active node can have an inactive parent, and is then filtered out, as one core of the
  machine in `HwIrregular.ActiveButHidden` is: the view holds exactly
  the nodes all of whose ancestors are active (`HwViewTheorems.ViewHasAll`,
  `HwViewTheorems.ViewStands`), which for regular masks is the same
  (`HwViewTheorems.RegularVisible`).
- A partial completion that ends at an empty buffer inside the vector leaves that buffer at the
  front of what is posted next: `SockIo.HeadsPositiveIff`. The retry length settles at two
  bytes, not one: `SockIo.ShrunkSettles`.
- MPIU_Str_add_string reports success for a literal that does not fit, whose beginning is then
  read back: `ArgStr.Writer.AddString`, `ArgText.CutLiteralReads`. MPIU_Str_add_string_arg
  reports success for a key or a value that does not fit, of which nothing is there:
  `ArgStr.BothLeftOut`, and exactly when in `ArgStr.EntryOrLess` and
  `ArgStr.Writer.AddStringArg`.
- A search for one key can find another that has a quote behind it:
  `ArgText.QuoteTakesOther`, and exactly which in `ArgText.KeyMatches`.
- An error code can find another creation's slot after 2^21 creations: `ErrorRing.StaleMatch`,
  `ErrorRing.MatchExactly`. A ring slot keeps the mark of a user's code for good:
  `ErrorRing.LeftoverMark`, `ErrorRing.MarkIsWrong`.
- A host whose name is a number is taken for the count of the one before it, when that has
  none: `MachinefileTheorems.NameTakenForCount`. The file is still read right exactly when each
  such name is a 1 and its own count is spelled like it: `MachinefileTheorems.FileComesBack`.

## Model

| member | source | states |
|---|---|---|
| JobSafety.StepKeepsInv | src/mpi/mpiexec/mpiexec_handle_command.cpp:320-451 | Every event of the job (answer, abort request, exit, new group) keeps the invariant that ties each group's counters and flags, rank by rank, to the commands on the wire. |
| JobSafety.RunKeepsInv | src/mpi/mpiexec/mpiexec_handle_command.cpp:504-593 | The invariant holds after every run, whatever the order of the answers. |
| JobTheorems.CountersAreTheWire | src/mpi/mpiexec/mpiexec_handle_command.cpp:320-451 | In every reachable state num_pending_suspends is the number of ranks with a delayed or unanswered suspend, num_pending_kills the number of unanswered kills, and each is sent to a rank at most once. |
| JobTheorems.SentOnce | src/mpi/mpiexec/mpiexec_handle_command.cpp:1135-1164 | A rank is sent at most one suspend and at most one kill, and neither is answered more often than sent. |
| JobTheorems.KillsWaitForSuspends | src/mpi/mpiexec/mpiexec_handle_command.cpp:408-451 | A kill has been posted only for a rank of an aborted group none of whose suspends is awaited any more. |
| JobTheorems.KillsComeFromSuspends | src/mpi/mpiexec/mpiexec_handle_command.cpp:394-451 | Only the answer to a suspend of a group posts kills of that group. |
| JobTheorems.NoKillBeforeSuspends | src/mpi/mpiexec/mpiexec_handle_command.cpp:417-451 | While a suspend of a group is unanswered, no kill of it has been posted. |
| JobTheorems.KillStepIsFirst | src/mpi/mpiexec/mpiexec_handle_command.cpp:417-451 | A step posts kills of a group only if it has had none, and then it has. |
| JobTheorems.KillRoundHappensOnce | src/mpi/mpiexec/mpiexec_handle_command.cpp:417-451 | In any run at most one step posts kills of a group. |
| JobTheorems.QuietGroupHasClosed | src/mpi/mpiexec/mpiexec_handle_command.cpp:320-337 | An aborted group with no launch, suspend or kill outstanding has closed the tree, or all of its ranks have exited. |
| JobTheorems.AbortedJobCloses | src/mpi/mpiexec/mpiexec_handle_command.cpp:1171-1195 | A single-group job that is aborted and has nothing outstanding is closing, and has posted the close command exactly once. |
| JobTheorems.ClosePostedOnce | src/mpi/mpiexec/mpiexec_handle_command.cpp:1180-1195 | In every run the close command has been posted once if the tree is closing, and not at all if not. |
| JobTheorems.LastExitCloses | src/mpi/mpiexec/mpiexec_handle_command.cpp:2135-2147 | When every rank of every group has exited the tree is closing. |
| JobLiveness.AnswersLeaveLess | src/mpi/mpiexec/mpiexec_handle_command.cpp:320-593 | Each answer to an aborted group decreases a measure of what it still waits for. |
| JobLiveness.StepLeavesLess | src/mpi/mpiexec/mpiexec_handle_command.cpp:320-593 | No event adds to that measure for an aborted group, and each answer takes from it. |
| JobLiveness.AnswersRunOut | src/mpi/mpiexec/mpiexec_handle_command.cpp:320-593 | So after an abort any run has only so many answers for the group. |
| JobLiveness.AbortNeverStalls | src/mpi/mpiexec/mpiexec_handle_command.cpp:1099-1177 | As long as an aborted single-group job is not closing, some launch, suspend or kill of it is still to be answered. |
| JobClosing.ClosingSparesNone | src/mpi/mpiexec/mpiexec.cpp:420-439 | A step that closes a single-group job leaves no running rank without a kill if and only if it is not the failure of the last launch that a delayed suspend waited for, with a rank running. |
| JobClosing.ClosingSparesGroup | src/mpi/mpiexec/mpiexec_handle_command.cpp:320-451 | For any number of groups: the closing step leaves no running rank of a group without a kill if and only if that group's kill round is over, or none of its ranks runs on. |
| JobClosing.FailedLaunchCloses | src/mpi/mpiexec/mpiexec.cpp:420-439 | A failed launch that closes an aborted job leaves a running rank unkilled exactly when suspends were still awaited and a rank is running. |
| JobClosing.ARankCanBeSpared | src/mpi/mpiexec/mpiexec.cpp:420-439 | A run from the start of a two-rank job to a closed tree in which a rank is running and no kill was ever posted. |
| JobHistory.FlagsAreHistory | src/mpi/mpiexec/mpiexec_handle_command.cpp:2072-2132 | In every reachable state each flag of a rank and of its group is the occurrence of an event: init, finalize, suspend answer, exit, launch, failed launch, some init in the group, some exit of a rank before any. |
| JobVerdict.AbortedIff | src/mpi/mpiexec/mpiexec_handle_command.cpp:1099-1177 | After any run: an event aborts exactly the groups it is a reason to abort: the group of an abort request or of a bad exit, the last group for control-C, every group for a failed command or a failed launch that does not settle an aborted group. |
| JobVerdict.ExitAborts | src/mpi/mpiexec/mpiexec_handle_command.cpp:2091-2132 | An exit aborts its group exactly when it was not forced by a suspend and the run holds an init and no finalize of the rank, or no init of it but one of another rank. |
| JobVerdict.BlameIs | src/mpi/mpiexec/mpiexec_handle_command.cpp:1111-1119 | The first blame of a rank stays; its exit code is that of the last blame, or of its own exit when it had none and was not suspended. |
| JobVerdict.ExitCodeIs | src/mpi/mpiexec/mpiexec_handle_command.cpp:1126-1133 | mpiexec returns -1 for control-C, -2 and -3 for bad exits, -4 for errors, the given code for an abort request, as of the last first abort of a group; without one, the first exit code that is not 0. |
| JobVerdict.ExitCodeStays | src/mpi/mpiexec/mpiexec_handle_command.cpp:1120-1133 | A code that is not 0 stays once every group is aborted and none is added. |
| JobVerdict.InitRefused | src/mpi/mpiexec/mpiexec_handle_command.cpp:1279-1284 | An init is refused exactly when some rank of the group had left, not forced by a suspend, before any init of the group. |
| JobRounds.SuspendsReachAll | src/mpi/mpiexec/mpiexec_handle_command.cpp:1135-1164 | In every reachable state, in an aborted group: a rank that has come up and not left has been sent its suspend, one that may still come up is marked for it, and nobody else is sent one. |
| JobRounds.KillsReachAll | src/mpi/mpiexec/mpiexec_handle_command.cpp:411-451 | The answer to the last awaited suspend, and no other, sends a kill to every rank that has not left, and to nobody else. |
| JobRounds.ClosedIff | src/mpi/mpiexec/mpiexec_handle_command.cpp:320-337 | An event closes the tree exactly when it is the last kill, the failed launch that settles an aborted group, the last exit, or an abort of a group with nobody left. |
| JobRounds.ResultsAreLaunches | src/mpi/mpiexec/mpiexec_handle_command.cpp:540-552 | num_results is the number of ranks that have come up. |
| JobHandlers.Mpiexec.TearDownTree | src/mpi/mpiexec/mpiexec_handle_command.cpp:1180-1195 | Posts the close command and marks the tree closing, once. |
| JobHandlers.Mpiexec.AbortJob | src/mpi/mpiexec/mpiexec_handle_command.cpp:1099-1177 | Blames the rank, and on the first abort of the group runs the suspend round, sets the exit code, and closes the tree when there is no one to suspend. |
| JobHandlers.Mpiexec.SuspendLoop | src/mpi/mpiexec/mpiexec_handle_command.cpp:1137-1164 | Over the ranks in place: live ranks that are up are sent a suspend, live ranks that are not are marked for one, both are counted. |
| JobHandlers.Mpiexec.HandleSuspendResult | src/mpi/mpiexec/mpiexec_handle_command.cpp:394-451 | Marks the rank suspended, counts down, and on the last awaited suspend sends the kill round. |
| JobHandlers.Mpiexec.KillLoop | src/mpi/mpiexec/mpiexec_handle_command.cpp:425-451 | Every rank that has not exited is sent a kill and counted. |
| JobHandlers.Mpiexec.HandleKillResult | src/mpi/mpiexec/mpiexec_handle_command.cpp:320-337 | Counts down and closes the tree when neither kills nor suspends are pending. |
| JobHandlers.Mpiexec.HandleLaunchResult | src/mpi/mpiexec/mpiexec_handle_command.cpp:504-593 | Marks the block's ranks launched, counts them, and sends each the suspend that was delayed for it. |
| JobHandlers.Mpiexec.HandleLaunchFailure | src/mpi/mpiexec/mpiexec.cpp:397-461 | Drops the ranks of a failed block with their delayed suspends; then closes the tree if the group is aborted and waits for none, or aborts every group. |
| JobHandlers.Mpiexec.DropLoop | src/mpi/mpiexec/mpiexec.cpp:420-433 | Per rank of the block: the delayed suspend is cancelled and counted down, the rank marked failed. |
| JobHandlers.Mpiexec.AbortEveryGroup | src/mpi/mpiexec/mpiexec.cpp:442-460 | Walks the group list, newest first, and aborts each. |
| JobHandlers.Mpiexec.HandleExit | src/mpi/mpiexec/mpiexec_handle_command.cpp:2072-2147 | Marks and counts the exit, keeps the exit code, aborts a group whose rank leaves between init and finalize, and closes the tree on the last exit. |
| JobHandlers.Mpiexec.HandleInit | src/mpi/mpiexec/mpiexec_handle_command.cpp:1254-1284 | Marks the rank initialized, and refuses it when some rank of the group has already left without init. |
| JobHandlers.Mpiexec.HandleFinalize | src/mpi/mpiexec/mpiexec_handle_command.cpp:1729-1765 | Marks the rank finalized. |
| JobHandlers.Mpiexec.LaunchGroup | src/mpi/mpiexec/mpiexec_handle_command.cpp:860-921 | A new group is appended and one launch command is posted per block. |
| JobHandlers.Mpiexec.HandleStartDbs | src/mpi/mpiexec/mpiexec_handle_command.cpp:924-951 | The first group holds the ranks of the command line. |
| JobHandlers.Mpiexec.HandleAddDbs | src/mpi/mpiexec/mpiexec_handle_command.cpp:954-1010 | A spawned group adds its ranks to the job's. |
| JobHandlers.Mpiexec.HandleCtrlC | src/mpi/mpiexec/mpiexec.cpp:242-262 | A control-C aborts the group that was added last. |
| Startup.StepKeepsInv | src/mpi/mpiexec/mpiexec_connect.cpp:118-192 | Every answer or failure during startup keeps the invariant over connects, collects and start_dbs. |
| Startup.PhasesDoNotOverlap | src/mpi/mpiexec/mpiexec_handle_command.cpp:150-317 | Collects are posted to every host in one round exactly when all are connected, start_dbs once exactly when all are collected, and launches follow only its answer. |
| Startup.EachHostOnce | src/mpi/mpiexec/mpiexec_connect.cpp:172-192 | A host is marked connected once and after its parent, and collected once. |
| Startup.StartupNeverStalls | src/mpi/mpiexec/mpiexec_connect.cpp:118-192 | Until it launches or exits, some answer is always still to come. |
| StartupHistory.StartupIsHistory | src/mpi/mpiexec/mpiexec_connect.cpp:12-55 | After any run: connected and collected are the hosts whose answers have said so, mpiexec has given up exactly when a user was needed and nobody could be asked, and a connect has gone to each host below a connected one and once more for each time its user was asked for. |
| Startup.Connector.TreeIsConnected | src/mpi/mpiexec/mpiexec_connect.cpp:154-169 | Scans the host list: whether every host is connected. |
| Startup.Connector.HandleNodeConnection | src/mpi/mpiexec/mpiexec_connect.cpp:172-192 | Marks the host, asks for its children's connections, and sends the collects when the tree is complete. |
| Startup.Connector.HandleConnectResult | src/mpi/mpiexec/mpiexec_connect.cpp:12-55 | The answer to a connect: the child is connected, or its user is still to be asked for. |
| Startup.Connector.HandleCollectResult | src/mpi/mpiexec/mpiexec_handle_command.cpp:150-235 | Marks the host collected and starts the database when all are. |
| HostTree.NextParent | src/mpi/mpiexec/smpd_host_util.cpp:105-116 | The loop that finds the parent of a new host: the highest power of two that is not above half the number, or-ed with the number modulo it. |
| HostTree.TopIsPower | src/mpi/mpiexec/smpd_host_util.cpp:105-116 | The bit that the loop ends with is the highest power of two that is not above half the number. |
| HostTree.ChildrenAre | src/mpi/mpiexec/smpd_host_util.cpp:105-116 | Every host but the first is the left or the right child of exactly its parent, which has a smaller number. |
| HostTree.FixUp | src/mpi/mpiexec/smpd_host_util.cpp:11-37 | Left and right of every host are its children, where they exist. |
| HwMask.RoundMeets | src/mpi/common/hwtree.cpp:141-200 | Before a round of the mask-shifting loop something is left of the mask exactly when the round's mask meets it. |
| HwMask.RestBits | src/mpi/common/hwtree.cpp:141-200 | What is left after k rounds is the mask without its first k pieces, bit by bit. |
| HwMask.PieceOf | src/mpi/common/hwtree.cpp:206-273 | Every bit of the mask is in one of the pieces that the loop makes, for every mask and every width. |
| HwMask.PieceMeets | src/mpi/common/hwtree.cpp:206-273 | Every piece that the loop makes has a bit of the mask. |
| HwMask.RunPieces | src/mpi/common/hwtree.cpp:206-273 | A run is cut into consecutive runs of the width. |
| HwMask.RunCount | src/mpi/common/hwtree.cpp:206-273 | There are as many of them as the width goes into its length. |
| PackedTree.Builder.InitializeNode | src/mpi/common/hwtree.cpp:43-70 | One node is written: level, parent, and the sibling's and parent's ranges moved on, nothing else. |
| PackedTree.Builder.Open | src/mpi/common/hwtree.cpp:43-70 | A child is linked in at the stride of its level if there is room, and nothing is written if not. |
| PackedTree.FillingDone | src/mpi/common/hwtree.cpp:141-415 | The theorem of the builders: a fill that does not run out of room leaves each level's slice filled contiguously with families that agree in parent and sibling links, and needs exactly the counted nodes; it runs out exactly when they do not fit. |
| PackedTree.ParentIn | src/mpi/common/hwtree.cpp:43-70 | Every node of a level has its parent in the level above: the families leave no gap. |
| HwTree.PlaceChild | src/mpi/common/hwtree.cpp:87-110 | A child's mask is placed, with the fill of what is below it. |
| HwTree.InitializeBelow | src/mpi/common/hwtree.cpp:141-344 | The loops over cores, packages and nodes terminate for every mask and width and do what the fill of the mask cut says, never outside their slices. |
| HwTree.InitializeGroups | src/mpi/common/hwtree.cpp:349-415 | The groups are placed below the machine. |
| HwTree.Initialize | src/mpi/common/hwtree.cpp:495-576 | BufferTooSmall, with nothing written, exactly when the counted nodes exceed the buffer; otherwise success exactly when the cut of every mask fits in the counts, and then every level is filled with families that agree with the masks. |
| HwTree.FamilyCovers | src/mpi/common/hwtree.cpp:206-344 | Every processor of a node is in the mask of one of its children. |
| HwTree.TreeFertile | src/mpi/common/hwtree.cpp:206-344 | Every node above the logical cores has children. |
| HwRegular.RegularFits | src/mpi/common/hwtree.cpp:429-574 | For masks that are runs with widths that divide each other the initialization succeeds, every level exactly full. |
| HwRegular.RegularMasks | src/mpi/common/hwtree.cpp:141-344 | Then every node's mask is the disjoint union of its children's, in order. |
| HwRegular.NodesAreRuns | src/mpi/common/hwtree.cpp:141-344 | Then every node stands for a run of its level's width. |
| TreeSpans.SpanIn | src/mpi/common/hwtree.cpp:43-70 | The descendants of a node on a level lie within that level. |
| TreeSpans.SpanNext | src/mpi/common/hwtree.cpp:43-70 | The descendants of neighbours are neighbours. |
| TreeSpans.SpanEnds | src/mpi/common/hwtree.cpp:43-70 | The descendants of the machine are the whole level. |
| TreeSpans.SpanIsDescendants | src/mpi/common/hwtree.cpp:43-70 | From the first node's first descendant to the last one's last are exactly the nodes it is the ancestor of. |
| TreeSpans.TiledParent | src/mpi/common/hwtree.cpp:43-70 | The parent field names the one node whose family a node is in. |
| HwView.CalculateCountNodes | src/mpi/common/hwview.cpp:136-186 | The walk over first and last children counts exactly the nodes of each level of the tree. |
| HwView.InitializeSubTree | src/mpi/common/hwview.cpp:62-120 | The recursion places the active children of each tree node, never runs out of room, and does what the fill of the filter says. |
| HwView.Initialize | src/mpi/common/hwview.cpp:202-292 | BufferTooSmall, with nothing written, exactly when the buffer cannot hold as many nodes as the tree; otherwise success, with the filtered tree as the view, or the machine alone when nothing is active. |
| HwView.ActiveHasChild | src/mpi/common/hwview.cpp:62-120 | An active node above the logical cores has an active child. |
| HwView.ViewFertile | src/mpi/common/hwview.cpp:62-120 | With a core active every view node above the lowest level has a child. |
| HwView.CountInSpan | src/mpi/common/hwview.cpp:62-120 | The view never needs more nodes below a node than the tree has there. |
| HwViewTheorems.ViewStands | src/mpi/common/hwview.cpp:62-120 | Every node of the view stands for a visible tree node of its level, and its parent for that node's parent. |
| HwViewTheorems.ViewInOrder | src/mpi/common/hwview.cpp:62-120 | The view keeps the order of the tree, level by level. |
| HwViewTheorems.ViewHasAll | src/mpi/common/hwview.cpp:62-120 | Every visible tree node is in the view. |
| HwViewTheorems.RegularVisible | src/mpi/common/hwview.cpp:62-120 | On a machine with regular masks the visible nodes are exactly those that meet their group's active mask. |
| HwIrregular.Counts | src/mpi/common/hwtree.cpp:429-478 | A machine whose masks are irregular and whose tree still is built: the cut of its masks needs no more nodes than are counted. |
| HwIrregular.ActiveButHidden | src/mpi/common/hwview.cpp:62-120 | In every tree of that machine an active core is the child of an inactive numa node, and so not visible. |
| HwLayout.WindowIs | src/mpi/common/hwlayout.cpp:339-396 | The window of an enumerator is never empty and holds exactly the descendants of the node the enumerator before stands on. |
| HwLayout.KnownPositive | src/mpi/common/hwlayout.cpp:175-224 | A well-known size is positive, so no divisor is zero. |
| HwLayoutTheorems.KnownCounts | src/mpi/common/hwlayout.cpp:175-224 | A well-known size is the number of the view's nodes of its level that are in scope. |
| HwLayout.ResolveWellknown | src/mpi/common/hwlayout.cpp:175-224 | The loop over the enumerators resolves a well-known size to that value. |
| HwLayout.Resolve | src/mpi/common/hwlayout.cpp:237-285 | An expression resolves to its value: a constant or well-known size, or the quotient of two. |
| HwLayout.FindWindow | src/mpi/common/hwlayout.cpp:322-344 | Start and Size are set to the window, and Current into it. |
| HwLayout.ProcessTarget | src/mpi/common/hwlayout.cpp:111-160 | The callback is called for the ancestor of the target's level, at most TargetCount processes, stopping at MaxProc. |
| HwLayout.RunTurns | src/mpi/common/hwlayout.cpp:377-396 | The inner loop makes the rows of count turns, each a stride further around the window. |
| HwLayout.RunRepeats | src/mpi/common/hwlayout.cpp:360-396 | The outer loop repeats them, a repeat offset further each time. |
| HwLayout.ProcessEnum | src/mpi/common/hwlayout.cpp:318-396 | One pass over the enumerators calls the target for exactly the rows of the nested loops, in order, as far as it is not stopped. |
| HwLayout.Process | src/mpi/common/hwlayout.cpp:60-98 | It terminates, never exceeds a non-zero MaxProc, and succeeds only with MinProc processes, or MaxProc, or when the callback ended it early; its calls are those of the nested loops, over and over. |
| HwLayoutTheorems.VisitsEachOnce | src/mpi/common/hwlayout.cpp:377-396 | A stride coprime to the size reaches each node of the window in exactly one of Size steps, when the steps lose nothing in 32 bits. |
| HwLayoutTheorems.VisitsAllIff | src/mpi/common/hwlayout.cpp:377-396 | Every node is reached from every node if and only if stride and size are coprime and either their sum stays within 2^32 or the size divides 2^32. |
| HwLayoutTheorems.SevenMissed | src/mpi/common/hwlayout.cpp:377-396 | Size 7 and stride 2^32 - 1 are coprime, and from offset 0 the steps go 3, 2, 1, 0 and never reach 6. |
| HwLayoutTheorems.PassVisitsEachOnce | src/mpi/common/hwlayout.cpp:377-396 | A pass of Size turns makes the rows of every node of its window exactly once, in the order of its steps. |
| HwLayoutTheorems.TurnsSplit | src/mpi/common/hwlayout.cpp:377-396 | n turns are the first k, and n - k from where those lead. |
| HwLayoutTheorems.ViewIsScene | src/mpi/common/hwview.cpp:202-292 | What the view's initializer leaves is what a layout needs. |
| HwLayoutRows.ValueMeans | src/mpi/common/hwlayout.cpp:237-285 | An expression is its constant or the number of nodes of its level in scope, or the quotient of two such amounts. |
| HwLayoutRows.PassRows | src/mpi/common/hwlayout.cpp:318-396 | Where the rows of a pass stand, from the fields of the layout alone: the first at the offset, each turn a stride on, each repeat its offset on; as long as no 32-bit sum wraps, turn k of repeat j at start + (offset + j * (count * stride + repeat offset) + k * stride) mod size. |
| HwLayoutRows.TargetIs | src/mpi/common/hwlayout.cpp:124-137 | The target of a call is the one node of the target's level that the last enumerator stands on or below. |
| SockConnect.StepKeeps | src/mpi/common/sock.cpp:1023-1276 | Every completion, timer expiry or post_close keeps the invariant of the connecting socket. |
| SockConnect.ReportsInOrder | src/mpi/common/sock.cpp:1116-1276 | In every interleaving the connect is reported at most once, and the close after it. |
| SockConnect.NothingAfterClose | src/mpi/common/sock.cpp:1494-1518 | When the close is reported nothing of the connect is left to come. |
| SockConnect.NeverStuck | src/mpi/common/sock.cpp:1023-1111 | Until the connect is reported some completion or timer is under way. |
| SockConnect.AttemptsAreFew | src/mpi/common/sock.cpp:1116-1205 | At most hosts * (retries + 1) connects are attempted. |
| SockConnect.NoneOnceClosing | src/mpi/common/sock.cpp:1116-1205 | Once post_close was called no further connect is attempted. |
| SockConnect.RunsEnd | src/mpi/common/sock.cpp:1023-1276 | Every run ends: its length is bounded. |
| SockConnect.ReportedInTheEnd | src/mpi/common/sock.cpp:1116-1276 | A run that cannot go on, unless by a close, has reported the connect exactly once. |
| SockAttempts.ConnectedIff | src/mpi/common/sock.cpp:1262-1276 | In every run the connect is reported as made exactly when an attempt has succeeded. |
| SockAttempts.TriedInOrder | src/mpi/common/sock.cpp:1182-1232 | The hosts are tried in the order of the list: a refused one again until it has had one attempt more than there are retries, and after that, or after any other failure, the next. |
| SockAttempts.FailsWhenExhausted | src/mpi/common/sock.cpp:1207-1220 | Without a close and without faults a failure is reported only when the last host has had all its attempts or failed otherwise. |
| SockAttempts.FailsIff | src/mpi/common/sock.cpp:1114-1205 | A failed attempt is reported as the failure of the connect exactly when the socket is closing, the next attempt or the timer for it cannot be started, or no host is left. |
| SockAttempts.CloseDrains | src/mpi/common/sock.cpp:1623-1640 | A close is graceful exactly when the connect had been reported as made and the shutdown works; otherwise nothing of the connect is left outstanding. |
| SockConnect.Connection.OnConnectFailed | src/mpi/common/sock.cpp:1114-1205 | A failure is retried later, goes on to the next host, or is reported. |
| SockConnect.Connection.OnConnectSucceeded | src/mpi/common/sock.cpp:1261-1276 | A success is reported; the graceful close takes over unless the socket is closing. |
| SockConnect.Connection.CloseHard | src/mpi/common/sock.cpp:1504-1518 | The timer is deleted, the outstanding connect cancelled, the close completed. |
| SockConnect.Connection.Next | src/mpi/common/sock.cpp:1116-1276 | The next completion is handled, and the invariant kept. |
| SockIo.TrimmedCovers | src/mpi/common/sock.cpp:122-153 | After a partial completion the vector covers exactly the bytes that are left. |
| SockIo.TrimmedKeeps | src/mpi/common/sock.cpp:122-153 | They are at the end of the vector, and no buffer of it is empty that was not. |
| SockIo.HeadsPositiveIff | src/mpi/common/sock.cpp:122-153 | Whatever is posted begins with a non-empty buffer, for every sequence of completions, if and only if no buffer of the vector is empty. |
| SockIo.ShrunkStays | src/mpi/common/sock.cpp:157-262 | The length halved on each retry stays between 1 and the first buffer's length. |
| SockIo.ShrunkIs | src/mpi/common/sock.cpp:157-262 | After n refusals the length is 2 + (len - 2) / 2^n. |
| SockIo.ShrunkSettles | src/mpi/common/sock.cpp:157-262 | It settles at two bytes, when there is more than one. |
| SockIo.SafeSend | src/mpi/common/sock.cpp:157-205 | The whole vector is posted; with a refusal its first buffer alone, halved at each refusal, and never emptied or longer than it was. |
| SockIo.SafeReceive | src/mpi/common/sock.cpp:210-262 | The first buffer alone is posted, at most a megabyte of it, halved at each refusal in the same way. |
| SockIo.Transfer.Trim | src/mpi/common/sock.cpp:122-153 | The vector is trimmed in place by the bytes that were done. |
| SockIo.Transfer.WriteSucceeded | src/mpi/common/sock.cpp:1753-1778 | A write reports success exactly when all its bytes are done; what is left is always exactly the rest of the bytes, empty buffers inside or not, and is posted again, whole or shrunk. |
| SockIo.Transfer.ReadSucceeded | src/mpi/common/sock.cpp:1650-1685 | No bytes mean that the connection was closed; success is reported exactly when the vector is full or min_recv bytes have come; otherwise the rest is received, its first buffer next. |
| LaunchPool.PermutationNamesAll | src/launchSvc/MsmpiLaunchSvc.cpp:55-150 | A permutation of the places names every context. |
| LaunchPool.SwapFrees | src/launchSvc/MsmpiLaunchSvc.cpp:132-146 | Swapping a live place with the last live one and dropping that frees exactly it. |
| LaunchPool.ContextPool.CreateNewContext | src/launchSvc/MsmpiLaunchSvc.cpp:88-107 | A zeroed context that was not live, or none when all are. |
| LaunchPool.ContextPool.DestroyContext | src/launchSvc/MsmpiLaunchSvc.cpp:110-150 | No context is no error, a place outside the array is refused, and a live context is zeroed and freed, with every other left as it was. |
| LaunchPool.ContextPool.FindContext | src/launchSvc/MsmpiLaunchSvc.cpp:155-178 | A live context that matches, or none if there is none. |
| LaunchQueue.StepKeeps | src/launchSvc/MsmpiLaunchSvc.cpp:239-406 | Every step of an adder, the waiter or a finishing process keeps the queue's invariant. |
| LaunchQueue.AlwaysRoom | src/launchSvc/MsmpiLaunchSvc.cpp:259-276 | AddProcess always has room, and slot 0 stays the event. |
| LaunchQueue.RemovesTheReported | src/launchSvc/MsmpiLaunchSvc.cpp:291-308 | DeleteProcess removes the process whose handle the wait has reported. |
| LaunchQueue.RemovedAtMostOnce | src/launchSvc/MsmpiLaunchSvc.cpp:291-308 | Each process is removed at most as often as it was added. |
| LaunchQueue.NoLostWakeup | src/launchSvc/MsmpiLaunchSvc.cpp:363-406 | A waiter whose snapshot is short finds the event set, or an adder is about to set it. |
| LaunchQueue.WakesAreSignals | src/launchSvc/MsmpiLaunchSvc.cpp:363-406 | The thread is woken by the event no more often than it is set. |
| LaunchQueue.ContextsBalance | src/launchSvc/MsmpiLaunchSvc.cpp:88-150 | Every context that is taken is given back once: cleaned up, or when its manager is not started or has ended. |
| LaunchQueue.ProcessQueue.AddProcess | src/launchSvc/MsmpiLaunchSvc.cpp:259-276 | The handle goes to the end and the event is set. |
| LaunchQueue.ProcessQueue.DeleteProcess | src/launchSvc/MsmpiLaunchSvc.cpp:291-308 | The handle at the index is taken out and returned, and the last one moves to its place. |
| LaunchList.SlotOf | src/mpi/mpiexec/mp_parse_command_line.cpp:1483-1506 | The t-th process drawn from a pool goes to slot t mod total of the list that repeats each host nproc times. |
| LaunchList.SlotIsUnique | src/mpi/mpiexec/mp_parse_command_line.cpp:1483-1506 | A slot belongs to one host. |
| LaunchList.DrawnAt | src/mpi/mpiexec/mp_parse_command_line.cpp:1483-1506 | The iterator after t draws is where that slot is. |
| LaunchList.OrderIsGiven | src/mpi/mpiexec/mp_parse_command_line.cpp:1602-1604 | Every number below a host's process count is given to one of its processes. |
| LaunchList.OrderIsUnique | src/mpi/mpiexec/mp_parse_command_line.cpp:1602-1604 | And to no other. |
| LaunchList.RanksCount | src/mpi/mpiexec/mp_parse_command_line.cpp:1675-1727 | Every rank appears exactly once, at its place. |
| LaunchList.NextMask | src/mpi/mpiexec/mp_parse_command_line.cpp:1646-1657 | Explicit masks are dealt cyclically in the user's order. |
| LaunchList.HostPool.SetCoresPerHost | src/mpi/mpiexec/mp_parse_command_line.cpp:3092-3105 | Every host gets n processes, none is changed for 0, and the pool's count stays the sum over its hosts. |
| LaunchList.LaunchList.AddApp | src/mpi/mpiexec/mp_parse_command_line.cpp:1466-1672 | The processes of a block go to the next slots of its pool, with their node order and masks, and the iterator goes on from there. |
| LaunchList.LaunchList.CreateLaunchList | src/mpi/mpiexec/mp_parse_command_line.cpp:1675-1727 | Blocks without a pool of their own go on where the last such block stopped; it fails exactly when there are too many ranks. |
| ArgText.StringsComeBack | src/mpi/common/argstr.cpp:479-547 | Reading a text of added strings, token by token, gives exactly those strings, for arbitrary contents. |
| ArgText.CutLiteralReads | src/mpi/common/argstr.cpp:458-475 | A literal that did not fit is reported as added, and is read back cut short. |
| ArgText.LookupFinds | src/mpi/common/argstr.cpp:271-308 | Looking up a key gives the first value whose key the search takes, and fails when there is none; for every search, quotes or not. |
| ArgText.KeyMatches | src/mpi/common/argstr.cpp:82-155 | Exactly which keys a search takes, whatever the search: its own, and a quoted one that goes on with a quote behind it. |
| ArgText.SearchIsRight | src/mpi/common/argstr.cpp:271-308 | With quote-free keys other than the delimiter that is the first value added under the key. |
| ArgText.QuoteTakesOther | src/mpi/common/argstr.cpp:98-115 | A search for a b finds the value of the key a b"c. |
| ArgStr.SkipToken | src/mpi/common/argstr.cpp:31-80 | next_token goes to the token after this one. |
| ArgStr.CompareToken | src/mpi/common/argstr.cpp:82-155 | Whether a token is the given string, as the comparison says it. |
| ArgStr.CopyToken | src/mpi/common/argstr.cpp:157-249 | A token's contents, or too little room, or no closing quote, with what is written in each case. |
| ArgStr.GetString | src/mpi/common/argstr.cpp:501-547 | The next string and where the one after it begins, or -1, or -2. |
| ArgStr.GetStringArg | src/mpi/common/argstr.cpp:271-308 | The value at the place the key is looked up to, with the status of copying it. |
| ArgStr.Writer.QuotedPrintf | src/mpi/common/argstr.cpp:350-396 | As much of the quoted value as there is room for. |
| ArgStr.Writer.Snprintf | src/mpi/common/mpistr.cpp:12-44 | What fits is written, and on overflow 0 is returned. |
| ArgStr.Writer.AddString | src/mpi/common/argstr.cpp:421-477 | The printed string is appended; a quoted one that does not fit is an error, a literal that does not is cut unreported. |
| ArgStr.Writer.AddStringArg | src/mpi/common/argstr.cpp:570-662 | Success is reported exactly when what is spelled of the entry fits, and exactly that is appended; it is the entry if and only if the entry fits, and less, with success still reported, if and only if an unquoted key or value that is too long is left out. |
| ArgStr.EntryOrLess | src/mpi/common/argstr.cpp:570-662 | What is spelled of an entry in so much room: the entry, if and only if it is short enough; less, if and only if an unquoted key or value that is too long for the room is left out. |
| ArgStr.BothLeftOut | src/mpi/common/argstr.cpp:570-662 | In room for 3 the key abcdef and the value xyz are reported as added and neither is there. |
| ArgStr.AddAndGet | src/mpi/common/argstr.cpp:421-547 | Adding a sequence of strings to a large enough buffer and getting them back gives the same sequence. |
| ArgStr.AddAndFind | src/mpi/common/argstr.cpp:570-662 | Adding entries to a large enough buffer and looking a key up gives the first value the search takes, or fails when there is none. |
| Binomial.ExactlyThePowers | src/mpi/common/util.h:75-80 | value & (value - 1) is zero exactly for the powers of two. |
| Binomial.PowerOf2Floor | src/mpi/common/util.h:64-72 | The largest power of two that is no larger. |
| Binomial.PowerOf2Ceiling | src/mpi/common/util.h:83-97 | The smallest power of two that is no smaller, within 32 bits. |
| Binomial.Covered | src/mpi/common/util.h:104-123 | A rank is below another exactly when it is in the interval of one of that rank's children. |
| Binomial.Disjoint | src/mpi/common/util.h:104-123 | And of one child only. |
| Binomial.ChildInterval | src/mpi/common/util.h:104-123 | A child's interval runs up to the next child's, or to the end of the parent's. |
| Binomial.CountsTheChildren | src/mpi/common/util.h:130-147 | ChildCount is exactly the number of powers of two that lead to children. |
| Binomial.OneParent | src/mpi/common/util.h:104-123 | Every rank but the root is a child of exactly one rank, over exactly one power. |
| Binomial.IntervalIsSubtree | src/mpi/common/util.h:104-123 | TreeSize ranks from a rank on are exactly those that climb to it from parent to parent. |
| Binomial.RootReachesAll | src/mpi/common/util.h:104-123 | From the root every rank is reached. |
| ErrorRing.MatchIsTheCall | src/mpi/common/errutil.cpp:435-448 | With fewer than 2^21 later creations, a code finds its own creation's slot if and only if fewer than 128 followed it. |
| ErrorRing.MatchExactly | src/mpi/common/errutil.cpp:417-426 | However old, a code matches exactly when a recent creation has its number modulo 2^21, its class and its fatality. |
| ErrorRing.StaleMatch | src/mpi/common/errutil.cpp:435-448 | After 2^21 creations a code finds another's slot. |
| ErrorRing.TrailGoesBack | src/mpi/common/errutil.cpp:516-545 | The stack walk visits strictly older creations, each the origin of the one before. |
| ErrorRing.TrailLength | src/mpi/common/errutil.cpp:516-545 | It visits at most 128. |
| ErrorRing.FatalIsInherited | src/mpi/common/errutil.cpp:439-446 | A code is fatal exactly when it, or a creation it goes back to, was asked to be. |
| ErrorRing.ClassIsTheCause | src/mpi/common/errutil.cpp:359-366 | A code's class is the newest one on the way back that is not MPI_ERR_OTHER. |
| ErrorRing.UserHeld | src/mpi/common/errutil.cpp:402-430 | A creation with a user's code behind it keeps that code. |
| ErrorRing.MarkIsUser | src/mpi/common/errutil.cpp:397-431 | With no user's code a turn of the ring or more ago, the marks are right. |
| ErrorRing.MarkIsWrong | src/mpi/common/errutil.cpp:397-431 | A code without a user's code behind it bears a mark exactly when it, or one it goes back to, was put into a slot that already bore one. |
| ErrorRing.LeftoverMark | src/mpi/common/errutil.cpp:397-431 | Of 129 unrelated creations with a user's code in the first, the last has a mark. |
| ErrorRing.Ring.ErrcodeIsValid | src/mpi/common/errutil.cpp:125-145 | A class, or a code whose slot is still its own. |
| ErrorRing.Ring.CreateCode | src/mpi/common/errutil.cpp:320-451 | MPI_ERR_IN_STATUS bare and nothing changed, or one more creation with its code, class and fatality. |
| ErrorRing.Ring.GetUserErrorCode | src/mpi/common/errutil.cpp:152-168 | The user's code behind a recent creation; its own code when its slot bears no mark. |
| ErrorRing.Ring.Stack | src/mpi/common/errutil.cpp:501-545 | From any code the walk ends within 128 slots, at a code that has none, having gone through the creations it goes back to. |
| HostsParser.CountIsSum | src/mpi/mpiexec/mp_parse_command_line.cpp:755-838 | Whatever is accepted, the pool's count is the sum over its hosts, and there are as many as announced. |
| HostsParser.AcceptedCounts | src/mpi/mpiexec/mp_parse_command_line.cpp:678-693 | An accepted list has at least one host and at most 32768 processes. |
| HostsParser.DecimalValue | src/mpi/mpiexec/machinefile.cpp:166-168 | The printed number of hosts reads back as that number. |
| HostMasks.HexValue | src/mpi/mpiexec/mp_parse_command_line.cpp:774-777 | Hex digits, in capitals or not and with zeros in front or not, read back as the number they are. |
| HostMasks.MaskReads | src/mpi/mpiexec/mp_parse_command_line.cpp:769-801 | A mask that is spelled as hex digits, behind 0x or not, with or without a colon and decimal digits, is read as that mask in that group, 0 when none is given. |
| HostMasks.MasksIff | src/mpi/mpiexec/mp_parse_command_line.cpp:755-802 | A list of n masks is read exactly when it is spelled so, whatever follows, and as the masks and groups it spells, last first. |
| HostMasks.CountedSpelled | src/mpi/mpiexec/mp_parse_command_line.cpp:712-802 | A count with as many masks behind it gives a host with that many processes and those masks. |
| HostMasks.CountedPlain | src/mpi/mpiexec/mp_parse_command_line.cpp:814-829 | A plain count gives a host with that many processes and no masks, and 0 is refused. |
| HostsParser.ArgsAreGaps | src/mpi/mpiexec/mp_parse_command_line.cpp:843-876 | The table of arguments is allocated for exactly as many as there are. |
| HostsParser.ParseHostsArgv | src/mpi/mpiexec/mp_parse_command_line.cpp:673-840 | The loop over the hosts gives the parsed hosts and their count, or an error. |
| HostsParser.ReadMasks | src/mpi/mpiexec/mp_parse_command_line.cpp:755-802 | Each host's masks are stored back to front; the list must be as long as the count. |
| HostsParser.SplitArgs | src/mpi/mpiexec/mp_parse_command_line.cpp:880-901 | White space is overwritten with terminators, and each argument begins where the table says. |
| HostsParser.ParseHostsString | src/mpi/mpiexec/mp_parse_command_line.cpp:866-910 | Splitting and parsing the string. |
| Machinefile.LineProper | src/mpi/mpiexec/machinefile.cpp:86-133 | A line that is kept has a name without white space, and a count or none. |
| MachineLines.NothingIff | src/mpi/mpiexec/machinefile.cpp:90-96 | The lines that are passed over are exactly white space, and white space and then a comment. |
| MachineLines.DataIff | src/mpi/mpiexec/machinefile.cpp:90-142 | The lines that name a host, and what they say, are exactly: white space, a graphic name that does not begin with #, perhaps white space and a field of digits and masks, white space, and perhaps a comment that does not touch the name. So every other line is bad. |
| MachineLines.EntriesAre | src/mpi/mpiexec/machinefile.cpp:84-160 | A file is read exactly when no line is bad, and its entries are those of the lines that name a host, in order. |
| Machinefile.TextArgs | src/mpi/mpiexec/machinefile.cpp:144-168 | The string is cut into the number of hosts and then name and count of each, in the order of the file. |
| MachinefileTheorems.FileComesBack | src/mpi/mpiexec/machinefile.cpp:53-172 | The hosts of a file come back in order, each with its count (1 when absent), and their sum, if and only if every entry is right, there are not too many, and every name that is taken for the count of the host before it is the number 1 and is also its own count. |
| MachinefileTheorems.MadeIffTold | src/mpi/mpiexec/mp_parse_command_line.cpp:755-838 | From any host on: the parser makes the rest of the hosts exactly when the rest of the names is so. |
| MachinefileTheorems.LateFails | src/mpi/mpiexec/mp_parse_command_line.cpp:755-838 | A parser that has gone past an entry without making a host of it fails in the end, for the arguments run out. |
| MachinefileTheorems.PlainFile | src/mpi/mpiexec/machinefile.cpp:53-172 | When no name after a host without a count reads as a count, a file is read back or refused, never misread. |
| MachinefileTheorems.HostsOfAt | src/mpi/mpiexec/machinefile.cpp:84-149 | The k-th host that comes back is the one of the k-th entry. |
| MachinefileTheorems.NameTakenForCount | src/mpi/mpiexec/machinefile.cpp:98-103 | A second host named 7 is taken for the count of the first, and the file is refused. |
| MachinefileTheorems.NameTakenUnharmed | src/mpi/mpiexec/machinefile.cpp:98-103 | A second host named 1 with the count 1 is taken for it too, and the file is read right. |
| Machinefile.ScanLine | src/mpi/mpiexec/machinefile.cpp:90-142 | Comment and blank lines are passed over, bad lines fail, and of a good one the part before trailing white space and comment is kept. |
| Machinefile.ReadMachinefile | src/mpi/mpiexec/machinefile.cpp:53-172 | The buffer ends up with the string of the file's hosts, never written outside, or the read fails exactly when a line is bad or there is no host. |
| MachinefileTheorems.HostsFromFile | src/mpi/mpiexec/machinefile.cpp:53-172 | Reading the file and parsing its string gives its hosts if and only if the file is readable in that sense. |
| HwView.TreeIsGiven | src/mpi/common/hwtree.cpp:495-576 | A tree that the initializer has built is what the view's initializer needs. |
| HwLayout.AncestorAt | src/mpi/common/hwlayout.cpp:134-137 | The ancestor that is the target of a call is a node of the target's level. |
| ErrorRing.MarksStay | src/mpi/common/errutil.cpp:402-404 | A user's code marks its slot for good. |

## Left out

- Windows, Winsock, RPC, registry, token, credential, console and event-log calls are
  environment steps, or parameters that say how a call ended.
- Memory allocation does not fail. Posting a command succeeds, except where the code answers a
  failure by leaving the progress engine; then the run ends.
- A suspend or kill command that comes back as an error: MpiexecHandleCmdError counts nothing
  down for it, so the abort would wait for ever. In the model each suspend and kill gets one
  answer, of success.
- A launch result that carries an error of its own: its branch in
  mpiexec_handle_command.cpp:504-593 cannot be reached, for the error is handled in mpiexec.cpp first.
- The even spawn split of mpiexec_handle_command.cpp:1551-1640, which can overshoot and then be
  rejected.
- The text of messages, exit-code analysis, help, and the option tables.
- Launch blocks as records of their own: their environment, directory, path and arguments. The
  model keeps each process's host, rank, order and mask.
- Counts of tree nodes beyond 32 bits, and the byte sizes of headers on other platforms than x64.
- Machine summaries with an empty group mask or more groups than a summary holds.
- The exit code that each kill command carries, which the killed rank's manager uses.
- Layouts whose first enumerator is not the machine, or that do not go strictly deeper: a
  well-known size may then be resolved from where an enumerator stood before.
- WAIT_FAILED and the stop of the queue's thread; contexts that are cleaned up while their
  manager is still being created.
- Creations of error codes by several threads at once: each is one step, as its increment of the
  counter is.
- Reading past the terminator of a string that ends in an escape inside quotes: the text is
  taken to end there.
- ArgStr.CompareToken: says whether the comparison gives 0, not the sign otherwise, which no
  caller looks at.
- Signs and doubled 0x prefixes before a mask, and masks or groups too large for their fields, in
  HostsParser.Mask; characters of a machine file outside ASCII; machine files of ten million lines
  or more, or of two gigabytes; read errors.
- LaunchPool.ContextPool.DestroyContext: for a context that is live, as the code asserts.
- HwTree.CalculateNodeCounts: states the counts as the function of the widths that
  HwTree.Initialize compares with what the masks need. They are enough for regular masks
  (HwRegular.RegularFits); for irregular ones they can be too few, and the call fails.
