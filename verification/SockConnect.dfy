/**
 The connect operation of a socket: several hosts, each tried again after a delay when it
 refuses, racing with a close of the socket (sock.cpp). Completions are queued and handled
 in order on one thread; the environment decides when they come and what they say.
 */
module SockConnect {

  /** What the completion queue holds. */
  datatype Item =
    | Succeeded                    // ConnectEx has succeeded
    | Refused                      // ... has failed with WSAECONNREFUSED or WSAETIMEDOUT
    | Broken                       // ... has failed otherwise
    | Cancelled                    // ... was ended by closesocket
    | Expired                      // the retry timer
    | CloseDone                    // the close of the socket

  /** What the caller gets to see. */
  datatype Report = Connected | Failed | Closed

  datatype State = State(
    host: nat,                     // cur_host, as a place in the list
    retryCount: nat,
    timer: bool,                   // retry_timer is set
    saved: bool,                   // sock->connect.pov is set
    closing: bool,
    graceful: bool,                // pfnClose is sock_graceful_close_socket
    io: bool,                      // a ConnectEx is outstanding
    armed: bool,                   // the timer has not expired yet
    draining: bool,                // the dummy receive of a graceful close is outstanding
    queue: seq<Item>,
    reports: seq<Report>,
    attempts: nat)                 // calls of ConnectEx

  /** The hosts of the list, and g_connect_retries. */
  datatype Limits = Limits(hosts: nat, retries: nat)

  datatype Event =
    | Complete(item: Item)         // the outstanding ConnectEx ends
    | Expire                       // the timer goes off
    | Dispatch(connectFails: bool, timerFails: bool)
    | PostClose(closeFails: bool)  // MPIDU_Sock_post_close; shutdown or the dummy receive may fail
    | Drain                        // the dummy receive sees the end of the connection

  // ---- the handlers ------------------------------------------------------------------

  function Tell(s: State, r: Report): State {
    s.(reports := s.reports + [r])
  }

  function Queue(s: State, item: Item): State {
    s.(queue := s.queue + [item])
  }

  /** gle_connect_host, and what its callers do when it fails. */
  function Connect(s: State, fails: bool): State {
    var s1 := s.(attempts := s.attempts + 1);
    if fails then Tell(s1, Failed) else s1.(io := true)
  }

  function ConnectFailed(s: State, lim: Limits, item: Item, connectFails: bool, timerFails: bool): State {
    if item == Expired then
      if !s.timer then Tell(s, Failed)
      else Connect(s.(timer := false, saved := false), connectFails)
    else if s.closing then Tell(s, Failed)
    else RetryOrNext(s, lim, item, connectFails, timerFails)
  }

  /** A refused host is tried again after a while, a few times; then it is the next host's turn. */
  function RetryOrNext(s: State, lim: Limits, item: Item, connectFails: bool, timerFails: bool): State {
    var s1 := s.(retryCount := s.retryCount + 1);
    if item == Refused && s1.retryCount <= lim.retries then
      if timerFails then Tell(s1, Failed) else s1.(timer := true, armed := true, saved := true)
    else
      var s2 := s1.(retryCount := 0, host := s1.host + 1);
      if s2.host >= lim.hosts then Tell(s2, Failed) else Connect(s2, connectFails)
  }

  lemma RetriedIs(s: State, s': State, lim: Limits, connectFails: bool, timerFails: bool)
    requires s.retryCount + 1 <= lim.retries && s'.retryCount == s.retryCount + 1 && s'.host == s.host
    requires s'.timer == (s.timer || !timerFails) && s'.armed == (s.armed || !timerFails) && s'.saved == (s.saved || !timerFails)
    requires s'.reports == if timerFails then s.reports + [Failed] else s.reports
    requires s' == s.(host := s'.host, retryCount := s'.retryCount, timer := s'.timer, saved := s'.saved, armed := s'.armed,
                      reports := s'.reports)
    ensures s' == RetryOrNext(s, lim, Refused, connectFails, timerFails)
  {
  }

  lemma NextIs(s: State, s': State, lim: Limits, item: Item, connectFails: bool, timerFails: bool)
    requires !(item == Refused && s.retryCount + 1 <= lim.retries) && s'.retryCount == 0 && s'.host == s.host + 1
    requires s'.host >= lim.hosts ==> s'.attempts == s.attempts && s'.io == s.io && s'.reports == s.reports + [Failed]
    requires s'.host < lim.hosts ==> s'.attempts == s.attempts + 1 && s'.io == (s.io || !connectFails)
    requires s'.host < lim.hosts ==> s'.reports == if connectFails then s.reports + [Failed] else s.reports
    requires s' == s.(host := s'.host, retryCount := s'.retryCount, io := s'.io, reports := s'.reports, attempts := s'.attempts)
    ensures s' == RetryOrNext(s, lim, item, connectFails, timerFails)
  {
  }

  function ConnectSucceeded(s: State): State {
    Tell(if s.closing then s else s.(graceful := true), Connected)
  }

  /** sock_cancel_inprogress_connect: deleting the timer runs its callback down. */
  function CancelTimer(s: State): State {
    if !s.saved then s
    else
      var s1 := s.(timer := false, saved := false);
      if s1.armed then Queue(s1.(armed := false), Expired) else s1
  }

  /** sock_hard_close_socket: closesocket ends the outstanding ConnectEx before it returns. */
  function HardClose(s: State): State {
    var s1 := CancelTimer(s);
    var s2 := if s1.io then Queue(s1.(io := false), Cancelled) else s1;
    Queue(s2, CloseDone)
  }

  function PostCloseStep(s: State, closeFails: bool): State {
    var s1 := s.(closing := true);
    if s1.graceful && !closeFails then s1.(draining := true) else HardClose(s1)
  }

  function DispatchStep(s: State, lim: Limits, connectFails: bool, timerFails: bool): State
    requires s.queue != []
  {
    var item, s1 := s.queue[0], s.(queue := s.queue[1..]);
    if item == Succeeded then ConnectSucceeded(s1)
    else if item == CloseDone then Tell(s1, Closed)
    else ConnectFailed(s1, lim, item, connectFails, timerFails)
  }

  // ---- runs --------------------------------------------------------------------------

  predicate Enabled(s: State, e: Event) {
    match e
    case Complete(item) => s.io && item in {Succeeded, Refused, Broken}
    case Expire => s.armed
    case Dispatch(_, _) => s.queue != []
    case PostClose(_) => !s.closing
    case Drain => s.draining
  }

  function Apply(s: State, lim: Limits, e: Event): State
    requires Enabled(s, e)
  {
    match e
    case Complete(item) => Queue(s.(io := false), item)
    case Expire => Queue(s.(armed := false), Expired)
    case Dispatch(connectFails, timerFails) => DispatchStep(s, lim, connectFails, timerFails)
    case PostClose(closeFails) => PostCloseStep(s, closeFails)
    case Drain => Queue(s.(draining := false), CloseDone)
  }

  predicate Possible(s: State, lim: Limits, run: seq<Event>)
    decreases |run|
  {
    run == [] || (Enabled(s, run[0]) && Possible(Apply(s, lim, run[0]), lim, run[1..]))
  }

  function After(s: State, lim: Limits, run: seq<Event>): State
    requires Possible(s, lim, run)
    decreases |run|
  {
    if run == [] then s else After(Apply(s, lim, run[0]), lim, run[1..])
  }

  /** MPIDU_Sock_post_connect, once it has returned success. */
  function Posted(): State {
    State(0, 0, false, false, false, false, true, false, false, [], [], 1)
  }

  // ---- the invariant -----------------------------------------------------------------

  predicate IsConnect(item: Item) {
    item != CloseDone
  }

  /** How many times the hosts before this one may have been tried. */
  function Spent(lim: Limits, host: nat): nat {
    host * (lim.retries + 1)
  }

  /** The connect operation is at one place: outstanding, waiting for its timer, queued first, or reported. */
  predicate Placed(s: State, lim: Limits) {
    if s.io then
      !s.armed && s.queue == [] && s.reports == [] && !s.timer && !s.closing
    else if s.armed then
      s.queue == [] && s.reports == [] && s.timer && !s.closing
    else if s.queue != [] && IsConnect(s.queue[0]) then
      && s.reports == [] && (s.timer <==> (s.queue[0] == Expired && !s.closing))
      && (s.queue[0] == Cancelled ==> s.closing)
      && (if s.closing then s.queue[1..] == [CloseDone] else s.queue[1..] == [])
    else
      && !s.timer && s.reports != [] && s.reports[0] != Closed
      && (if !s.closing || s.draining then s.queue == [] && |s.reports| == 1
          else if s.queue != [] then s.queue == [CloseDone] && |s.reports| == 1
          else s.reports[1..] == [Closed])
  }

  predicate Trying(s: State) {
    s.reports == []
  }

  predicate Waiting(s: State) {
    s.armed || (s.queue != [] && s.queue[0] == Expired)
  }

  predicate Bounded(s: State, lim: Limits) {
    && s.attempts <= Spent(lim, lim.hosts)
    && (Trying(s) ==> s.host < lim.hosts && s.retryCount <= lim.retries
                      && s.attempts <= Spent(lim, s.host) + s.retryCount + (if Waiting(s) then 0 else 1))
  }

  predicate Inv(s: State, lim: Limits) {
    && s.saved == s.timer && (s.draining ==> s.closing && s.graceful) && (s.graceful ==> s.reports != [])
    && Placed(s, lim) && Bounded(s, lim)
  }

  lemma SpentMore(lim: Limits, host: nat)
    ensures Spent(lim, host + 1) == Spent(lim, host) + lim.retries + 1
  {
  }

  lemma {:induction false} SpentMono(lim: Limits, h: nat, k: nat)
    requires h <= k
    ensures Spent(lim, h) <= Spent(lim, k)
  {
    if h < k {
      SpentMono(lim, h, k - 1);
      SpentMore(lim, k - 1);
    }
  }

  lemma PostedOk(lim: Limits)
    requires 0 < lim.hosts
    ensures Inv(Posted(), lim)
  {
    SpentMono(lim, 1, lim.hosts);
    SpentMore(lim, 0);
  }

  lemma FailureKeeps(s: State, lim: Limits, connectFails: bool, timerFails: bool)
    requires Inv(s, lim) && s.queue != [] && IsConnect(s.queue[0]) && s.queue[0] != Succeeded && !s.io && !s.armed
    ensures Inv(DispatchStep(s, lim, connectFails, timerFails), lim)
  {
    SpentMore(lim, s.host);
    SpentMono(lim, s.host + 1, lim.hosts);
    if s.host + 1 < lim.hosts {
      SpentMore(lim, s.host + 1);
      SpentMono(lim, s.host + 2, lim.hosts);
    }
  }

  /** Every step keeps the invariant. */
  lemma StepKeeps(s: State, lim: Limits, e: Event)
    requires Inv(s, lim) && Enabled(s, e)
    ensures Inv(Apply(s, lim, e), lim)
  {
    match e
    case Dispatch(connectFails, timerFails) => {
      if IsConnect(s.queue[0]) && s.queue[0] != Succeeded {
        FailureKeeps(s, lim, connectFails, timerFails);
      }
    }
    case _ => {}
  }

  // ---- what holds of every run -------------------------------------------------------

  lemma {:induction false} RunKeeps(s: State, lim: Limits, run: seq<Event>)
    requires Inv(s, lim) && Possible(s, lim, run)
    ensures Inv(After(s, lim, run), lim)
    decreases |run|
  {
    if run != [] {
      StepKeeps(s, lim, run[0]);
      RunKeeps(Apply(s, lim, run[0]), lim, run[1..]);
    }
  }

  /** The caller hears of the connect once at most, and of the close only after that. */
  lemma ReportsInOrder(lim: Limits, run: seq<Event>)
    requires 0 < lim.hosts && Possible(Posted(), lim, run)
    ensures var reports := After(Posted(), lim, run).reports;
            reports == [] || (reports[0] != Closed && (reports[1..] == [] || reports[1..] == [Closed]))
  {
    PostedOk(lim);
    RunKeeps(Posted(), lim, run);
  }

  /** When the close is reported, and the socket freed, nothing of the connect is left to come. */
  lemma NothingAfterClose(lim: Limits, run: seq<Event>)
    requires 0 < lim.hosts && Possible(Posted(), lim, run) && Closed in After(Posted(), lim, run).reports
    ensures var s := After(Posted(), lim, run);
            !s.io && !s.armed && !s.draining && s.queue == [] && !s.timer && !s.saved
  {
    PostedOk(lim);
    RunKeeps(Posted(), lim, run);
  }

  /** As long as the connect is not reported, something is under way that will go on. */
  lemma NeverStuck(lim: Limits, run: seq<Event>)
    requires 0 < lim.hosts && Possible(Posted(), lim, run)
    ensures var s := After(Posted(), lim, run);
            && (s.reports == [] ==> s.io || s.armed || s.queue != [])
            && (s.closing && Closed !in s.reports ==> s.io || s.armed || s.draining || s.queue != [])
  {
    PostedOk(lim);
    RunKeeps(Posted(), lim, run);
    var reports := After(Posted(), lim, run).reports;
    if reports != [] && reports[1..] == [Closed] { assert reports[1] == Closed; }
  }

  /** Every host is tried at most once more than there are retries. */
  lemma AttemptsAreFew(lim: Limits, run: seq<Event>)
    requires 0 < lim.hosts && Possible(Posted(), lim, run)
    ensures After(Posted(), lim, run).attempts <= lim.hosts * (lim.retries + 1)
  {
    PostedOk(lim);
    RunKeeps(Posted(), lim, run);
  }

  /** Once the socket is being closed no further connect is attempted. */
  lemma {:induction false} NoneOnceClosing(s: State, lim: Limits, run: seq<Event>)
    requires Inv(s, lim) && s.closing && Possible(s, lim, run)
    ensures After(s, lim, run).attempts == s.attempts && After(s, lim, run).closing
    decreases |run|
  {
    if run != [] {
      StepKeeps(s, lim, run[0]);
      NoneOnceClosing(Apply(s, lim, run[0]), lim, run[1..]);
    }
  }

  /** How much can still happen. */
  function Work(s: State, lim: Limits): int {
    6 * (Spent(lim, lim.hosts) - s.attempts)
    + (if s.io then 4 else 0) + (if s.armed then 2 else 0) + (if s.draining then 2 else 0) + (if s.closing then 0 else 3)
    + Items(s.queue)
  }

  function Items(queue: seq<Item>): nat {
    if queue == [] then 0
    else (if queue[0] == Expired || queue[0] == CloseDone then 1 else 3) + Items(queue[1..])
  }

  lemma {:induction false} ItemsMore(queue: seq<Item>, item: Item)
    ensures Items(queue + [item]) == Items(queue) + Items([item])
  {
    if queue != [] {
      assert (queue + [item])[1..] == queue[1..] + [item];
      ItemsMore(queue[1..], item);
    } else {
      assert queue + [item] == [item];
    }
  }

  lemma CloseLess(s: State, lim: Limits, closeFails: bool)
    requires Inv(s, lim) && !s.closing
    ensures Work(PostCloseStep(s, closeFails), lim) < Work(s, lim)
  {
    var s1 := CancelTimer(s.(closing := true));
    if s.saved && s.armed { ItemsMore(s.queue, Expired); }
    if s1.io { ItemsMore(s1.queue, Cancelled); }
    var s2 := if s1.io then Queue(s1.(io := false), Cancelled) else s1;
    ItemsMore(s2.queue, CloseDone);
  }

  lemma StepLess(s: State, lim: Limits, e: Event)
    requires Inv(s, lim) && Enabled(s, e)
    ensures Work(Apply(s, lim, e), lim) < Work(s, lim)
  {
    StepKeeps(s, lim, e);
    match e
    case Complete(item) => { ItemsMore(s.queue, item); }
    case Expire => { ItemsMore(s.queue, Expired); }
    case Dispatch(connectFails, timerFails) => {}
    case PostClose(closeFails) => { CloseLess(s, lim, closeFails); }
    case Drain => { ItemsMore(s.queue, CloseDone); }
  }

  /** Every run ends: there is a bound on its length. */
  lemma {:induction false} RunsEnd(s: State, lim: Limits, run: seq<Event>)
    requires Inv(s, lim) && Possible(s, lim, run)
    ensures |run| <= Work(s, lim)
    decreases |run|
  {
    if run != [] {
      StepKeeps(s, lim, run[0]);
      StepLess(s, lim, run[0]);
      RunsEnd(Apply(s, lim, run[0]), lim, run[1..]);
    }
  }

  /** A run that cannot go on, unless by a close, has reported the connect exactly once. */
  lemma ReportedInTheEnd(lim: Limits, run: seq<Event>)
    requires 0 < lim.hosts && Possible(Posted(), lim, run)
    requires forall e :: Enabled(After(Posted(), lim, run), e) ==> e.PostClose?
    ensures var reports := After(Posted(), lim, run).reports;
            reports != [] && reports[0] != Closed && (After(Posted(), lim, run).closing ==> reports[1..] == [Closed])
            && |run| <= Work(Posted(), lim)
  {
    var s := After(Posted(), lim, run);
    PostedOk(lim);
    RunKeeps(Posted(), lim, run);
    RunsEnd(Posted(), lim, run);
    NeverStuck(lim, run);
    ReportsInOrder(lim, run);
    assert !Enabled(s, Complete(Succeeded)) && !Enabled(s, Expire) && !Enabled(s, Drain) && !Enabled(s, Dispatch(false, false));
  }

  // ---- the completion routines -------------------------------------------------------

  /** A socket with the context of its connect operation. */
  class Connection {
    const lim: Limits
    var host: nat
    var retryCount: nat
    var timer: bool
    var saved: bool
    var closing: bool
    var graceful: bool
    var io: bool
    var armed: bool
    var draining: bool
    var queue: seq<Item>
    var reports: seq<Report>
    var attempts: nat

    function View(): State
      reads this
    {
      State(host, retryCount, timer, saved, closing, graceful, io, armed, draining, queue, reports, attempts)
    }

    constructor (lim: Limits)
      ensures View() == Posted() && this.lim == lim
    {
      this.lim := lim;
      host, retryCount, timer, saved, closing, graceful := 0, 0, false, false, false, false;
      io, armed, draining, queue, reports, attempts := true, false, false, [], [], 1;
    }

    /** gle_connect_host */
    method ConnectHost(fails: bool) returns (ok: bool)
      modifies this`attempts, this`io
      ensures ok == !fails && attempts == old(attempts) + 1 && io == (old(io) || !fails)
    {
      attempts := attempts + 1;
      if fails {
        return false;
      }
      io := true;
      ok := true;
    }

    method CallbackFailure()
      modifies this`reports
      ensures reports == old(reports) + [Failed]
    {
      reports := reports + [Failed];
    }

    method PostponeRetry(fails: bool) returns (ok: bool)
      modifies this`timer, this`armed
      ensures ok == !fails && timer == (old(timer) || !fails) && armed == (old(armed) || !fails)
    {
      if fails {
        return false;
      }
      timer, armed := true, true;
      ok := true;
    }

    /** fn_connect in ConnectFailed */
    method TryConnect(fails: bool)
      modifies this`attempts, this`io, this`reports
      ensures attempts == old(attempts) + 1 && io == (old(io) || !fails)
      ensures reports == if fails then old(reports) + [Failed] else old(reports)
    {
      var ok := ConnectHost(fails);
      if !ok {
        CallbackFailure();
      }
    }

    method OnExpired(connectFails: bool, timerFails: bool)
      modifies this`timer, this`saved, this`attempts, this`io, this`reports
      ensures View() == ConnectFailed(old(View()), lim, Expired, connectFails, timerFails)
    {
      if !timer {
        CallbackFailure();
        return;
      }
      timer, saved := false, false;
      TryConnect(connectFails);
    }

    method WaitForRetry(timerFails: bool)
      modifies this`timer, this`armed, this`saved, this`reports
      ensures timer == (old(timer) || !timerFails) && armed == (old(armed) || !timerFails)
      ensures saved == (old(saved) || !timerFails)
      ensures reports == if timerFails then old(reports) + [Failed] else old(reports)
    {
      var armedOk := PostponeRetry(timerFails);
      if !armedOk {
        CallbackFailure();
        return;
      }
      saved := true;
    }

    method TryNextHost(connectFails: bool)
      modifies this`retryCount, this`host, this`attempts, this`io, this`reports
      ensures retryCount == 0 && host == old(host) + 1
      ensures host >= lim.hosts ==> attempts == old(attempts) && io == old(io) && reports == old(reports) + [Failed]
      ensures host < lim.hosts ==> attempts == old(attempts) + 1 && io == (old(io) || !connectFails)
      ensures host < lim.hosts ==> reports == if connectFails then old(reports) + [Failed] else old(reports)
    {
      retryCount, host := 0, host + 1;
      if host >= lim.hosts {
        CallbackFailure();
        return;
      }
      TryConnect(connectFails);
    }

    /** A refused host is tried again after a while, a few times; then it is the next host's turn. */
    method OnHostFailed(item: Item, connectFails: bool, timerFails: bool)
      modifies this`timer, this`armed, this`saved, this`retryCount, this`host, this`attempts, this`io, this`reports
      ensures View() == RetryOrNext(old(View()), lim, item, connectFails, timerFails)
    {
      retryCount := retryCount + 1;
      if item == Refused && retryCount <= lim.retries {
        WaitForRetry(timerFails);
        RetriedIs(old(View()), View(), lim, connectFails, timerFails);
      } else {
        TryNextHost(connectFails);
        NextIs(old(View()), View(), lim, item, connectFails, timerFails);
      }
    }

    method OnConnectFailed(item: Item, connectFails: bool, timerFails: bool)
      requires item != Succeeded && item != CloseDone
      modifies this`timer, this`armed, this`saved, this`retryCount, this`host, this`attempts, this`io, this`reports
      ensures View() == ConnectFailed(old(View()), lim, item, connectFails, timerFails)
    {
      if item == Expired {
        OnExpired(connectFails, timerFails);
        return;
      }
      if closing {
        CallbackFailure();
        return;
      }
      OnHostFailed(item, connectFails, timerFails);
    }

    method OnConnectSucceeded()
      modifies this`graceful, this`reports
      ensures View() == ConnectSucceeded(old(View()))
    {
      if !closing {
        graceful := true;
      }
      reports := reports + [Connected];
    }

    method CancelInProgress()
      modifies this`timer, this`saved, this`armed, this`queue
      ensures View() == CancelTimer(old(View()))
    {
      if !saved {
        return;
      }
      timer := false;
      saved := false;
      if armed {
        armed := false;
        queue := queue + [Expired];
      }
    }

    method CloseHard()
      modifies this
      ensures View() == HardClose(old(View()))
    {
      CancelInProgress();
      if io {
        io := false;
        queue := queue + [Cancelled];
      }
      queue := queue + [CloseDone];
    }

    method Close(closeFails: bool)
      requires !closing
      modifies this
      ensures View() == PostCloseStep(old(View()), closeFails)
    {
      closing := true;
      if graceful && !closeFails {
        draining := true;
      } else {
        CloseHard();
      }
    }

    /** The next completion is taken off the queue. */
    method Next(connectFails: bool, timerFails: bool)
      requires queue != [] && Inv(View(), lim)
      modifies this
      ensures View() == DispatchStep(old(View()), lim, connectFails, timerFails) && Inv(View(), lim)
    {
      StepKeeps(View(), lim, Dispatch(connectFails, timerFails));
      var item := queue[0];
      queue := queue[1..];
      if item == Succeeded {
        OnConnectSucceeded();
      } else if item == CloseDone {
        reports := reports + [Closed];
      } else {
        OnConnectFailed(item, connectFails, timerFails);
      }
    }
  }
}
