/**
 What a run of the connect operation does to its hosts, and what it tells the caller: told from the
 outcomes of the attempts, in the order they come in.
 */
module SockAttempts {
  import opened SockConnect

  /** The outcomes of the attempts. */
  function Outcomes(run: seq<Event>): seq<Item> {
    if run == [] then [] else OutcomeOf(run[0]) + Outcomes(run[1..])
  }

  function OutcomeOf(e: Event): seq<Item> {
    if e.Complete? then [e.item] else []
  }

  /** The hosts that are tried during a run, one place in the list for each attempt. */
  ghost function Tried(s: State, lim: Limits, run: seq<Event>): seq<nat>
    requires Possible(s, lim, run)
    decreases |run|
  {
    if run == [] then []
    else TriedBy(s, Apply(s, lim, run[0])) + Tried(Apply(s, lim, run[0]), lim, run[1..])
  }

  function TriedBy(s: State, s': State): seq<nat> {
    if s.attempts < s'.attempts then [s'.host] else []
  }

  /** The first attempt is made when the connect is posted. */
  ghost function AllTried(lim: Limits, run: seq<Event>): seq<nat>
    requires Possible(Posted(), lim, run)
  {
    [0] + Tried(Posted(), lim, run)
  }

  /** Attempt k was the last that its host is given: one, and as many more as there are retries. */
  predicate WornOut(tried: seq<nat>, lim: Limits, k: nat)
    requires k < |tried|
  {
    lim.retries <= k && forall i :: k - lim.retries <= i <= k ==> tried[i] == tried[k]
  }

  /** A refused host is tried again until it has had all its attempts; after any other failure it is the next one's turn. */
  predicate InTurn(tried: seq<nat>, outcomes: seq<Item>, lim: Limits, k: nat) {
    && k + 1 < |tried| && k < |outcomes| && outcomes[k] in {Refused, Broken}
    && tried[k + 1] == if outcomes[k] == Refused && !WornOut(tried, lim, k) then tried[k] else tried[k] + 1
  }

  predicate AllInTurn(tried: seq<nat>, outcomes: seq<Item>, lim: Limits) {
    tried != [] && tried[0] == 0 && forall k :: 0 <= k && k + 1 < |tried| ==> InTurn(tried, outcomes, lim, k)
  }

  /** The last host in the list has had all its attempts, or failed for good. */
  predicate Exhausted(tried: seq<nat>, outcomes: seq<Item>, lim: Limits) {
    && tried != [] && |outcomes| == |tried| && tried[|tried| - 1] + 1 == lim.hosts
    && (outcomes[|tried| - 1] == Broken || (outcomes[|tried| - 1] == Refused && WornOut(tried, lim, |tried| - 1)))
  }

  // ---- the invariant -----------------------------------------------------------------

  /** How many attempts the host at hand has had. */
  function Here(s: State): nat {
    if Waiting(s) then s.retryCount else s.retryCount + 1
  }

  predicate HostIs(s: State, tried: seq<nat>) {
    && 1 <= Here(s) <= |tried|
    && (forall i :: |tried| - Here(s) <= i < |tried| ==> tried[i] == s.host)
    && (Here(s) < |tried| ==> tried[|tried| - Here(s) - 1] != s.host)
  }

  /** The last attempt is outstanding or cut off, or has its outcome in the queue. */
  predicate LastIs(s: State, tried: seq<nat>, outcomes: seq<Item>) {
    if s.io || (s.queue != [] && s.queue[0] == Cancelled) then |outcomes| + 1 == |tried|
    else
      && |outcomes| == |tried| && outcomes != []
      && outcomes[|outcomes| - 1] == if Waiting(s) || s.queue == [] then Refused else s.queue[0]
  }

  predicate Told(s: State, outcomes: seq<Item>) {
    if s.reports == [] then Succeeded in outcomes <==> s.queue != [] && s.queue[0] == Succeeded
    else Succeeded in outcomes <==> s.reports[0] == Connected
  }

  predicate Follows(s: State, lim: Limits, tried: seq<nat>, outcomes: seq<Item>) {
    && AllInTurn(tried, outcomes, lim) && Told(s, outcomes)
    && (Trying(s) ==> HostIs(s, tried) && LastIs(s, tried, outcomes))
    && (s.graceful ==> s.reports != [] && s.reports[0] == Connected)
    && (s.reports == [Connected] && !s.closing ==> s.graceful)
  }

  lemma OutcomesGrow(tried: seq<nat>, outcomes: seq<Item>, lim: Limits, more: seq<Item>)
    requires AllInTurn(tried, outcomes, lim)
    ensures AllInTurn(tried, outcomes + more, lim) == true
  {
    forall k | 0 <= k && k + 1 < |tried| ensures InTurn(tried, outcomes + more, lim, k) {
      assert InTurn(tried, outcomes, lim, k);
    }
  }

  lemma WornOutSame(tried: seq<nat>, h: nat, lim: Limits, k: nat)
    requires k < |tried|
    ensures WornOut(tried + [h], lim, k) <==> WornOut(tried, lim, k)
  {
    assert forall i :: 0 <= i <= k ==> (tried + [h])[i] == tried[i];
    if WornOut(tried + [h], lim, k) {
      forall i | k - lim.retries <= i <= k ensures tried[i] == tried[k] {
        assert (tried + [h])[i] == (tried + [h])[k];
      }
    }
  }

  lemma TriedGrows(tried: seq<nat>, outcomes: seq<Item>, lim: Limits, h: nat)
    requires AllInTurn(tried, outcomes, lim) && |outcomes| == |tried| && outcomes[|tried| - 1] in {Refused, Broken}
    requires var k := |tried| - 1;
             h == if outcomes[k] == Refused && !WornOut(tried, lim, k) then tried[k] else tried[k] + 1
    ensures AllInTurn(tried + [h], outcomes, lim) == true
  {
    var tried' := tried + [h];
    forall k | 0 <= k && k + 1 < |tried'| ensures InTurn(tried', outcomes, lim, k) {
      WornOutSame(tried, h, lim, k);
      if k + 1 < |tried| {
        assert InTurn(tried, outcomes, lim, k);
      }
    }
  }

  /** The host at hand is worn out when it has had one attempt more than there are retries. */
  lemma WornOutIs(s: State, lim: Limits, tried: seq<nat>)
    requires HostIs(s, tried) && Here(s) <= lim.retries + 1
    ensures WornOut(tried, lim, |tried| - 1) <==> Here(s) == lim.retries + 1
  {
    if Here(s) < |tried| && Here(s) <= lim.retries <= |tried| - 1 {
      assert tried[|tried| - Here(s) - 1] != tried[|tried| - 1];
    }
  }

  /** One more attempt, at the same host or at another. */
  lemma HostMore(s: State, s': State, tried: seq<nat>)
    requires HostIs(s, tried) && Here(s') == if s'.host == s.host then Here(s) + 1 else 1
    ensures HostIs(s', tried + [s'.host]) == true
  {
    var tried', n := tried + [s'.host], |tried| + 1 - Here(s');
    forall i | n <= i < |tried'| ensures tried'[i] == s'.host {
      assert i < |tried| ==> tried'[i] == tried[i];
    }
    assert n > 0 ==> tried'[n - 1] == tried[n - 1];
  }

  lemma CompleteFollows(s: State, lim: Limits, tried: seq<nat>, outcomes: seq<Item>, item: Item)
    requires Inv(s, lim) && Follows(s, lim, tried, outcomes) && Enabled(s, Complete(item))
    ensures Follows(Apply(s, lim, Complete(item)), lim, tried, outcomes + [item]) == true
  {
    OutcomesGrow(tried, outcomes, lim, [item]);
  }

  lemma CloseFollows(s: State, lim: Limits, tried: seq<nat>, outcomes: seq<Item>, closeFails: bool)
    requires Inv(s, lim) && Follows(s, lim, tried, outcomes) && !s.closing
    ensures Follows(PostCloseStep(s, closeFails), lim, tried, outcomes) == true
  {
  }

  /** The timer has expired: the same host is tried again. */
  lemma ExpiredFollows(s: State, lim: Limits, tried: seq<nat>, outcomes: seq<Item>, connectFails: bool, timerFails: bool)
    requires Inv(s, lim) && Follows(s, lim, tried, outcomes) && s.queue != [] && s.queue[0] == Expired
    ensures var s' := DispatchStep(s, lim, connectFails, timerFails);
            Follows(s', lim, tried + TriedBy(s, s'), outcomes) == true
  {
    assert tried + [] == tried;
    if s.timer {
      WornOutIs(s, lim, tried);
      TriedGrows(tried, outcomes, lim, s.host);
      HostMore(s, DispatchStep(s, lim, false, false), tried);
    }
  }

  /** The host has failed: it waits, or the next one is tried, or there is none. */
  lemma FailedFollows(s: State, lim: Limits, tried: seq<nat>, outcomes: seq<Item>, connectFails: bool, timerFails: bool)
    requires Inv(s, lim) && Follows(s, lim, tried, outcomes) && s.queue != [] && s.queue[0] in {Refused, Broken, Cancelled}
    ensures var s' := DispatchStep(s, lim, connectFails, timerFails);
            Follows(s', lim, tried + TriedBy(s, s'), outcomes) == true
  {
    assert tried + [] == tried;
    if s.closing {
    } else if s.queue[0] == Refused && s.retryCount < lim.retries {
      WaitFollows(s, lim, tried, outcomes, connectFails, timerFails);
    } else {
      NextFollows(s, lim, tried, outcomes, connectFails, timerFails);
    }
  }

  lemma WaitFollows(s: State, lim: Limits, tried: seq<nat>, outcomes: seq<Item>, connectFails: bool, timerFails: bool)
    requires Inv(s, lim) && Follows(s, lim, tried, outcomes) && s.queue != [] && s.queue[0] == Refused
    requires !s.closing && s.retryCount < lim.retries
    ensures var s' := DispatchStep(s, lim, connectFails, timerFails);
            s'.attempts == s.attempts && Follows(s', lim, tried, outcomes) == true
  {
  }

  lemma NextFollows(s: State, lim: Limits, tried: seq<nat>, outcomes: seq<Item>, connectFails: bool, timerFails: bool)
    requires Inv(s, lim) && Follows(s, lim, tried, outcomes) && s.queue != [] && s.queue[0] in {Refused, Broken}
    requires !s.closing && (s.queue[0] == Refused ==> s.retryCount >= lim.retries)
    ensures var s' := DispatchStep(s, lim, connectFails, timerFails);
            Follows(s', lim, tried + TriedBy(s, s'), outcomes) == true
  {
    assert tried + [] == tried;
    if s.host + 1 < lim.hosts {
      WornOutIs(s, lim, tried);
      TriedGrows(tried, outcomes, lim, s.host + 1);
      HostMore(s, DispatchStep(s, lim, false, false), tried);
    }
  }

  lemma StepFollows(s: State, lim: Limits, tried: seq<nat>, outcomes: seq<Item>, e: Event)
    requires Inv(s, lim) && Follows(s, lim, tried, outcomes) == true && Enabled(s, e)
    ensures var s' := Apply(s, lim, e);
            Follows(s', lim, tried + TriedBy(s, s'), outcomes + OutcomeOf(e)) == true
  {
    assert tried + [] == tried && outcomes + [] == outcomes;
    match e {
      case Complete(item) => CompleteFollows(s, lim, tried, outcomes, item);
      case PostClose(closeFails) => CloseFollows(s, lim, tried, outcomes, closeFails);
      case Dispatch(connectFails, timerFails) =>
        if s.queue[0] == Expired {
          ExpiredFollows(s, lim, tried, outcomes, connectFails, timerFails);
        } else if s.queue[0] in {Refused, Broken, Cancelled} {
          FailedFollows(s, lim, tried, outcomes, connectFails, timerFails);
        }
      case _ =>
    }
  }

  lemma {:induction false} RunFollows(s: State, lim: Limits, tried: seq<nat>, outcomes: seq<Item>, run: seq<Event>)
    requires Inv(s, lim) && Follows(s, lim, tried, outcomes) == true && Possible(s, lim, run)
    ensures Follows(After(s, lim, run), lim, tried + Tried(s, lim, run), outcomes + Outcomes(run)) == true
    decreases |run|
  {
    if run == [] {
      assert tried + [] == tried && outcomes + [] == outcomes;
    } else {
      var s' := Apply(s, lim, run[0]);
      StepKeeps(s, lim, run[0]);
      StepFollows(s, lim, tried, outcomes, run[0]);
      RunFollows(s', lim, tried + TriedBy(s, s'), outcomes + OutcomeOf(run[0]), run[1..]);
      Regroup(tried, TriedBy(s, s'), Tried(s', lim, run[1..]));
      Regroup(outcomes, OutcomeOf(run[0]), Outcomes(run[1..]));
    }
  }

  lemma Regroup<T>(a: seq<T>, b: seq<T>, c: seq<T>)
    ensures (a + b) + c == a + (b + c)
  {
  }

  lemma PostedFollows(lim: Limits, run: seq<Event>)
    requires 0 < lim.hosts && Possible(Posted(), lim, run)
    ensures Follows(After(Posted(), lim, run), lim, AllTried(lim, run), Outcomes(run)) == true
  {
    PostedOk(lim);
    RunFollows(Posted(), lim, [0], [], run);
    assert [] + Outcomes(run) == Outcomes(run);
  }

  lemma {:induction false} OutcomeIn(run: seq<Event>, item: Item)
    ensures item in Outcomes(run) <==> Complete(item) in run
  {
    if run != [] {
      OutcomeIn(run[1..], item);
    }
  }

  // ---- what holds of every run -------------------------------------------------------

  /** The connect is reported as made exactly when an attempt has succeeded. */
  lemma ConnectedIff(lim: Limits, run: seq<Event>)
    requires 0 < lim.hosts && Possible(Posted(), lim, run) && After(Posted(), lim, run).reports != []
    ensures After(Posted(), lim, run).reports[0] == Connected <==> Complete(Succeeded) in run
  {
    PostedFollows(lim, run);
    OutcomeIn(run, Succeeded);
  }

  /** The hosts are tried in the order of the list, each until it has had all its attempts or has failed otherwise. */
  lemma TriedInOrder(lim: Limits, run: seq<Event>)
    requires 0 < lim.hosts && Possible(Posted(), lim, run)
    ensures AllInTurn(AllTried(lim, run), Outcomes(run), lim)
  {
    PostedFollows(lim, run);
  }

  /** A close, or a connect or a timer that could not even be started. */
  predicate Fault(e: Event) {
    e.PostClose? || (e.Dispatch? && (e.connectFails || e.timerFails))
  }

  predicate SaidFailed(s: State) { s.reports != [] && s.reports[0] == Failed }

  lemma StepExhausts(s: State, lim: Limits, tried: seq<nat>, outcomes: seq<Item>, e: Event)
    requires Inv(s, lim) && Follows(s, lim, tried, outcomes) && Enabled(s, e) && !Fault(e) && !s.closing
    requires SaidFailed(s) ==> Exhausted(tried, outcomes, lim)
    ensures var s' := Apply(s, lim, e);
            && !s'.closing
            && (SaidFailed(s') ==> Exhausted(tried + TriedBy(s, s'), outcomes + OutcomeOf(e), lim))
  {
    assert tried + [] == tried && outcomes + [] == outcomes;
    if Trying(s) && e.Dispatch? && s.queue[0] in {Refused, Broken} {
      WornOutIs(s, lim, tried);
    }
  }

  lemma {:induction false} RunExhausts(s: State, lim: Limits, tried: seq<nat>, outcomes: seq<Item>, run: seq<Event>)
    requires Inv(s, lim) && Follows(s, lim, tried, outcomes) == true && Possible(s, lim, run) && !s.closing
    requires SaidFailed(s) ==> Exhausted(tried, outcomes, lim)
    requires forall e :: e in run ==> !Fault(e)
    ensures SaidFailed(After(s, lim, run)) ==> Exhausted(tried + Tried(s, lim, run), outcomes + Outcomes(run), lim)
    decreases |run|
  {
    if run == [] {
      assert tried + [] == tried && outcomes + [] == outcomes;
    } else {
      var s' := Apply(s, lim, run[0]);
      StepKeeps(s, lim, run[0]);
      StepFollows(s, lim, tried, outcomes, run[0]);
      StepExhausts(s, lim, tried, outcomes, run[0]);
      RunExhausts(s', lim, tried + TriedBy(s, s'), outcomes + OutcomeOf(run[0]), run[1..]);
      Regroup(tried, TriedBy(s, s'), Tried(s', lim, run[1..]));
      Regroup(outcomes, OutcomeOf(run[0]), Outcomes(run[1..]));
    }
  }

  /** Without a close and without faults, a failure is reported only when the last host has had its attempts. */
  lemma FailsWhenExhausted(lim: Limits, run: seq<Event>)
    requires 0 < lim.hosts && Possible(Posted(), lim, run) && SaidFailed(After(Posted(), lim, run))
    requires forall e :: e in run ==> !Fault(e)
    ensures Exhausted(AllTried(lim, run), Outcomes(run), lim)
  {
    PostedOk(lim);
    RunExhausts(Posted(), lim, [0], [], run);
    assert [] + Outcomes(run) == Outcomes(run);
  }

  /** A socket that is connected is closed gracefully if it can be; any other is closed at once, with nothing left outstanding. */
  lemma CloseDrains(lim: Limits, run: seq<Event>, closeFails: bool)
    requires 0 < lim.hosts && Possible(Posted(), lim, run) && !After(Posted(), lim, run).closing
    ensures var s := After(Posted(), lim, run);
            var s' := Apply(s, lim, PostClose(closeFails));
            && s'.closing && s'.reports == s.reports
            && (s'.draining <==> s.reports == [Connected] && !closeFails)
            && (s'.draining ==> s'.queue == s.queue)
            && (!s'.draining ==> !s'.io && !s'.armed && !s'.timer && s'.queue != [] && s'.queue[|s'.queue| - 1] == CloseDone)
  {
    PostedOk(lim);
    RunKeeps(Posted(), lim, run);
    PostedFollows(lim, run);
  }

  /** The failure of an attempt is the end: the socket is closing, what would come next cannot be started, or nothing comes next. */
  predicate GivesUp(s: State, lim: Limits, tried: seq<nat>, outcomes: seq<Item>, connectFails: bool, timerFails: bool)
    requires tried != []
  {
    var k := |tried| - 1;
    if s.closing then true
    else if s.queue != [] && s.queue[0] == Expired then connectFails
    else if k < |outcomes| && outcomes[k] == Refused && !WornOut(tried, lim, k) then timerFails
    else tried[k] + 1 == lim.hosts || connectFails
  }

  /** A failure is reported exactly then, and with nothing else tried. */
  lemma FailsIff(lim: Limits, run: seq<Event>, connectFails: bool, timerFails: bool)
    requires 0 < lim.hosts && Possible(Posted(), lim, run)
    requires var s := After(Posted(), lim, run); s.reports == [] && s.queue != [] && s.queue[0] != Succeeded
    ensures var (s, tried) := (After(Posted(), lim, run), AllTried(lim, run));
            var s' := Apply(s, lim, Dispatch(connectFails, timerFails));
            && (SaidFailed(s') <==> GivesUp(s, lim, tried, Outcomes(run), connectFails, timerFails))
            && (s'.reports == [] || s'.reports == [Failed])
            && (SaidFailed(s') ==> !s'.io && !s'.armed)
  {
    PostedOk(lim);
    RunKeeps(Posted(), lim, run);
    PostedFollows(lim, run);
    DispatchFails(After(Posted(), lim, run), lim, AllTried(lim, run), Outcomes(run), connectFails, timerFails);
  }

  lemma DispatchFails(s: State, lim: Limits, tried: seq<nat>, outcomes: seq<Item>, connectFails: bool, timerFails: bool)
    requires Inv(s, lim) && Follows(s, lim, tried, outcomes) && s.reports == [] && s.queue != [] && s.queue[0] != Succeeded
    ensures var s' := DispatchStep(s, lim, connectFails, timerFails);
            && (SaidFailed(s') <==> GivesUp(s, lim, tried, outcomes, connectFails, timerFails))
            && (s'.reports == [] || s'.reports == [Failed])
            && (SaidFailed(s') ==> !s'.io && !s'.armed)
  {
    WornOutIs(s, lim, tried);
  }
}
