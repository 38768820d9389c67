/** The protocol's variables told from the events that reached the handlers, and what the arrival of addresses does. */
module WifiHistory {
  import opened Folds
  import opened WifiConnect
  import opened WifiExhaustion

  /** An event that reached a handler, and the count of failures it found. */
  datatype Delivery = Delivery(e: Event, failures: nat)

  function DeliveryOf(s: State, choice: Choice): seq<Delivery> {
    if choice.Arrive? && s.registered && s.handler == Idle then [Delivery(choice.e, s.retry)] else []
  }

  function Deliveries(c: Config, s: State, choices: seq<Choice>): seq<Delivery> {
    if choices == [] then []
    else
      var before := choices[..|choices| - 1];
      Deliveries(c, s, before) + DeliveryOf(Run(c, s, before), Last(choices))
  }

  // ----- What the events alone say -----

  /** A disconnection other than by roaming, below the limit. */
  predicate CallsForReconnect(c: Config, d: Delivery) {
    d.e == Disconnected(false) && d.failures < c.maxRetry
  }

  /** So many of these since the last address of the fourth version. */
  function Reconnects(c: Config, ds: seq<Delivery>): nat {
    if ds == [] || Last(ds).e.GotIp? then 0
    else Reconnects(c, ds[..|ds| - 1]) + if CallsForReconnect(c, Last(ds)) then 1 else 0
  }

  predicate Announced(ds: seq<Delivery>) {
    exists d :: d in ds && d.e == GotIp(true)
  }

  predicate Announced6(c: Config, ds: seq<Delivery>) {
    c.ipv6 && exists d :: d in ds && d.e == GotIp6(true, true)
  }

  /** A disconnection, roaming or not, that found the limit reached. */
  predicate GaveUp(c: Config, ds: seq<Delivery>) {
    exists d :: d in ds && d.e.Disconnected? && d.failures >= c.maxRetry
  }

  /** What the model keeps count of is what the events say. */
  predicate Agrees(c: Config, s: State, ds: seq<Delivery>) {
    && s.reconnects == Reconnects(c, ds) && s.gotIp == Announced(ds) && s.gotIp6 == Announced6(c, ds)
    && s.exhausted == GaveUp(c, ds)
  }

  lemma DeliveryAgrees(c: Config, s: State, ds: seq<Delivery>, e: Event)
    requires Agrees(c, s, ds) && s.registered && s.handler == Idle
    ensures Agrees(c, Deliver(c, s, e), ds + [Delivery(e, s.retry)])
  {
    var d := Delivery(e, s.retry);
    var all := ds + [d];
    assert all[..|ds|] == ds;
    assert forall x | x in ds :: x in all;
    assert d in all;
    assert forall x | x in all :: x in ds || x == d;
  }

  // What has happened so far.
  predicate SameCounts(s: State, t: State) {
    t.reconnects == s.reconnects && t.gotIp == s.gotIp && t.gotIp6 == s.gotIp6 && t.exhausted == s.exhausted
  }

  lemma EarlyCounts(c: Config, s: State, good: bool)
    requires Early(s)
    ensures SameCounts(s, CallerStep(c, s, good))
  {
  }

  lemma LateCounts(c: Config, s: State, good: bool)
    requires !Early(s)
    ensures SameCounts(s, CallerStep(c, s, good))
  {
  }

  lemma CallerCounts(c: Config, s: State, good: bool)
    ensures SameCounts(s, CallerStep(c, s, good))
  {
    if Early(s) { EarlyCounts(c, s, good); } else { LateCounts(c, s, good); }
  }

  lemma HandlerCounts(c: Config, s: State)
    ensures SameCounts(s, HandlerStep(c, s))
  {
  }

  lemma MoveAgrees(c: Config, s: State, ds: seq<Delivery>, choice: Choice)
    requires Agrees(c, s, ds)
    ensures Agrees(c, Move(c, s, choice), ds + DeliveryOf(s, choice))
  {
    match choice
    case RunCaller(good) =>
      CallerCounts(c, s, good);
      assert ds + [] == ds;
    case RunHandler =>
      HandlerCounts(c, s);
      assert ds + [] == ds;
    case Arrive(e) =>
      if s.registered && s.handler == Idle { DeliveryAgrees(c, s, ds, e); } else { assert ds + [] == ds; }
  }

  /** Over every run of a call: the handlers ask for a reconnection once for each disconnection that was not roaming
      and found the count below the limit, counted since the last got-IP; an address has come exactly if its event
      has, of ours and, for the sixth version, of the preferred kind; and they have given up exactly if some
      disconnection found the limit reached. */
  lemma {:induction false} HistoryLaw(c: Config, s: State, choices: seq<Choice>)
    requires Begins(s)
    ensures Agrees(c, Run(c, s, choices), Deliveries(c, s, choices))
  {
    if choices != [] {
      var before := choices[..|choices| - 1];
      HistoryLaw(c, s, before);
      MoveAgrees(c, Run(c, s, before), Deliveries(c, s, before), Last(choices));
    }
  }

  /** The failures since the count was last cleared, by an address of the fourth version or by the call. */
  function Failures(c: Config, s: State, choices: seq<Choice>): nat {
    if choices == [] then s.retry
    else
      var before := choices[..|choices| - 1];
      var t, ds, count := Run(c, s, before), DeliveryOf(Run(c, s, before), Last(choices)), Failures(c, s, before);
      if Last(choices).RunCaller? then if t.caller == Reset then 0 else count
      else if ds == [] then count
      else if ds[0].e.GotIp? then 0
      else if ds[0].e.Disconnected? then count + 1
      else count
  }

  lemma CallerFailures(c: Config, s: State, good: bool)
    ensures CallerStep(c, s, good).retry == if s.caller == Reset then 0 else s.retry
  {
  }

  lemma MoveFailures(c: Config, s: State, choice: Choice)
    ensures var t, ds := Move(c, s, choice), DeliveryOf(s, choice);
      t.retry ==
        if choice.RunCaller? then if s.caller == Reset then 0 else s.retry
        else if ds == [] then s.retry
        else if ds[0].e.GotIp? then 0
        else if ds[0].e.Disconnected? then s.retry + 1
        else s.retry
  {
    if choice.RunCaller? { CallerFailures(c, s, choice.good); }
  }

  lemma {:induction false} FailureLaw(c: Config, s: State, choices: seq<Choice>)
    ensures Run(c, s, choices).retry == Failures(c, s, choices)
  {
    if choices != [] {
      FailureLaw(c, s, choices[..|choices| - 1]);
      MoveFailures(c, Run(c, s, choices[..|choices| - 1]), Last(choices));
    }
  }

  // ----- What else holds of a call that begins with no handler registered -----

  predicate Begun(s: State) {
    AtOrBefore6(s) || s.caller == Check || (s.caller.Returned? && s.caller.result != NoMem)
  }

  predicate Sure(c: Config, s: State) {
    // Failure is for exhaustion only, and only a call that waits can tell.
    && (s.caller == Returned(EspFail) ==> s.exhausted)
    && (!s.wait ==> s.caller != Take4 && s.caller != Take6 && s.caller != Check && s.caller != Returned(EspFail))
    // Short of it the count is within the limit, and the handlers are there.
    && (!s.exhausted && (s.caller == Register || Begun(s)) ==> s.retry <= c.maxRetry)
    && (!s.exhausted && Begun(s) ==> s.registered)
    && (s.wait ==> Signalled(c, s))
  }

  predicate Signalled(c: Config, s: State) {
    // An address that has come is signalled, and a semaphore that was waited for is gone.
    && (AtOrBefore4(s) && s.gotIp && s.handler != SignalIp(true) ==> s.ip == Full)
    && (c.ipv6 && AtOrBefore6(s) && s.gotIp6 ==> s.ip6 == Full)
    && (c.ipv4 && Taken4(s) ==> s.ip == Null)
    && (c.ipv6 && Taken6(s) ==> s.ip6 == Null)
    && (Early(s) ==> !s.gotIp && !s.gotIp6)
  }

  lemma SureEarly(c: Config, s: State, good: bool)
    requires Inv(c, s) && Sure(c, s) && Early(s)
    ensures Sure(c, CallerStep(c, s, good))
  {
  }

  lemma SureLate(c: Config, s: State, good: bool)
    requires Inv(c, s) && Sure(c, s) && !Early(s)
    ensures Sure(c, CallerStep(c, s, good))
  {
  }

  lemma SureHandler(c: Config, s: State)
    requires Inv(c, s) && Sure(c, s)
    ensures Sure(c, HandlerStep(c, s))
  {
  }

  lemma SureEvent(c: Config, s: State, e: Event)
    requires Inv(c, s) && Sure(c, s)
    ensures Sure(c, Deliver(c, s, e))
  {
  }

  lemma SureMove(c: Config, s: State, choice: Choice)
    requires Inv(c, s) && Sure(c, s)
    ensures Sure(c, Move(c, s, choice)) && Inv(c, Move(c, s, choice))
  {
    StepInv(c, s, choice);
    match choice
    case RunCaller(good) => if Early(s) { SureEarly(c, s, good); } else { SureLate(c, s, good); }
    case RunHandler => SureHandler(c, s);
    case Arrive(e) => SureEvent(c, s, e);
  }

  lemma {:induction false} SureRun(c: Config, s: State, choices: seq<Choice>)
    requires Begins(s) && !s.registered
    ensures Sure(c, Run(c, s, choices)) && Inv(c, Run(c, s, choices))
  {
    if choices != [] {
      SureRun(c, s, choices[..|choices| - 1]);
      SureMove(c, Run(c, s, choices[..|choices| - 1]), Last(choices));
    }
  }

  // ----- The arrival of addresses unblocks the caller -----

  predicate Complete(c: Config, s: State) {
    (c.ipv4 ==> s.gotIp) && (c.ipv6 ==> s.gotIp6)
  }

  /** Nothing is left to wait for. */
  predicate Provided(c: Config, s: State) {
    (c.ipv4 && AtOrBefore4(s) ==> s.ip == Full) && (c.ipv6 && AtOrBefore6(s) ==> s.ip6 == Full)
  }

  /** The call has returned, or is on its way with its addresses there, after `h` more steps of the handler. */
  predicate OnItsWay(c: Config, s: State, h: nat) {
    && s.wait && Inv(c, s) && Sure(c, s) && Complete(c, s)
    && (Pending(s) || s.caller.Returned?) && (s.caller.Returned? ==> s.caller.result != NoMem)
    && h <= 1 && (h == 0 ==> Provided(c, s))
  }

  /** The driver did not refuse to connect, and will not be asked again. */
  predicate PastConnect(caller: Caller) {
    caller != Connect && caller != Returned(ConnectError)
  }

  lemma OnItsWayCaller(c: Config, s: State, h: nat, good: bool)
    requires OnItsWay(c, s, h)
    ensures var t := CallerStep(c, s, good);
      && (Pending(t) || t.caller.Returned?) && (t.caller.Returned? ==> t.caller.result != NoMem)
      && CallerNeeds(t) <= CallerNeeds(s) && (h == 0 ==> Provided(c, t))
      && (h == 0 && CallerNeeds(s) > 0 ==> CallerNeeds(t) < CallerNeeds(s))
      && (PastConnect(s.caller) ==> PastConnect(t.caller))
  {
  }

  lemma OnItsWayOther(c: Config, s: State, h: nat, e: Event)
    requires OnItsWay(c, s, h)
    ensures var t, u := Deliver(c, s, e), HandlerStep(c, s);
      && t.caller == u.caller == s.caller && (h == 0 ==> Provided(c, t)) && Provided(c, u)
  {
  }

  lemma OnItsWayMove(c: Config, s: State, h: nat, choice: Choice)
    requires OnItsWay(c, s, h)
    ensures var t, k := Move(c, s, choice), if choice.RunHandler? then 0 else h;
      && OnItsWay(c, t, k) && CallerNeeds(t) <= CallerNeeds(s)
      && (h == 0 && choice.RunCaller? && CallerNeeds(s) > 0 ==> CallerNeeds(t) < CallerNeeds(s))
      && (PastConnect(s.caller) ==> PastConnect(t.caller))
  {
    SureMove(c, s, choice);
    match choice
    case RunCaller(good) => OnItsWayCaller(c, s, h, good);
    case RunHandler => OnItsWayOther(c, s, h, GotIp(true));
    case Arrive(e) => OnItsWayOther(c, s, h, e);
  }

  lemma {:induction false} OnItsWayEnds(c: Config, s: State, choices: seq<Choice>, h: nat, n: nat)
    requires OnItsWay(c, s, h) && CallerNeeds(s) <= n && Serves(h, n, choices)
    ensures var t := Run(c, s, choices);
      && t.caller.Returned? && t.caller.result != NoMem && Sure(c, t)
      && (PastConnect(s.caller) ==> PastConnect(t.caller))
    decreases |choices|
  {
    if choices != [] {
      var choice := choices[0];
      RunFirst(c, s, choices);
      OnItsWayMove(c, s, h, choice);
      if h > 0 {
        OnItsWayEnds(c, Move(c, s, choice), choices[1..], if choice.RunHandler? then 0 else h, n);
      } else if n > 0 {
        OnItsWayEnds(c, Move(c, s, choice), choices[1..], 0, if choice.RunCaller? then n - 1 else n);
      } else {
        OnItsWayEnds(c, Move(c, s, choice), choices[1..], 0, 0);
      }
    }
  }

  /** In a call that began with no handler registered and waits, once the events of all awaited addresses have come,
      every schedule with one more step of the handler and then the caller's few ends the call: with OK, with ESP_FAIL
      only if the handlers gave up in the meantime, with the driver's error only if it refused to connect. */
  lemma SuccessLaw(c: Config, s: State, before: seq<Choice>, choices: seq<Choice>, n: nat)
    requires Begins(s) && !s.registered && s.wait
    requires var ds := Deliveries(c, s, before); (c.ipv4 ==> Announced(ds)) && (c.ipv6 ==> Announced6(c, ds))
    requires var t := Run(c, s, before); Pending(t) && CallerNeeds(t) <= n && Serves(1, n, choices)
    ensures var t := Run(c, s, before);
      var u := Run(c, t, choices);
      && u.caller.Returned? && u.caller.result != NoMem
      && (u.caller == Returned(EspFail) ==> u.exhausted)
      && (u.caller == Returned(ConnectError) ==> t.caller == Connect)
      && (u.caller == Returned(EspOk) ==> (c.ipv4 ==> u.ip == Null) && (c.ipv6 ==> u.ip6 == Null))
  {
    var t := Run(c, s, before);
    HistoryLaw(c, s, before);
    SureRun(c, s, before);
    RunWait(c, s, before);
    OnItsWayEnds(c, t, choices, 1, n);
    RunWait(c, t, choices);
  }
}
