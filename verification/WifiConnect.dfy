/** Connecting to Wi-Fi: a caller that waits on two semaphores, and event handlers that give them. */
module WifiConnect {
  import opened Folds

  /** Retry limit, and which kinds of address the caller waits for. */
  datatype Config = Config(maxRetry: nat, ipv4: bool, ipv6: bool)

  /** A binary semaphore's variable: no semaphore, one not given, one given, one deleted but still pointed to. */
  datatype Semaphore = Null | Empty | Full | Deleted

  datatype Result = EspOk | EspFail | NoMem | ConnectError

  /** Where the connecting task is. */
  datatype Caller = Create4 | Create6 | Reset | Register | Connect | Take4 | Take6 | Check | Returned(result: Result)

  /** Where the event task is: between events, or inside a handler. */
  datatype Handler = Idle | SignalIp(ours: bool) | GiveIp | GiveIp6 | Unregister

  datatype Event = Disconnected(roaming: bool) | GotIp(ours: bool) | GotIp6(ours: bool, preferred: bool)

  /** The program's variables, both tasks' positions, and what has happened since the call began. */
  datatype State = State(wait: bool, retry: nat, ip: Semaphore, ip6: Semaphore, registered: bool,
                         caller: Caller, handler: Handler,
                         gotIp: bool, gotIp6: bool, exhausted: bool, reconnects: nat)

  /** A call begins: nothing is known about the variables, no handler is running. */
  predicate Begins(s: State) {
    s.caller == Create4 && s.handler == Idle && !s.gotIp && !s.gotIp6 && !s.exhausted && s.reconnects == 0
  }

  function Give(sem: Semaphore): Semaphore {
    if sem == Empty then Full else sem
  }

  /** The caller's next step; `good` says whether memory or the driver is in favour. A blocked step changes nothing. */
  function CallerStep(c: Config, s: State, good: bool): State {
    match s.caller
    case Create4 =>
      if !s.wait then s.(caller := Reset)
      else if good then s.(ip := Empty, caller := Create6)
      else s.(ip := Null, caller := Returned(NoMem))
    case Create6 =>
      if !c.ipv6 then s.(caller := Reset)
      else if good then s.(ip6 := Empty, caller := Reset)
      else s.(ip := Deleted, ip6 := Null, caller := Returned(NoMem))
    case Reset => s.(retry := 0, caller := Register)
    case Register => s.(registered := true, caller := Connect)
    case Connect => s.(caller := if !good then Returned(ConnectError) else if s.wait then Take4 else Returned(EspOk))
    case Take4 =>
      if !c.ipv4 then s.(caller := Take6) else if s.ip == Full then s.(ip := Null, caller := Take6) else s
    case Take6 =>
      if !c.ipv6 then s.(caller := Check) else if s.ip6 == Full then s.(ip6 := Null, caller := Check) else s
    case Check => s.(caller := Returned(if s.retry > c.maxRetry then EspFail else EspOk))
    case Returned(_) => s
  }

  /** An event reaches its handler if handlers are registered and none is running. */
  function Deliver(c: Config, s: State, e: Event): State {
    if !s.registered || s.handler != Idle then s
    else match e
      case Disconnected(roaming) =>
        if s.retry + 1 > c.maxRetry then s.(retry := s.retry + 1, exhausted := true, handler := GiveIp)
        else if roaming then s.(retry := s.retry + 1)
        else s.(retry := s.retry + 1, reconnects := s.reconnects + 1)
      case GotIp(ours) => s.(retry := 0, reconnects := 0, gotIp := s.gotIp || ours, handler := SignalIp(ours))
      case GotIp6(ours, preferred) =>
        if c.ipv6 && ours && preferred then s.(ip6 := Give(s.ip6), gotIp6 := true) else s
  }

  function HandlerStep(c: Config, s: State): State {
    match s.handler
    case Idle => s
    case SignalIp(ours) => s.(ip := if ours then Give(s.ip) else s.ip, handler := Idle)
    case GiveIp => s.(ip := Give(s.ip), handler := if c.ipv6 then GiveIp6 else Unregister)
    case GiveIp6 => s.(ip6 := Give(s.ip6), handler := Unregister)
    case Unregister => s.(registered := false, handler := Idle)
  }

  /** The scheduler's choice. */
  datatype Choice = RunCaller(good: bool) | RunHandler | Arrive(e: Event)

  function Move(c: Config, s: State, choice: Choice): State {
    match choice
    case RunCaller(good) => CallerStep(c, s, good)
    case RunHandler => HandlerStep(c, s)
    case Arrive(e) => Deliver(c, s, e)
  }

  function Step(c: Config): (State, Choice) -> State {
    (s: State, choice: Choice) => Move(c, s, choice)
  }

  function Run(c: Config, s: State, choices: seq<Choice>): State {
    Fold(Step(c), s, choices)
  }

  // ----- The invariant of a call that begins with no handler registered -----

  predicate Early(s: State) {
    s.caller == Create4 || s.caller == Create6 || s.caller == Reset || s.caller == Register
  }

  /** The caller has got past waiting for this semaphore. */
  predicate Taken4(s: State) {
    s.caller == Take6 || s.caller == Check || s.caller == Returned(EspOk) || s.caller == Returned(EspFail)
  }

  predicate Taken6(s: State) {
    s.caller == Check || s.caller == Returned(EspOk) || s.caller == Returned(EspFail)
  }

  predicate Exhausting(h: Handler) {
    h == GiveIp || h == GiveIp6 || h == Unregister
  }

  predicate AtOrBefore4(s: State) {
    s.caller == Connect || s.caller == Take4
  }

  predicate AtOrBefore6(s: State) {
    AtOrBefore4(s) || s.caller == Take6
  }

  // An exhausted handler has already given the first, or the second, semaphore.
  predicate Given4(s: State) {
    s.exhausted && s.handler != GiveIp
  }

  predicate Given6(s: State) {
    s.exhausted && s.handler != GiveIp && s.handler != GiveIp6
  }

  predicate There(sem: Semaphore) {
    sem == Empty || sem == Full
  }

  predicate Inv(c: Config, s: State) {
    && s.reconnects <= s.retry && s.reconnects <= c.maxRetry
    && (Early(s) ==> !s.registered && s.handler == Idle && !s.exhausted && s.reconnects == 0)
    // Exhaustion is final: the count stays, and no other handler will run.
    && (s.exhausted ==> s.retry > c.maxRetry && (Exhausting(s.handler) || (s.handler == Idle && !s.registered)))
    && (Exhausting(s.handler) ==> s.exhausted) && (s.handler == GiveIp6 ==> c.ipv6)
    && (s.wait ==> Waits(c, s))
  }

  /** What holds besides while the caller waits for addresses. */
  predicate Waits(c: Config, s: State) {
    // The semaphores are there, not given before there can be a reason.
    && (s.caller == Create6 ==> s.ip == Empty)
    && (s.caller == Reset || s.caller == Register ==> s.ip == Empty && (c.ipv6 ==> s.ip6 == Empty))
    && (AtOrBefore4(s) ==> There(s.ip)) && (c.ipv6 && AtOrBefore6(s) ==> There(s.ip6))
    // A semaphore is given, and taken, for a reason.
    && (s.handler.SignalIp? && s.handler.ours ==> s.gotIp)
    && (AtOrBefore4(s) && s.ip == Full ==> s.gotIp || s.exhausted)
    && (c.ipv6 && AtOrBefore6(s) && s.ip6 == Full ==> s.gotIp6 || s.exhausted)
    && (c.ipv4 && Taken4(s) ==> s.gotIp || s.exhausted)
    && (c.ipv6 && Taken6(s) ==> s.gotIp6 || s.exhausted)
    // Once given up, whoever still waits is given a semaphore.
    && (Given4(s) && AtOrBefore4(s) ==> s.ip == Full)
    && (Given6(s) && c.ipv6 && AtOrBefore6(s) ==> s.ip6 == Full)
    // The verdict.
    && (s.caller == Returned(EspOk) ==> (c.ipv4 ==> s.gotIp) && (c.ipv6 ==> s.gotIp6))
  }

  lemma TakeInv(c: Config, s: State, good: bool)
    requires Inv(c, s) && (s.caller == Take4 || s.caller == Take6)
    ensures Inv(c, CallerStep(c, s, good))
  {
  }

  lemma LateInv(c: Config, s: State, good: bool)
    requires Inv(c, s) && (s.caller == Connect || s.caller == Check || s.caller.Returned?)
    ensures Inv(c, CallerStep(c, s, good))
  {
  }

  lemma EventInv(c: Config, s: State, e: Event)
    requires Inv(c, s)
    ensures Inv(c, Deliver(c, s, e))
  {
  }

  lemma HandlerInv(c: Config, s: State)
    requires Inv(c, s)
    ensures Inv(c, HandlerStep(c, s))
  {
  }

  lemma StepInv(c: Config, s: State, choice: Choice)
    requires Inv(c, s)
    ensures Inv(c, Move(c, s, choice))
  {
    match choice
    case RunCaller(good) =>
      if Early(s) {
      } else if s.caller == Take4 || s.caller == Take6 {
        TakeInv(c, s, good);
      } else {
        LateInv(c, s, good);
      }
    case RunHandler => HandlerInv(c, s);
    case Arrive(e) => EventInv(c, s, e);
  }

  lemma {:induction false} RunInv(c: Config, s: State, choices: seq<Choice>)
    requires Begins(s) && !s.registered
    ensures Inv(c, Run(c, s, choices))
  {
    if choices != [] {
      RunInv(c, s, choices[..|choices| - 1]);
      StepInv(c, Run(c, s, choices[..|choices| - 1]), Last(choices));
    }
  }

  /** A call that begins with no handler registered and returns OK after waiting has its addresses; in such a call
      the handlers never try to reconnect more often than allowed between two got-IP events. */
  lemma ConnectSafety(c: Config, s: State, choices: seq<Choice>)
    requires Begins(s) && !s.registered
    ensures var t := Run(c, s, choices);
      && (t.wait && t.caller == Returned(EspOk) ==> (c.ipv4 ==> t.gotIp) && (c.ipv6 ==> t.gotIp6))
      && t.reconnects <= c.maxRetry
  {
    RunInv(c, s, choices);
  }

  // ----- Exhaustion unblocks the caller -----

  predicate Pending(s: State) {
    AtOrBefore6(s) || s.caller == Check
  }

  /** How many steps the handler, and the caller after it, are from their ends. */
  function HandlerNeeds(s: State): nat {
    match s.handler case GiveIp => 3 case GiveIp6 => 2 case Unregister => 1 case _ => 0
  }

  function CallerNeeds(s: State): nat {
    match s.caller case Connect => 4 case Take4 => 3 case Take6 => 2 case Check => 1 case _ => 0
  }

  /** Once the handlers have given up, a step of the handler, or of the caller if the handler has finished,
      brings that task nearer to its end; no step takes either further away, and no call can succeed. */
  lemma ExhaustedStep(c: Config, s: State, choice: Choice)
    requires Inv(c, s) && s.wait && s.exhausted && Pending(s)
    ensures var t := Move(c, s, choice);
      && t.exhausted && t.wait && HandlerNeeds(t) <= HandlerNeeds(s) && CallerNeeds(t) <= CallerNeeds(s)
      && (choice.RunHandler? && s.handler != Idle ==> HandlerNeeds(t) < HandlerNeeds(s))
      && (choice.RunCaller? && s.handler == Idle ==> CallerNeeds(t) < CallerNeeds(s))
      && (Pending(t) || Failed(t, s.caller == Connect)) && (s.caller != Connect ==> t.caller != Connect)
  {
  }

  /** The call has returned ESP_FAIL, or the driver's error if that may have refused to connect. */
  predicate Failed(s: State, refusal: bool) {
    s.caller == Returned(EspFail) || (refusal && s.caller == Returned(ConnectError))
  }

  lemma FailedStays(c: Config, s: State, choice: Choice, refusal: bool)
    requires Failed(s, refusal)
    ensures Failed(Move(c, s, choice), refusal)
  {
  }

  /** The schedule gives the handler h steps and after these the caller n. */
  predicate Serves(h: nat, n: nat, choices: seq<Choice>) {
    if h == 0 && n == 0 then true
    else if choices == [] then false
    else if h > 0 then Serves(if choices[0].RunHandler? then h - 1 else h, n, choices[1..])
    else Serves(0, if choices[0].RunCaller? then n - 1 else n, choices[1..])
  }

  lemma RunFirst(c: Config, s: State, choices: seq<Choice>)
    requires choices != []
    ensures Run(c, s, choices) == Run(c, Move(c, s, choices[0]), choices[1..])
  {
    var first := choices[..1];
    assert choices == first + choices[1..] && first[..0] == [] && Last(first) == choices[0];
    assert Fold(Step(c), s, first) == Step(c)(Fold(Step(c), s, first[..0]), choices[0]);
    FoldConcat(Step(c), s, first, choices[1..]);
  }

  lemma {:induction false} FailedForGood(c: Config, s: State, choices: seq<Choice>, refusal: bool)
    requires Failed(s, refusal)
    ensures Failed(Run(c, s, choices), refusal)
  {
    if choices != [] {
      FailedForGood(c, s, choices[..|choices| - 1], refusal);
      FailedStays(c, Run(c, s, choices[..|choices| - 1]), Last(choices), refusal);
    }
  }

  /** In a call that began with no handler registered, after exhaustion every schedule that lets the handler finish
      and then gives the waiting caller its few steps ends with ESP_FAIL, whatever else happens in between; only the
      driver may refuse to connect before. */
  lemma {:induction false} ExhaustionUnblocks(c: Config, s: State, choices: seq<Choice>, h: nat, n: nat)
    requires Inv(c, s) && s.wait && s.exhausted && Pending(s)
    requires HandlerNeeds(s) <= h && CallerNeeds(s) <= n && Serves(h, n, choices)
    ensures Failed(Run(c, s, choices), s.caller == Connect)
    decreases |choices|
  {
    var choice := choices[0];
    var t := Move(c, s, choice);
    RunFirst(c, s, choices);
    StepInv(c, s, choice);
    ExhaustedStep(c, s, choice);
    if Failed(t, s.caller == Connect) {
      FailedForGood(c, t, choices[1..], s.caller == Connect);
    } else if h > 0 {
      ExhaustionUnblocks(c, t, choices[1..], if choice.RunHandler? then h - 1 else h, n);
    } else {
      ExhaustionUnblocks(c, t, choices[1..], 0, if choice.RunCaller? then n - 1 else n);
    }
  }

  // ----- A call that begins with handlers still registered -----

  ghost predicate Reaches(c: Config, s: State, t: State) {
    exists choices :: Run(c, s, choices) == t
  }

  lemma StartReached(c: Config, s: State)
    ensures Reaches(c, s, s)
  {
    assert Run(c, s, []) == s;
  }

  lemma ReachesNext(c: Config, s: State, t: State, choice: Choice)
    requires Reaches(c, s, t)
    ensures Reaches(c, s, Move(c, t, choice))
  {
    var choices :| Run(c, s, choices) == t;
    FoldSnoc(Step(c), s, choices, choice);
    assert Run(c, s, choices + [choice]) == Move(c, t, choice);
  }

  // Roaming events alone use the retries up.
  lemma {:induction false} RoamingExhausts(c: Config, s: State, t: State) returns (retry: nat)
    requires Reaches(c, s, t) && t.registered && t.handler == Idle
    ensures Reaches(c, s, t.(retry := retry, exhausted := true, handler := GiveIp))
    decreases c.maxRetry - t.retry
  {
    ReachesNext(c, s, t, Arrive(Disconnected(true)));
    if t.retry + 1 > c.maxRetry {
      retry := t.retry + 1;
    } else {
      retry := RoamingExhausts(c, s, t.(retry := t.retry + 1));
    }
  }

  // The handler of the old registration gives the new semaphores.
  lemma StaleGives(c: Config, s: State, t: State) returns (u: State)
    requires Reaches(c, s, t) && t.handler == GiveIp && t.caller == Reset
    requires t.ip == Empty && (c.ipv6 ==> t.ip6 == Empty)
    ensures Reaches(c, s, u) && u.caller == Reset && u.handler == Idle && u.wait == t.wait && u.exhausted == t.exhausted
    ensures u.ip == Full && (c.ipv6 ==> u.ip6 == Full) && u.gotIp == t.gotIp && u.gotIp6 == t.gotIp6
  {
    ReachesNext(c, s, t, RunHandler);
    u := HandlerStep(c, t);
    if c.ipv6 {
      ReachesNext(c, s, u, RunHandler);
      u := HandlerStep(c, u);
    }
    ReachesNext(c, s, u, RunHandler);
    u := HandlerStep(c, u);
  }

  function CallsNeeds(s: State): nat {
    if s.caller == Reset then 6 else if s.caller == Register then 5 else CallerNeeds(s)
  }

  // Nothing is left for the caller to wait for.
  predicate Passing(c: Config, s: State) {
    && s.wait && (s.caller != Reset ==> s.retry == 0)
    && (s.caller == Reset || s.caller == Register || AtOrBefore4(s) ==> s.ip == Full)
    && (c.ipv6 && !Taken6(s) ==> s.ip6 == Full)
    && !s.caller.Create4? && !s.caller.Create6? && (s.caller.Returned? ==> s.caller == Returned(EspOk))
  }

  lemma PassingStep(c: Config, s: State)
    requires Passing(c, s) && !s.caller.Returned?
    ensures var t := CallerStep(c, s, true);
      Passing(c, t) && CallsNeeds(t) < CallsNeeds(s) && t.gotIp == s.gotIp && t.gotIp6 == s.gotIp6
  {
  }

  lemma {:induction false} CallerPasses(c: Config, s: State, t: State) returns (u: State)
    requires Reaches(c, s, t) && Passing(c, t)
    ensures Reaches(c, s, u) && u.wait && u.caller == Returned(EspOk) && u.gotIp == t.gotIp && u.gotIp6 == t.gotIp6
    decreases CallsNeeds(t)
  {
    u := t;
    if !t.caller.Returned? {
      ReachesNext(c, s, t, RunCaller(true));
      PassingStep(c, t);
      u := CallerPasses(c, s, CallerStep(c, t, true));
    }
  }

  /** Whatever is said by OK, in every run of the call. */
  ghost predicate Trustworthy(c: Config, s: State) {
    forall t | Reaches(c, s, t) && t.wait && t.caller == Returned(EspOk) ::
      (c.ipv4 ==> t.gotIp) && (c.ipv6 ==> t.gotIp6)
  }

  lemma StaleSuccess(c: Config, s: State)
    requires Begins(s) && s.wait && s.registered && (c.ipv4 || c.ipv6)
    ensures !Trustworthy(c, s)
  {
    StartReached(c, s);
    ReachesNext(c, s, s, RunCaller(true));
    var t := CallerStep(c, s, true);
    ReachesNext(c, s, t, RunCaller(true));
    t := CallerStep(c, t, true);
    var retry := RoamingExhausts(c, s, t);
    t := StaleGives(c, s, t.(retry := retry, exhausted := true, handler := GiveIp));
    t := CallerPasses(c, s, t);
  }

  /** OK can be relied on exactly when no handler was left registered before the call, as an earlier call that
      succeeded leaves them: disconnections between making the semaphores and clearing the count would end
      the wait and then be forgotten. */
  lemma TrustLaw(c: Config, s: State)
    requires Begins(s) && s.wait && (c.ipv4 || c.ipv6)
    ensures Trustworthy(c, s) <==> !s.registered
  {
    if s.registered {
      StaleSuccess(c, s);
    } else {
      forall t | Reaches(c, s, t) && t.wait && t.caller == Returned(EspOk)
        ensures (c.ipv4 ==> t.gotIp) && (c.ipv6 ==> t.gotIp6)
      {
        var choices :| Run(c, s, choices) == t;
        ConnectSafety(c, s, choices);
      }
    }
  }
}
