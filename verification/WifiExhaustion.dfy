/** Retry limit and exhaustion, over every beginning of a call. */
module WifiExhaustion {
  import opened Folds
  import opened WifiConnect

  lemma CallerKeepsReconnects(c: Config, s: State, good: bool)
    ensures CallerStep(c, s, good).reconnects == s.reconnects
  {
  }

  lemma HandlerKeeps(c: Config, s: State)
    ensures var t := HandlerStep(c, s); t.wait == s.wait && t.reconnects == s.reconnects
  {
  }

  lemma EventKeeps(c: Config, s: State, e: Event)
    ensures var t := Deliver(c, s, e); t.wait == s.wait && (c.maxRetry == 0 && s.reconnects == 0 ==> t.reconnects == 0)
  {
  }

  lemma MoveKeeps(c: Config, s: State, choice: Choice)
    ensures var t := Move(c, s, choice);
      t.wait == s.wait && (c.maxRetry == 0 && s.reconnects == 0 ==> t.reconnects == 0)
  {
    match choice
    case RunCaller(good) =>
      CallerKeepsReconnects(c, s, good);
    case RunHandler => HandlerKeeps(c, s);
    case Arrive(e) => EventKeeps(c, s, e);
  }

  lemma {:induction false} RunWait(c: Config, s: State, choices: seq<Choice>)
    ensures Run(c, s, choices).wait == s.wait
  {
    if choices != [] {
      RunWait(c, s, choices[..|choices| - 1]);
      MoveKeeps(c, Run(c, s, choices[..|choices| - 1]), Last(choices));
    }
  }

  // ----- Reconnects -----

  /** In no run the handlers reconnect more often than allowed between two got-IP events. */
  ghost predicate Restrained(c: Config, s: State) {
    forall t | Reaches(c, s, t) :: t.reconnects <= c.maxRetry
  }

  // With no retries allowed the first disconnection is final, whatever happened before.
  lemma {:induction false} NoRetryRun(c: Config, s: State, choices: seq<Choice>)
    requires c.maxRetry == 0 && s.reconnects == 0
    ensures Run(c, s, choices).reconnects == 0
  {
    if choices != [] {
      NoRetryRun(c, s, choices[..|choices| - 1]);
      MoveKeeps(c, Run(c, s, choices[..|choices| - 1]), Last(choices));
    }
  }

  /** The handlers still know an earlier call; the caller is about to clear their count. */
  predicate AboutToClear(s: State) {
    s.caller == Reset && s.registered && s.handler == Idle
  }

  lemma ReachReset(c: Config, s: State) returns (t: State)
    requires Begins(s) && s.registered
    ensures Reaches(c, s, t) && AboutToClear(t) && t.wait == s.wait
    ensures s.wait ==> t.ip == Empty && (c.ipv6 ==> t.ip6 == Empty)
  {
    StartReached(c, s);
    ReachesNext(c, s, s, RunCaller(true));
    t := CallerStep(c, s, true);
    if s.wait {
      ReachesNext(c, s, t, RunCaller(true));
      t := CallerStep(c, t, true);
    }
  }

  // An address of someone else's clears the count, and so do reconnections.
  lemma ClearCount(c: Config, s: State, t: State) returns (u: State)
    requires Reaches(c, s, t) && AboutToClear(t)
    ensures Reaches(c, s, u) && AboutToClear(u) && u.retry == 0 && u.reconnects == 0
  {
    ReachesNext(c, s, t, Arrive(GotIp(false)));
    u := Deliver(c, t, GotIp(false));
    ReachesNext(c, s, u, RunHandler);
    u := HandlerStep(c, u);
  }

  lemma {:induction false} UseRetries(c: Config, s: State, t: State) returns (u: State)
    requires Reaches(c, s, t) && AboutToClear(t) && t.retry == t.reconnects <= c.maxRetry
    ensures Reaches(c, s, u) && AboutToClear(u) && u.reconnects == c.maxRetry
    decreases c.maxRetry - t.retry
  {
    if t.retry == c.maxRetry {
      u := t;
    } else {
      ReachesNext(c, s, t, Arrive(Disconnected(false)));
      u := UseRetries(c, s, Deliver(c, t, Disconnected(false)));
    }
  }

  /** One more than allowed: before the caller clears the count, and after. */
  lemma OneTooMany(c: Config, s: State) returns (t: State)
    requires Begins(s) && s.registered && c.maxRetry > 0
    ensures Reaches(c, s, t) && t.reconnects == c.maxRetry + 1
  {
    t := ReachReset(c, s);
    t := ClearCount(c, s, t);
    t := UseRetries(c, s, t);
    ReachesNext(c, s, t, RunCaller(true));
    t := CallerStep(c, t, true);
    ReachesNext(c, s, t, Arrive(Disconnected(false)));
    t := Deliver(c, t, Disconnected(false));
  }

  /** The handlers keep to the retry limit in every run of a call if and only if none was registered before it,
      or no retry is allowed at all. */
  lemma ReconnectLaw(c: Config, s: State)
    requires Begins(s)
    ensures Restrained(c, s) <==> !s.registered || c.maxRetry == 0
  {
    if s.registered && c.maxRetry > 0 {
      var t := OneTooMany(c, s);
    } else {
      forall t | Reaches(c, s, t) ensures t.reconnects <= c.maxRetry {
        var choices :| Run(c, s, choices) == t;
        if s.registered { NoRetryRun(c, s, choices); } else { ConnectSafety(c, s, choices); }
      }
    }
  }

  // ----- Exhaustion -----

  /** Wherever a waiting caller is when the handlers have given up, every schedule that serves both ends in failure. */
  ghost predicate Unblocks(c: Config, s: State) {
    forall t, choices, h: nat, n: nat |
        && Reaches(c, s, t) && t.wait && t.exhausted && Pending(t)
        && HandlerNeeds(t) <= h && CallerNeeds(t) <= n && Serves(h, n, choices) ::
      Failed(Run(c, t, choices), t.caller == Connect)
  }

  // The old registration's handler gives the new semaphores, and the caller clears the count.
  lemma Forgotten(c: Config, s: State) returns (t: State)
    requires Begins(s) && s.wait && s.registered
    ensures Reaches(c, s, t) && t.exhausted && t.caller == Connect && t.handler == Idle && Passing(c, t)
  {
    t := ReachReset(c, s);
    var retry := RoamingExhausts(c, s, t);
    t := StaleGives(c, s, t.(retry := retry, exhausted := true, handler := GiveIp));
    ReachesNext(c, s, t, RunCaller(true));
    t := CallerStep(c, t, true);
    ReachesNext(c, s, t, RunCaller(true));
    t := CallerStep(c, t, true);
  }

  function Callers(n: nat): (choices: seq<Choice>)
    ensures |choices| == n && forall k :: 0 <= k < n ==> choices[k] == RunCaller(true)
  {
    seq(n, _ => RunCaller(true))
  }

  lemma {:induction false} CallersServe(n: nat)
    ensures Serves(0, n, Callers(n))
  {
    if n > 0 {
      assert Callers(n)[1..] == Callers(n - 1);
      CallersServe(n - 1);
    }
  }

  lemma PassingMore(c: Config, t: State)
    requires Passing(c, t)
    ensures Passing(c, CallerStep(c, t, true))
  {
    if !t.caller.Returned? { PassingStep(c, t); }
  }

  lemma {:induction false} PassingRun(c: Config, t: State, choices: seq<Choice>)
    requires Passing(c, t) && forall k :: 0 <= k < |choices| ==> choices[k] == RunCaller(true)
    ensures Passing(c, Run(c, t, choices))
  {
    if choices != [] {
      PassingRun(c, t, choices[..|choices| - 1]);
      PassingMore(c, Run(c, t, choices[..|choices| - 1]));
    }
  }

  /** Exhaustion ends every waiting call with ESP_FAIL, whatever the schedule, as long as it serves both tasks, if and
      only if the call waits at all and began with no handler registered. */
  lemma UnblockLaw(c: Config, s: State)
    requires Begins(s)
    ensures Unblocks(c, s) <==> !s.registered || !s.wait
  {
    if s.registered && s.wait {
      var t := Forgotten(c, s);
      CallersServe(4);
      PassingRun(c, t, Callers(4));
      assert !Failed(Run(c, t, Callers(4)), true);
    } else {
      forall t, choices, h: nat, n: nat |
          && Reaches(c, s, t) && t.wait && t.exhausted && Pending(t)
          && HandlerNeeds(t) <= h && CallerNeeds(t) <= n && Serves(h, n, choices)
        ensures Failed(Run(c, t, choices), t.caller == Connect)
      {
        var before :| Run(c, s, before) == t;
        RunWait(c, s, before);
        RunInv(c, s, before);
        ExhaustionUnblocks(c, t, choices, h, n);
      }
    }
  }

  /** The caller waits for a semaphore that nobody is left to give. */
  predicate Hangs(c: Config, s: State) {
    && s.wait && s.exhausted && !s.registered && s.handler == Idle
    && ((s.caller == Take4 && c.ipv4 && s.ip == Empty) || (s.caller == Take6 && c.ipv6 && s.ip6 == Empty))
  }

  lemma {:induction false} HangsForever(c: Config, s: State, choices: seq<Choice>)
    requires Hangs(c, s)
    ensures Run(c, s, choices) == s
  {
    if choices != [] {
      HangsForever(c, s, choices[..|choices| - 1]);
    }
  }

  // The handlers give up before the call has made its semaphores.
  lemma GivesNobody(c: Config, s: State) returns (t: State)
    requires Begins(s) && s.registered
    ensures Reaches(c, s, t) && t.handler == Unregister && t.exhausted && t.caller == Create4 && t.wait == s.wait
  {
    StartReached(c, s);
    var retry := RoamingExhausts(c, s, s);
    t := s.(retry := retry, exhausted := true, handler := GiveIp);
    ReachesNext(c, s, t, RunHandler);
    t := HandlerStep(c, t);
    if c.ipv6 {
      ReachesNext(c, s, t, RunHandler);
      t := HandlerStep(c, t);
    }
  }

  // On its way the caller makes them, and registers the handlers anew.
  predicate Underway(c: Config, s: State) {
    && s.wait && s.exhausted && s.handler == Unregister
    && (s.caller == Create6 || s.caller == Reset || s.caller == Register || AtOrBefore4(s) ==> s.ip == Empty)
    && (c.ipv6 && (s.caller == Reset || s.caller == Register || AtOrBefore4(s)) ==> s.ip6 == Empty)
  }

  lemma ReachTake4(c: Config, s: State, t: State) returns (u: State)
    requires Reaches(c, s, t) && Underway(c, t) && t.caller == Create4
    ensures Reaches(c, s, u) && Underway(c, u) && u.caller == Take4
  {
    u := t;
    for i := 0 to 5
      invariant Reaches(c, s, u) && Underway(c, u)
      invariant u.caller == [Create4, Create6, Reset, Register, Connect, Take4][i]
    {
      ReachesNext(c, s, u, RunCaller(true));
      u := CallerStep(c, u, true);
    }
  }

  /** A waiting call that begins with handlers registered can hang for good: they give up before it has made its
      semaphores, and remove its own registration after it has begun to wait. No other call can. */
  lemma HangLaw(c: Config, s: State)
    requires Begins(s) && s.wait && (c.ipv4 || c.ipv6)
    ensures (exists t :: Reaches(c, s, t) && Hangs(c, t)) <==> s.registered
  {
    if s.registered {
      var t := GivesNobody(c, s);
      t := ReachTake4(c, s, t);
      if !c.ipv4 {
        ReachesNext(c, s, t, RunCaller(true));
        t := CallerStep(c, t, true);
      }
      ReachesNext(c, s, t, RunHandler);
      t := HandlerStep(c, t);
      assert Hangs(c, t);
    } else {
      forall t | Reaches(c, s, t) ensures !Hangs(c, t) {
        var choices :| Run(c, s, choices) == t;
        RunInv(c, s, choices);
      }
    }
  }
}
