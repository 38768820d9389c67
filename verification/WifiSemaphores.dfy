/** Semaphores that were deleted and are still pointed to. */
module WifiSemaphores {
  import opened Folds
  import opened WifiConnect

  /** This step gives a deleted semaphore. */
  predicate GivesDeleted(c: Config, s: State, choice: Choice) {
    match choice
    case RunCaller(_) => false
    case RunHandler =>
      ((s.handler == SignalIp(true) || s.handler == GiveIp) && s.ip == Deleted) || (s.handler == GiveIp6
        && s.ip6 == Deleted)
    case Arrive(e) =>
      s.registered && s.handler == Idle && c.ipv6 && e == GotIp6(true, true) && s.ip6 == Deleted
  }

  /** In no run of the call a deleted semaphore is given. */
  ghost predicate Harmless(c: Config, s: State) {
    forall t, choice | Reaches(c, s, t) :: !GivesDeleted(c, t, choice)
  }

  predicate Dangling(c: Config, s: State) {
    s.ip == Deleted || (c.ipv6 && s.ip6 == Deleted)
  }

  // Nothing dangles, or the handlers are not there to give it.
  predicate Guarded(c: Config, s: State) {
    var making := s.caller == Create4 || s.caller == Create6;
    && (s.handler == GiveIp6 ==> c.ipv6) && (s.caller == Create6 ==> s.wait)
    && (|| (!Dangling(c, s) && !(s.wait && c.ipv6 && making))
        || (s.wait && !s.registered && s.handler == Idle
            && (s.caller == Create4 || (s.caller == Create6 && s.ip == Empty) || s.caller == Returned(NoMem))))
  }

  lemma GuardedMaking(c: Config, s: State, good: bool)
    requires Guarded(c, s) && (s.caller == Create4 || s.caller == Create6)
    ensures Guarded(c, CallerStep(c, s, good))
  {
  }

  lemma GuardedCaller(c: Config, s: State, good: bool)
    requires Guarded(c, s) && s.caller != Create4 && s.caller != Create6
    ensures Guarded(c, CallerStep(c, s, good))
  {
  }

  lemma GuardedEvents(c: Config, s: State, e: Event)
    requires Guarded(c, s)
    ensures Guarded(c, Deliver(c, s, e)) && Guarded(c, HandlerStep(c, s))
  {
  }

  lemma GuardedNext(c: Config, s: State, choice: Choice)
    requires Guarded(c, s)
    ensures Guarded(c, Move(c, s, choice))
  {
    match choice
    case RunCaller(good) =>
      if s.caller == Create4 || s.caller == Create6 { GuardedMaking(c, s, good); } else { GuardedCaller(c, s, good); }
    case RunHandler => GuardedEvents(c, s, GotIp(true));
    case Arrive(e) => GuardedEvents(c, s, e);
  }

  lemma {:induction false} GuardedRun(c: Config, s: State, choices: seq<Choice>)
    requires Guarded(c, s)
    ensures Guarded(c, Run(c, s, choices))
  {
    if choices != [] {
      GuardedRun(c, s, choices[..|choices| - 1]);
      GuardedNext(c, Run(c, s, choices[..|choices| - 1]), Last(choices));
    }
  }

  // With handlers there and something dangling, one event is enough.
  lemma EventHarms(c: Config, s: State, t: State)
    requires Reaches(c, s, t) && t.registered && t.handler == Idle && Dangling(c, t)
    ensures !Harmless(c, s)
  {
    if t.ip == Deleted {
      ReachesNext(c, s, t, Arrive(GotIp(true)));
      assert GivesDeleted(c, Deliver(c, t, GotIp(true)), RunHandler);
    } else {
      assert GivesDeleted(c, t, Arrive(GotIp6(true, true)));
    }
  }

  // The second semaphore cannot be had, the first is deleted, and the handlers still know it.
  lemma MemoryHarms(c: Config, s: State)
    requires Begins(s) && s.wait && c.ipv6 && s.registered
    ensures !Harmless(c, s)
  {
    StartReached(c, s);
    ReachesNext(c, s, s, RunCaller(true));
    ReachesNext(c, s, CallerStep(c, s, true), RunCaller(false));
    EventHarms(c, s, CallerStep(c, CallerStep(c, s, true), false));
  }

  // A call that does not wait registers handlers for what an earlier call left behind.
  lemma LeftOverHarms(c: Config, s: State)
    requires Begins(s) && !s.wait && Dangling(c, s)
    ensures !Harmless(c, s)
  {
    StartReached(c, s);
    ReachesNext(c, s, s, RunCaller(true));
    var t := CallerStep(c, s, true);
    ReachesNext(c, s, t, RunCaller(true));
    t := CallerStep(c, t, true);
    ReachesNext(c, s, t, RunCaller(true));
    EventHarms(c, s, CallerStep(c, t, true));
  }

  /** No handler gives a deleted semaphore, in any run, if and only if nothing dangles before the call, or it is
      replaced before handlers are there; and, with handlers there already, no semaphore can come to dangle
      because memory for the second runs out. */
  lemma DeletedLaw(c: Config, s: State)
    requires Begins(s)
    ensures Harmless(c, s) <==>
      if s.registered then !Dangling(c, s) && !(s.wait && c.ipv6) else s.wait || !Dangling(c, s)
  {
    if if s.registered then !Dangling(c, s) && !(s.wait && c.ipv6) else s.wait || !Dangling(c, s) {
      forall t, choice | Reaches(c, s, t) ensures !GivesDeleted(c, t, choice) {
        var choices :| Run(c, s, choices) == t;
        GuardedRun(c, s, choices);
      }
    } else if s.registered && Dangling(c, s) {
      StartReached(c, s);
      EventHarms(c, s, s);
    } else if s.registered {
      MemoryHarms(c, s);
    } else {
      LeftOverHarms(c, s);
    }
  }
}
