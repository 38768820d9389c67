/** Safety of the manager over whole runs, and the laws of its retry loop. */
module I2cRuns {
  import opened Options
  import opened I2cSpec
  import opened I2cInvariant

  /** A call of the client, with everything the driver, the memory and the locks decide during it. */
  datatype Call =
    | CallDescribe(id: nat, port: nat, sda: int, scl: int)
    | CallRepin(id: nat, sda: int, scl: int)
    | CallCreate(id: nat, memory: bool, lock: bool)
    | CallDelete(id: nat, lock: bool)
    | CallOperate(id: nat, attempts: seq<Attempt>)
    | CallPresent(id: nat, lock: bool, newBus: Esp)

  /** The client deletes only devices that were added; retries are bounded by the configuration. */
  predicate Allowed(c: Config, s: State, call: Call) {
    match call
    case CallDelete(id, _) => id in s.added
    case CallOperate(id, attempts) => id in s.devs && |attempts| == c.retries + 1
    case CallPresent(id, _, _) => id in s.devs
    case _ => true
  }

  function Next(c: Config, s: State, call: Call): State
    requires Shaped(c, s) && Allowed(c, s, call)
  {
    match call
    case CallDescribe(id, port, sda, scl) => Describe(s, id, port, sda, scl)
    case CallRepin(id, sda, scl) => Repin(s, id, sda, scl)
    case CallCreate(id, memory, lock) => CreateMutex(c, s, id, memory, lock).0
    case CallDelete(id, lock) => DeleteMutex(c, s, id, lock).0
    case CallOperate(id, attempts) => Operate(c, s, id, attempts, 0).s
    case CallPresent(id, lock, newBus) => SetupPort(c, s, id, lock, newBus).0
  }

  /** The tables after a run of allowed calls, None if the client breaks its rule on the way. */
  function Run(c: Config, calls: seq<Call>): Option<State> {
    if calls == [] then Some(Init(c))
    else
      var call := calls[|calls| - 1];
      match Run(c, calls[..|calls| - 1])
      case None => None
      case Some(s) => if Shaped(c, s) && Allowed(c, s, call) then Some(Next(c, s, call)) else None
  }

  lemma DescribeInv(c: Config, s: State, id: nat, port: nat, sda: int, scl: int)
    requires Inv(c, s)
    ensures Inv(c, Describe(s, id, port, sda, scl))
  {
    var t := Describe(s, id, port, sda, scl);
    forall p | 0 <= p < c.ports ensures PortOk(t, p) && Counted(t, p) {
      assert PortOk(s, p) && Counted(s, p);
      assert On(t, p) == On(s, p);
    }
    forall k | k in t.devs ensures HandleOk(t, k) {
      if k in s.devs { assert HandleOk(s, k); }
    }
  }

  lemma RepinInv(c: Config, s: State, id: nat, sda: int, scl: int)
    requires Inv(c, s)
    ensures Inv(c, Repin(s, id, sda, scl))
  {
    if id in s.devs {
      var t, p := Repin(s, id, sda, scl), s.devs[id].port;
      LocalOn(c, s, t, id, p);
      assert On(t, p) == On(s, p);
      assert p < c.ports ==> PortOk(s, p) && Counted(s, p);
      assert HandleOk(s, id);
      LocalInv(c, s, t, id);
    }
  }

  lemma NextInv(c: Config, s: State, call: Call)
    requires Inv(c, s) && Allowed(c, s, call)
    ensures Inv(c, Next(c, s, call))
  {
    match call
    case CallDescribe(id, port, sda, scl) => DescribeInv(c, s, id, port, sda, scl);
    case CallRepin(id, sda, scl) => RepinInv(c, s, id, sda, scl);
    case CallCreate(id, memory, lock) => CreateMutexInv(c, s, id, memory, lock);
    case CallDelete(id, lock) => DeleteMutexInv(c, s, id, lock);
    case CallOperate(id, attempts) => OperateInv(c, s, id, attempts, 0);
    case CallPresent(id, lock, newBus) => SetupPortInv(c, s, id, lock, newBus);
  }

  /** Every state a client that keeps the rule can reach satisfies the invariant. */
  lemma {:induction false} RunInv(c: Config, calls: seq<Call>)
    ensures Run(c, calls).Some? ==> Inv(c, Run(c, calls).value)
  {
    if calls == [] {
    } else {
      var init, call := calls[..|calls| - 1], calls[|calls| - 1];
      RunInv(c, init);
      match Run(c, init)
      case None =>
      case Some(s) =>
        if Shaped(c, s) && Allowed(c, s, call) { NextInv(c, s, call); }
    }
  }

  lemma {:induction false} OperateKeepsBuses(c: Config, s: State, id: nat, attempts: seq<Attempt>, retry: nat)
    requires Shaped(c, s) && id in s.devs && retry <= c.retries && |attempts| == c.retries + 1
    ensures KeepsBuses(s, Operate(c, s, id, attempts, retry).s)
    decreases c.retries - retry
  {
    var t := TryOnce(c, s, id, attempts[retry], retry);
    TryOnceShape(c, s, id, attempts[retry], retry);
    if t.res != Ok && retry < c.retries {
      OperateKeepsBuses(c, t.s, id, attempts, retry + 1);
    }
  }

  lemma DeleteTakesBus(c: Config, s: State, id: nat, lock: bool, p: nat)
    requires Inv(c, s) && id in s.added && p < c.ports
    ensures var t := DeleteMutex(c, s, id, lock).0;
      s.ports[p].installed ==>
        if t.ports[p].installed then KeepsBus(s.ports[p], t.ports[p]) else s.devs[id].port == p && On(s, p) == {id}
  {
    var t := DeleteMutex(c, s, id, lock).0;
    DeleteMutexInv(c, s, id, lock);
    assert Counted(t, p) && Counted(s, p);
    if s.ports[p].installed && !t.ports[p].installed {
      assert On(t, p) == On(s, p) - {id};
      assert id in On(s, p);
      assert On(s, p) == On(t, p) + {id};
    }
  }

  /** The pins of a port are fixed while its bus is installed, and only deleting its last device removes that. */
  lemma PinsFixed(c: Config, s: State, call: Call, p: nat)
    requires Inv(c, s) && Allowed(c, s, call) && p < c.ports
    ensures var t := Next(c, s, call);
      Shaped(c, t) && (s.ports[p].installed ==>
        if t.ports[p].installed then KeepsBus(s.ports[p], t.ports[p])
        else call.CallDelete? && s.devs[call.id].port == p && On(s, p) == {call.id})
  {
    NextInv(c, s, call);
    match call
    case CallOperate(id, attempts) => OperateKeepsBuses(c, s, id, attempts, 0);
    case CallDelete(id, lock) => DeleteTakesBus(c, s, id, lock, p);
    case _ =>
  }

  predicate Live(s: State, id: nat, p: nat) {
    id in s.devs && s.devs[id].port == p && s.devs[id].handle.Some?
  }

  lemma OnLive(c: Config, s: State, p: nat, live: set<nat>)
    requires Inv(c, s) && p < c.ports && forall id :: id in live ==> Live(s, id, p)
    ensures |live| <= s.ports[p].refs
  {
    assert Counted(s, p);
    forall id | id in live ensures id in On(s, p) { assert HandleOk(s, id); }
    Subset(live, On(s, p));
  }

  lemma {:induction false} Subset<T>(a: set<T>, b: set<T>)
    requires a <= b
    ensures |a| <= |b|
    decreases a
  {
    if a != {} {
      var x :| x in a;
      Subset(a - {x}, b - {x});
    }
  }

  /** Over every run the reference count covers the live handles, all of which belong to the bus of now;
      and a deletion that takes a bus away leaves no live handle on its port. */
  lemma BusLifetime(c: Config, calls: seq<Call>, p: nat, live: set<nat>, id: nat, lock: bool)
    requires p < c.ports && Run(c, calls).Some?
    requires var s := Run(c, calls).value; forall k :: k in live ==> Live(s, k, p)
    ensures var s := Run(c, calls).value;
      && Shaped(c, s) && |live| <= s.ports[p].refs
      && (forall k :: Live(s, k, p) ==> s.ports[p].installed && s.ports[p].bus == s.devs[k].handle)
      && (id in s.added ==>
            var t := DeleteMutex(c, s, id, lock).0;
            s.ports[p].bus != t.ports[p].bus ==> forall k :: !Live(t, k, p))
  {
    var s := Run(c, calls).value;
    RunInv(c, calls);
    OnLive(c, s, p, live);
    forall k | Live(s, k, p) ensures s.ports[p].installed && s.ports[p].bus == s.devs[k].handle {
      assert HandleOk(s, k);
    }
    if id in s.added {
      var t := DeleteMutex(c, s, id, lock).0;
      DeleteMutexInv(c, s, id, lock);
      forall k | s.ports[p].bus != t.ports[p].bus ensures !Live(t, k, p) {
        if k in t.devs { assert HandleOk(t, k) && HandleOk(s, k) && PortOk(s, p); }
      }
    }
  }

  /** Deleting a device that was never added is harmless exactly as long as the count exceeds the devices added. */
  lemma DeleteLaw(c: Config, s: State, id: nat, lock: bool)
    requires Inv(c, s) && id in s.devs && id !in s.added
    ensures var p := s.devs[id].port;
      var last := lock && p < c.ports && s.ports[p].installed && s.ports[p].refs > 0 && s.ports[p].refs == |On(s, p)|;
      Inv(c, DeleteMutex(c, s, id, lock).0) <==> !last
  {
    var t, p := DeleteMutex(c, s, id, lock).0, s.devs[id].port;
    DeletedSlots(c, s, id, lock);
    assert Local(c, s, t, id);
    LocalOn(c, s, t, id, p);
    assert On(t, p) == On(s, p) by { assert id !in On(s, p) && id !in On(t, p); }
    assert HandleOk(t, id);
    if p < c.ports {
      assert PortOk(s, p) && Counted(s, p);
      if lock && s.ports[p].installed && s.ports[p].refs > 0 {
        if s.ports[p].refs == |On(s, p)| {
          assert !Counted(t, p);
        } else {
          assert s.ports[p].refs == 1 ==> On(s, p) == {};
          LocalInv(c, s, t, id);
        }
      } else {
        LocalInv(c, s, t, id);
      }
    } else {
      LocalInv(c, s, t, id);
    }
  }

  /** With one reference left, deleting a device that never was on the bus strands the one that is. */
  lemma StrayDelete(c: Config, s: State, id: nat, k: nat)
    requires Inv(c, s) && id in s.devs && id !in s.added
    requires var p := s.devs[id].port; p < c.ports && Live(s, k, p) && s.ports[p].refs == 1
    ensures var t, p := DeleteMutex(c, s, id, true).0, s.devs[id].port; Live(t, k, p) && !t.ports[p].installed
  {
    assert HandleOk(s, k);
  }

  // ----- The retry loop -----

  function Total(pauses: seq<nat>): nat {
    if pauses == [] then 0 else pauses[0] + Total(pauses[1..])
  }

  lemma {:induction false} TotalConcat(a: seq<nat>, b: seq<nat>)
    ensures Total(a + b) == Total(a) + Total(b)
  {
    if a == [] {
      assert a + b == b;
    } else {
      TotalConcat(a[1..], b);
      assert (a + b)[1..] == a[1..] + b;
    }
  }

  lemma {:induction false} Pow2Grows(m: nat, n: nat)
    requires m <= n
    ensures 1 <= Pow2(m) <= Pow2(n)
  {
    if m < n {
      Pow2Grows(m, n - 1);
    } else if n > 0 {
      Pow2Grows(m - 1, n - 1);
    }
  }

  /** From try `retry` on: at most the tries left, and the pauses bounded. */
  lemma {:induction false} RetryBoundFrom(c: Config, s: State, id: nat, attempts: seq<Attempt>, retry: nat)
    requires Shaped(c, s) && id in s.devs && retry <= c.retries && |attempts| == c.retries + 1
    ensures var o := Operate(c, s, id, attempts, retry);
      && 1 <= o.used <= c.retries + 1 - retry
      && Total(o.pauses) <= BASE_DELAY * (3 * Pow2(c.retries) - 2 * Pow2(retry))
    decreases c.retries - retry
  {
    var t := TryOnce(c, s, id, attempts[retry], retry);
    TryOnceShape(c, s, id, attempts[retry], retry);
    Pow2Grows(retry, c.retries);
    if retry < c.retries {
      Pow2Grows(retry + 1, c.retries);
      var now, next, most := Pow2(retry), Pow2(retry + 1), Pow2(c.retries);
      assert next == 2 * now;
      if t.res != Ok {
        var o := Operate(c, t.s, id, attempts, retry + 1);
        RetryBoundFrom(c, t.s, id, attempts, retry + 1);
        TotalConcat(t.pauses, o.pauses);
        assert Operate(c, s, id, attempts, retry).pauses == t.pauses + o.pauses;
      }
    }
  }

  /** At most R + 1 tries, and pauses of at most 20 * (3 * 2^R - 2) milliseconds in all: 440 for three retries. */
  lemma RetryBound(c: Config, s: State, id: nat, attempts: seq<Attempt>)
    requires Shaped(c, s) && id in s.devs && |attempts| == c.retries + 1
    ensures var o := Operate(c, s, id, attempts, 0);
      o.used <= c.retries + 1 && Total(o.pauses) <= 20 * (3 * Pow2(c.retries) - 2)
      && (c.retries == 3 ==> Total(o.pauses) <= 440)
  {
    RetryBoundFrom(c, s, id, attempts, 0);
    if c.retries == 3 {
      assert Pow2(3) == 2 * Pow2(2) == 4 * Pow2(1) == 8;
    }
  }

  predicate TryAt(c: Config, s: State, id: nat, attempts: seq<Attempt>, first: nat, tries: seq<Try>, k: nat)
    requires first + |tries| <= |attempts| && k < |tries|
  {
    var b := if k == 0 then s else tries[k - 1].s;
    && Shaped(c, b) && id in b.devs && tries[k] == TryOnce(c, b, id, attempts[first + k], first + k)
    && (k < |tries| - 1 ==> tries[k].res != Ok)
  }

  /** Tries made one after the other from number `first` on, none but the last of which may have succeeded. */
  predicate Tries(c: Config, s: State, id: nat, attempts: seq<Attempt>, first: nat, tries: seq<Try>) {
    && tries != [] && first + |tries| <= |attempts|
    && forall k :: 0 <= k < |tries| ==> TryAt(c, s, id, attempts, first, tries, k)
  }

  lemma TriesCons(c: Config, s: State, id: nat, attempts: seq<Attempt>, first: nat, t: Try, rest: seq<Try>)
    requires Shaped(c, s) && id in s.devs && first < |attempts|
    requires t == TryOnce(c, s, id, attempts[first], first) && t.res != Ok
    requires Tries(c, t.s, id, attempts, first + 1, rest)
    ensures Tries(c, s, id, attempts, first, [t] + rest)
  {
    var tries := [t] + rest;
    forall k | 0 <= k < |tries| ensures TryAt(c, s, id, attempts, first, tries, k) {
      if k > 0 {
        assert TryAt(c, t.s, id, attempts, first + 1, rest, k - 1);
        assert tries[k] == rest[k - 1] && first + 1 + (k - 1) == first + k;
        assert k > 1 ==> tries[k - 1] == rest[k - 2];
      }
    }
  }

  /** The loop ends at the first try that succeeds, or after the last one allowed; its result is that try's. */
  lemma {:induction false} RetryStops(c: Config, s: State, id: nat, attempts: seq<Attempt>, first: nat)
      returns (tries: seq<Try>)
    requires Shaped(c, s) && id in s.devs && first <= c.retries && |attempts| == c.retries + 1
    ensures var o := Operate(c, s, id, attempts, first);
      && Tries(c, s, id, attempts, first, tries) && o.used == |tries|
      && o.res == tries[|tries| - 1].res && o.s == tries[|tries| - 1].s
      && (o.res == Ok || first + o.used == c.retries + 1)
    decreases c.retries - first
  {
    var t := TryOnce(c, s, id, attempts[first], first);
    TryOnceShape(c, s, id, attempts[first], first);
    if t.res != Ok && first < c.retries {
      var rest := RetryStops(c, t.s, id, attempts, first + 1);
      TriesCons(c, s, id, attempts, first, t, rest);
      tries := [t] + rest;
    } else {
      tries := [t];
    }
  }

  /** The bound is reached: operations that time out until the last try, which then misses the lock. */
  lemma {:induction false} RetryBoundTight(c: Config, s: State, id: nat, attempts: seq<Attempt>, retry: nat)
    requires Shaped(c, s) && id in s.devs && retry <= c.retries && |attempts| == c.retries + 1
    requires s.devs[id].port < c.ports && s.devs[id].handle.Some?
    requires forall k :: 0 <= k < c.retries ==>
      SetupDevice(c, s, id, attempts[k]) == (s, Ok) && attempts[k].op == Timeout
    requires !attempts[c.retries].lock
    ensures Total(Operate(c, s, id, attempts, retry).pauses) == BASE_DELAY * (3 * Pow2(c.retries) - 2 * Pow2(retry))
    decreases c.retries - retry
  {
    var t := TryOnce(c, s, id, attempts[retry], retry);
    if retry < c.retries {
      assert t == Try(s, Timeout, [BASE_DELAY * Pow2(retry + 1)]);
      RetryBoundTight(c, s, id, attempts, retry + 1);
      TotalConcat(t.pauses, Operate(c, s, id, attempts, retry + 1).pauses);
      assert Pow2(retry + 1) == 2 * Pow2(retry);
    }
  }

  // ----- Clean-up -----

  /** The first `n` ports have been cleaned up, the others not touched. */
  predicate Cleaned(c: Config, s: State, t: State, locks: seq<bool>, n: nat)
    requires Shaped(c, s) && Shaped(c, t) && |locks| == c.ports && n <= c.ports
  {
    && t.devs.Keys == s.devs.Keys
    && (forall id :: id in s.devs ==>
          t.devs[id].port == s.devs[id].port
          && (t.devs[id].handle.Some? <==>
                s.devs[id].handle.Some? && !Unhooked(c, s, locks, n, id)))
    && (forall p :: 0 <= p < c.ports ==>
          if p < n then t.ports[p].installed == (s.ports[p].installed && !locks[p])
            && t.slots[p] == seq(c.slots, _ => None)
          else t.ports[p] == s.ports[p] && t.slots[p] == s.slots[p])
  }

  predicate Registered(s: State, id: nat)
    requires id in s.devs
  {
    s.devs[id].port < |s.slots| && Some(id) in s.slots[s.devs[id].port]
  }

  predicate Unhooked(c: Config, s: State, locks: seq<bool>, n: nat, id: nat)
    requires Shaped(c, s) && id in s.devs && |locks| == c.ports && n <= c.ports
  {
    var p := s.devs[id].port;
    p < n && locks[p] && s.ports[p].installed && Registered(s, id)
  }

  lemma {:induction false} DoneCleans(c: Config, s: State, locks: seq<bool>, n: nat)
    requires Inv(c, s) && |locks| == c.ports && n <= c.ports
    ensures Cleaned(c, s, Done(c, s, locks, n), locks, n)
  {
    if n > 0 {
      DoneCleans(c, s, locks, n - 1);
      var t, u, p := Done(c, s, locks, n - 1), Done(c, s, locks, n), n - 1;
      forall id | id in s.devs
        ensures u.devs[id].port == s.devs[id].port
        ensures u.devs[id].handle.Some? <==> s.devs[id].handle.Some? && !Unhooked(c, s, locks, n, id)
      {
        assert Some(id) in s.slots[p] ==> s.devs[id].port == p;
      }
    }
  }

  /** Clean-up strands, on every port it could lock, exactly the live handles that were not registered. */
  lemma DoneLaw(c: Config, s: State, locks: seq<bool>, p: nat, id: nat)
    requires Inv(c, s) && |locks| == c.ports && p < c.ports && locks[p]
    ensures var t := Done(c, s, locks, c.ports);
      !t.ports[p].installed && (Live(t, id, p) <==> Live(s, id, p) && !Registered(s, id))
  {
    DoneCleans(c, s, locks, c.ports);
    if id in s.devs && s.devs[id].port == p { assert HandleOk(s, id); }
  }
}
