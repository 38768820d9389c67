/** The retry loop told from its attempts: what each finds, whether it succeeds, how it fails, how long it pauses. */
module I2cAttempts {
  import opened I2cSpec
  import opened I2cInvariant
  import opened I2cSetup

  /** What an attempt finds: a bus on the device's port, a handle of the device's. */
  datatype Stand = Stand(bus: bool, handle: bool)

  function StandOf(c: Config, s: State, id: nat): Stand
    requires Shaped(c, s) && id in s.devs
  {
    Stand(s.devs[id].port < c.ports && s.ports[s.devs[id].port].installed, s.devs[id].handle.Some?)
  }

  /** The port is set up: its lock is had, it suits, and there is a bus or one can be made. */
  predicate GetsPort(fit: bool, st: Stand, a: Attempt) {
    a.lock && fit && (st.bus || a.newBus == Ok)
  }

  /** The device has a handle, or gets one: the lock is had once more, and the driver adds it. */
  predicate GetsHandle(st: Stand, a: Attempt) {
    st.handle || (a.relock && a.add == Ok && !a.bare)
  }

  predicate Succeeds(fit: bool, st: Stand, a: Attempt) {
    GetsPort(fit, st, a) && GetsHandle(st, a) && a.op == Ok
  }

  /** What the next attempt finds: a bus stays, a handle stays unless the transfer failed with one of two errors. */
  function After(fit: bool, st: Stand, a: Attempt): Stand {
    Stand(st.bus || GetsPort(fit, st, a),
          if !GetsPort(fit, st, a) then st.handle
          else GetsHandle(st, a) && a.op != InvalidArg && a.op != InvalidState)
  }

  /** The error of an attempt that does not succeed. */
  function ErrorOf(c: Config, port: nat, fit: bool, st: Stand, a: Attempt): Esp {
    if port >= c.ports then InvalidArg
    else if !a.lock then Timeout
    else if !fit then if st.bus then InvalidState else InvalidArg
    else if !st.bus && a.newBus != Ok then a.newBus
    else if st.handle then a.op
    else if !a.relock then Timeout
    else if a.add != Ok then a.add
    else if a.bare then InvalidState
    else a.op
  }

  /** The pause after an attempt, in milliseconds: twenty, doubled for every retry, and once more after a transfer
      that failed; none after success, or when a failed transfer was the last. */
  function PauseOf(c: Config, fit: bool, st: Stand, a: Attempt, k: nat): seq<nat> {
    if !GetsPort(fit, st, a) || !GetsHandle(st, a) then [20 * Pow2(k)]
    else if a.op == Ok || k >= c.retries then []
    else [20 * Pow2(k + 1)]
  }

  lemma FitKept(c: Config, s: State, id: nat, a: Attempt, retry: nat)
    requires Shaped(c, s) && id in s.devs
    ensures var t := TryOnce(c, s, id, a, retry).s;
      && Shaped(c, t) && id in t.devs && t.devs[id].port == s.devs[id].port
      && (Fit(c, t, id) <==> Fit(c, s, id))
  {
    TryOnceShape(c, s, id, a, retry);
    TryInstalls(c, s, id, a, retry);
    SetupLaw(c, s, id, a.lock, a.newBus);
    TryKeeps(c, s, id, a, retry);
  }

  /** One attempt, on a port that has a bus exactly when it says so. */
  lemma TryLaw(c: Config, s: State, id: nat, a: Attempt, retry: nat)
    requires Inv(c, s) && id in s.devs
    ensures var t, st, fit := TryOnce(c, s, id, a, retry), StandOf(c, s, id), Fit(c, s, id);
      && Shaped(c, t.s) && id in t.s.devs
      && t.res == (if Succeeds(fit, st, a) then Ok else ErrorOf(c, s.devs[id].port, fit, st, a))
      && t.pauses == PauseOf(c, fit, st, a, retry)
      && StandOf(c, t.s, id) == After(fit, st, a)
  {
    TryOnceShape(c, s, id, a, retry);
    SetupLaw(c, s, id, a.lock, a.newBus);
    assert s.devs[id].port < c.ports ==> PortOk(s, s.devs[id].port);
  }

  // ----- The loop -----

  /** What attempt `k` finds, from what the first one finds. */
  function Finds(fit: bool, st: Stand, attempts: seq<Attempt>, k: nat): Stand
    requires k <= |attempts|
  {
    if k == 0 then st else After(fit, Finds(fit, st, attempts, k - 1), attempts[k - 1])
  }

  /** What became of an attempt: its error, Ok if it succeeded, and its pause. */
  datatype Verdict = Verdict(res: Esp, pause: seq<nat>)

  /** What attempt `k` must come to. */
  function VerdictOf(c: Config, port: nat, fit: bool, st: Stand, attempts: seq<Attempt>, k: nat): Verdict
    requires k < |attempts|
  {
    var now, a := Finds(fit, st, attempts, k), attempts[k];
    Verdict(if Succeeds(fit, now, a) then Ok else ErrorOf(c, port, fit, now, a), PauseOf(c, fit, now, a, k))
  }

  function Verdicts(c: Config, port: nat, fit: bool, st: Stand, attempts: seq<Attempt>): (vs: seq<Verdict>)
    ensures |vs| == |attempts| && forall k :: 0 <= k < |vs| ==> vs[k] == VerdictOf(c, port, fit, st, attempts, k)
  {
    seq(|attempts|, k requires 0 <= k < |attempts| => VerdictOf(c, port, fit, st, attempts, k))
  }

  function Pauses(vs: seq<Verdict>): seq<nat> {
    if vs == [] then [] else vs[0].pause + Pauses(vs[1..])
  }

  /** The attempts up to the first that succeeds, or all of them, were made, the last one's result is the result, and
      the pauses are theirs. */
  ghost predicate Told(vs: seq<Verdict>, used: nat, res: Esp, pauses: seq<nat>) {
    && 0 < used <= |vs| && (forall k :: 0 <= k < used - 1 ==> vs[k].res != Ok)
    && res == vs[used - 1].res && (res == Ok || used == |vs|)
    && pauses == Pauses(vs[..used])
  }

  lemma ToldOnce(vs: seq<Verdict>)
    requires vs != [] && (vs[0].res == Ok || |vs| == 1)
    ensures Told(vs, 1, vs[0].res, vs[0].pause)
  {
    assert vs[..1][1..] == [];
    assert Pauses(vs[..1]) == vs[0].pause + [];
  }

  lemma ToldMore(vs: seq<Verdict>, used: nat, res: Esp, pauses: seq<nat>)
    requires vs != [] && vs[0].res != Ok && Told(vs[1..], used, res, pauses)
    ensures Told(vs, used + 1, res, vs[0].pause + pauses)
  {
    assert vs[..used + 1][1..] == vs[1..][..used];
    forall k | 0 <= k < used ensures vs[k].res != Ok {
      if k > 0 { assert vs[k] == vs[1..][k - 1]; }
    }
  }

  // All about one attempt.
  lemma TryAll(c: Config, s: State, id: nat, fit: bool, now: Stand, a: Attempt, k: nat)
    requires Inv(c, s) && id in s.devs && fit == Fit(c, s, id) && StandOf(c, s, id) == now
    ensures var t, port := TryOnce(c, s, id, a, k), s.devs[id].port;
      && t.res == (if Succeeds(fit, now, a) then Ok else ErrorOf(c, port, fit, now, a))
      && t.pauses == PauseOf(c, fit, now, a, k)
      && Inv(c, t.s) && id in t.s.devs && t.s.devs[id].port == port
      && fit == Fit(c, t.s, id) && StandOf(c, t.s, id) == After(fit, now, a)
  {
    TryLaw(c, s, id, a, k);
    FitKept(c, s, id, a, k);
    TryOnceInv(c, s, id, a, k);
  }

  lemma OperateNext(c: Config, s: State, id: nat, attempts: seq<Attempt>, k: nat)
    requires Shaped(c, s) && id in s.devs && k <= c.retries && |attempts| == c.retries + 1
    ensures var t := TryOnce(c, s, id, attempts[k], k);
      && Shaped(c, t.s) && id in t.s.devs
      && Operate(c, s, id, attempts, k) ==
           if t.res == Ok || k == c.retries then Outcome(t.s, t.res, t.pauses, 1)
           else
             var o := Operate(c, t.s, id, attempts, k + 1);
             Outcome(o.s, o.res, t.pauses + o.pauses, o.used + 1)
  {
    TryOnceShape(c, s, id, attempts[k], k);
  }

  /** The loop is at attempt `k`, and the tables are as the attempts before left them. */
  ghost predicate AtAttempt(c: Config, s: State, id: nat, port: nat, fit: bool, st: Stand, attempts: seq<Attempt>,
      k: nat) {
    && Inv(c, s) && id in s.devs && |attempts| == c.retries + 1 && k <= |attempts|
    && port == s.devs[id].port && fit == Fit(c, s, id) && StandOf(c, s, id) == Finds(fit, st, attempts, k)
  }

  lemma AtNext(c: Config, s: State, id: nat, port: nat, fit: bool, st: Stand, attempts: seq<Attempt>, k: nat)
    requires AtAttempt(c, s, id, port, fit, st, attempts, k) && k <= c.retries
    ensures var t := TryOnce(c, s, id, attempts[k], k);
      && AtAttempt(c, t.s, id, port, fit, st, attempts, k + 1)
      && Verdict(t.res, t.pauses) == VerdictOf(c, port, fit, st, attempts, k)
  {
    TryAll(c, s, id, fit, Finds(fit, st, attempts, k), attempts[k], k);
  }

  lemma {:induction false} LoopTold(c: Config, s: State, id: nat, port: nat, fit: bool, st: Stand,
                                    attempts: seq<Attempt>, k: nat, vs: seq<Verdict>)
    requires AtAttempt(c, s, id, port, fit, st, attempts, k) && k <= c.retries && |vs| == |attempts| - k
    requires forall i :: 0 <= i < |vs| ==> vs[i] == VerdictOf(c, port, fit, st, attempts, k + i)
    ensures var o := Operate(c, s, id, attempts, k); Told(vs, o.used, o.res, o.pauses)
    decreases c.retries - k
  {
    var t := TryOnce(c, s, id, attempts[k], k);
    OperateNext(c, s, id, attempts, k);
    AtNext(c, s, id, port, fit, st, attempts, k);
    assert vs[0] == VerdictOf(c, port, fit, st, attempts, k + 0);
    if t.res == Ok || k == c.retries {
      ToldOnce(vs);
    } else {
      var o := Operate(c, t.s, id, attempts, k + 1);
      LoopTold(c, t.s, id, port, fit, st, attempts, k + 1, vs[1..]);
      ToldMore(vs, o.used, o.res, o.pauses);
    }
  }

  // How the loop leaves port and device, `used` attempts after the first `k`.
  ghost predicate Left(c: Config, o: Outcome, id: nat, fit: bool, st: Stand, attempts: seq<Attempt>, k: nat) {
    && Shaped(c, o.s) && id in o.s.devs && k + o.used <= |attempts|
    && StandOf(c, o.s, id) == Finds(fit, st, attempts, k + o.used)
  }

  lemma LeftMore(c: Config, o: Outcome, more: Outcome, id: nat, fit: bool, st: Stand, attempts: seq<Attempt>, k: nat)
    requires Left(c, o, id, fit, st, attempts, k + 1) && more.s == o.s && more.used == o.used + 1
    ensures Left(c, more, id, fit, st, attempts, k)
  {
  }

  lemma {:induction false} LoopStand(c: Config, s: State, id: nat, port: nat, fit: bool, st: Stand,
                                     attempts: seq<Attempt>, k: nat)
    requires AtAttempt(c, s, id, port, fit, st, attempts, k) && k <= c.retries
    ensures Left(c, Operate(c, s, id, attempts, k), id, fit, st, attempts, k)
    decreases c.retries - k
  {
    var t, o := TryOnce(c, s, id, attempts[k], k), Operate(c, s, id, attempts, k);
    OperateNext(c, s, id, attempts, k);
    AtNext(c, s, id, port, fit, st, attempts, k);
    if t.res != Ok && k < c.retries {
      LoopStand(c, t.s, id, port, fit, st, attempts, k + 1);
      LeftMore(c, Operate(c, t.s, id, attempts, k + 1), o, id, fit, st, attempts, k);
    }
  }

  /** An operation makes one attempt after the other, up to the first that succeeds, or all there are; its result is
      the last one's, and its pauses are those of the attempts. */
  lemma AttemptLaw(c: Config, s: State, id: nat, attempts: seq<Attempt>, vs: seq<Verdict>)
    requires Inv(c, s) && id in s.devs && |attempts| == c.retries + 1
    requires vs == Verdicts(c, s.devs[id].port, Fit(c, s, id), StandOf(c, s, id), attempts)
    ensures var o := Operate(c, s, id, attempts, 0); Told(vs, o.used, o.res, o.pauses)
  {
    LoopTold(c, s, id, s.devs[id].port, Fit(c, s, id), StandOf(c, s, id), attempts, 0, vs);
  }

  /** Port and device stand as the attempts made left them. */
  lemma StandLaw(c: Config, s: State, id: nat, attempts: seq<Attempt>)
    requires Inv(c, s) && id in s.devs && |attempts| == c.retries + 1
    ensures var o := Operate(c, s, id, attempts, 0);
      && Shaped(c, o.s) && id in o.s.devs && o.used <= |attempts|
      && StandOf(c, o.s, id) == Finds(Fit(c, s, id), StandOf(c, s, id), attempts, o.used)
  {
    LoopStand(c, s, id, s.devs[id].port, Fit(c, s, id), StandOf(c, s, id), attempts, 0);
  }

  /** The operation is OK if and only if in the last attempt made both locks were had, the port was or could be set
      up on the pins asked for, the device had or got a handle, and the transfer succeeded; no attempt before did.
      Otherwise all attempts were made, and the error is the last one's. */
  lemma OkLaw(c: Config, s: State, id: nat, attempts: seq<Attempt>)
    requires Inv(c, s) && id in s.devs && |attempts| == c.retries + 1
    ensures var o, port, fit, st := Operate(c, s, id, attempts, 0), s.devs[id].port, Fit(c, s, id), StandOf(c, s, id);
      && 0 < o.used <= |attempts|
      && (forall k :: 0 <= k < o.used - 1 ==> !Succeeds(fit, Finds(fit, st, attempts, k), attempts[k]))
      && (o.res == Ok <==> Succeeds(fit, Finds(fit, st, attempts, o.used - 1), attempts[o.used - 1]))
      && (o.res != Ok ==>
            && o.used == |attempts|
            && o.res == ErrorOf(c, port, fit, Finds(fit, st, attempts, o.used - 1), attempts[o.used - 1]))
  {
    var port, fit, st := s.devs[id].port, Fit(c, s, id), StandOf(c, s, id);
    AttemptLaw(c, s, id, attempts, Verdicts(c, port, fit, st, attempts));
    TellOk(c, port, fit, st, attempts, Operate(c, s, id, attempts, 0));
  }

  lemma TellOk(c: Config, port: nat, fit: bool, st: Stand, attempts: seq<Attempt>, o: Outcome)
    requires (fit ==> port < c.ports) && Told(Verdicts(c, port, fit, st, attempts), o.used, o.res, o.pauses)
    ensures 0 < o.used <= |attempts|
    ensures forall k :: 0 <= k < o.used - 1 ==> !Succeeds(fit, Finds(fit, st, attempts, k), attempts[k])
    ensures o.res == Ok <==> Succeeds(fit, Finds(fit, st, attempts, o.used - 1), attempts[o.used - 1])
    ensures o.res != Ok ==>
      && o.used == |attempts|
      && o.res == ErrorOf(c, port, fit, Finds(fit, st, attempts, o.used - 1), attempts[o.used - 1])
  {
    var vs := Verdicts(c, port, fit, st, attempts);
    forall k | 0 <= k < o.used - 1 ensures !Succeeds(fit, Finds(fit, st, attempts, k), attempts[k]) {
      assert vs[k] == VerdictOf(c, port, fit, st, attempts, k);
    }
  }
}
