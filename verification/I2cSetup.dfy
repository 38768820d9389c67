/** What setting up a port, creating and deleting do, stated of the client's wishes and the tables. */
module I2cSetup {
  import opened Options
  import opened I2cSpec
  import opened I2cInvariant
  import opened I2cRuns

  // ----- Pins -----

  /** A pin asked for, or -1 for whatever there is. */
  predicate Suits(want: int, pin: int) {
    want == -1 || want == pin
  }

  /** The pins of the port are those asked for, where any were, and the build's or the port's otherwise. */
  lemma PinsAsked(c: Config, s: State, id: nat, lock: bool, newBus: Esp)
    requires Shaped(c, s) && id in s.devs
    ensures var (t, res) := SetupPort(c, s, id, lock, newBus);
      var d := s.devs[id];
      res == Ok ==>
        && d.port < c.ports && t.ports[d.port].installed
        && var q := t.ports[d.port];
           && Suits(d.wantSda, q.sda) && Suits(d.wantScl, q.scl)
           && (d.wantSda == -1 ==> q.sda == if s.ports[d.port].installed then s.ports[d.port].sda else c.sda)
           && (d.wantScl == -1 ==> q.scl == if s.ports[d.port].installed then s.ports[d.port].scl else c.scl)
           && t.devs == s.devs[id := d.(sda := q.sda, scl := q.scl)]
  {
  }

  /** The pins a device asks for when it installs a bus. */
  function Asked(c: Config, d: Dev): (int, int) {
    (if d.wantSda == -1 then c.sda else d.wantSda, if d.wantScl == -1 then c.scl else d.wantScl)
  }

  /** The port can be had: on the pins asked for if it has a bus, on real pins if not. */
  predicate Fit(c: Config, s: State, id: nat)
    requires Shaped(c, s) && id in s.devs
  {
    var d := s.devs[id];
    && d.port < c.ports
    && var q := s.ports[d.port];
       if q.installed then Suits(d.wantSda, q.sda) && Suits(d.wantScl, q.scl)
       else Asked(c, d).0 >= 0 && Asked(c, d).1 >= 0
  }

  /** When a set-up succeeds, and the error it ends with otherwise. */
  lemma SetupLaw(c: Config, s: State, id: nat, lock: bool, newBus: Esp)
    requires Shaped(c, s) && id in s.devs
    ensures var d, res := s.devs[id], SetupPort(c, s, id, lock, newBus).1;
      && (res == Ok <==> lock && Fit(c, s, id) && (s.ports[d.port].installed || newBus == Ok))
      && (d.port >= c.ports ==> res == InvalidArg)
      && (d.port < c.ports && !lock ==> res == Timeout)
      && (d.port < c.ports && lock && !Fit(c, s, id) ==>
            res == if s.ports[d.port].installed then InvalidState else InvalidArg)
      && (lock && Fit(c, s, id) && !s.ports[d.port].installed ==> res == newBus)
  {
  }

  /** A set-up that fails leaves every descriptor, the registry and all installed ports alone, and installs none. */
  lemma SetupFails(c: Config, s: State, id: nat, lock: bool, newBus: Esp)
    requires Shaped(c, s) && id in s.devs && SetupPort(c, s, id, lock, newBus).1 != Ok
    ensures var t := SetupPort(c, s, id, lock, newBus).0;
      && Shaped(c, t) && t == s.(ports := t.ports)
      && forall p :: 0 <= p < c.ports ==>
           if s.ports[p].installed then t.ports[p] == s.ports[p]
           else !t.ports[p].installed && t.ports[p].refs == s.ports[p].refs
  {
  }

  /** What succeeded once succeeds again, and changes nothing. */
  lemma SetupTwice(c: Config, s: State, id: nat, lock: bool, newBus: Esp, otherBus: Esp)
    requires Shaped(c, s) && id in s.devs && SetupPort(c, s, id, lock, newBus).1 == Ok
    ensures var t := SetupPort(c, s, id, lock, newBus).0;
      Shaped(c, t) && id in t.devs && SetupPort(c, t, id, true, otherBus) == (t, Ok)
  {
    var t := SetupPort(c, s, id, lock, newBus).0;
    PinsAsked(c, s, id, lock, newBus);
    assert t.devs[id := t.devs[id]] == t.devs;
  }

  // ----- Pins over runs -----

  /** Wishes and ports of descriptors stay. */
  predicate SameWishes(s: State, t: State) {
    s.devs.Keys == t.devs.Keys && forall k :: k in s.devs ==>
      t.devs[k].port == s.devs[k].port && t.devs[k].wantSda == s.devs[k].wantSda
        && t.devs[k].wantScl == s.devs[k].wantScl
  }

  /** A bus that has come is on the port of this device, and on the pins it asked for; others are as they were. */
  predicate Installed(c: Config, s: State, t: State, id: nat)
    requires Shaped(c, s) && Shaped(c, t) && id in s.devs
  {
    && SameWishes(s, t)
    && forall p :: 0 <= p < c.ports && t.ports[p].installed ==>
         if s.ports[p].installed then t.ports[p].sda == s.ports[p].sda && t.ports[p].scl == s.ports[p].scl
         else s.devs[id].port == p && (t.ports[p].sda, t.ports[p].scl) == Asked(c, s.devs[id])
  }

  /** Nothing but counts, handles and bookkeeping. */
  predicate SamePorts(c: Config, s: State, t: State) {
    && Shaped(c, s) && Shaped(c, t) && SameWishes(s, t)
    && forall p :: 0 <= p < c.ports ==> KeepsBus(s.ports[p], t.ports[p])
  }

  lemma AddKeeps(c: Config, s: State, id: nat, a: Attempt)
    requires Shaped(c, s) && id in s.devs && s.devs[id].port < c.ports
    ensures SamePorts(c, s, AddDevice(c, s, id, a).0)
  {
  }

  lemma TryKeeps(c: Config, s: State, id: nat, a: Attempt, retry: nat)
    requires Shaped(c, s) && id in s.devs
    ensures var u := SetupPort(c, s, id, a.lock, a.newBus).0;
      SamePorts(c, u, TryOnce(c, s, id, a, retry).s)
  {
    var (u, res) := SetupPort(c, s, id, a.lock, a.newBus);
    if res == Ok {
      PinsAsked(c, s, id, a.lock, a.newBus);
      AddKeeps(c, u, id, a);
    }
  }

  lemma TryInstalls(c: Config, s: State, id: nat, a: Attempt, retry: nat)
    requires Shaped(c, s) && id in s.devs
    ensures var t := TryOnce(c, s, id, a, retry).s; Shaped(c, t) && Installed(c, s, t, id)
  {
    TryKeeps(c, s, id, a, retry);
  }

  lemma {:induction false} OperateInstalls(c: Config, s: State, id: nat, attempts: seq<Attempt>, retry: nat)
    requires Shaped(c, s) && id in s.devs && retry <= c.retries && |attempts| == c.retries + 1
    ensures var t := Operate(c, s, id, attempts, retry).s; Shaped(c, t) && Installed(c, s, t, id)
    decreases c.retries - retry
  {
    var t := TryOnce(c, s, id, attempts[retry], retry);
    TryOnceShape(c, s, id, attempts[retry], retry);
    TryInstalls(c, s, id, attempts[retry], retry);
    if t.res != Ok && retry < c.retries {
      OperateInstalls(c, t.s, id, attempts, retry + 1);
      OperateKeepsBuses(c, t.s, id, attempts, retry + 1);
    }
  }

  /** The wishes of the device whose call installed the bus that a port has now. */
  function Founder(c: Config, calls: seq<Call>, p: nat): Option<(int, int)> {
    if calls == [] then None
    else
      var init, call := calls[..|calls| - 1], calls[|calls| - 1];
      match Run(c, init)
      case None => None
      case Some(s) =>
        if !Shaped(c, s) || !Allowed(c, s, call) || p >= c.ports then None
        else
          var t := Next(c, s, call);
          if p >= |t.ports| || !t.ports[p].installed then None
          else if s.ports[p].installed then Founder(c, init, p)
          else if call.CallOperate? || call.CallPresent? then Some(Asked(c, s.devs[call.id]))
          else None
  }

  lemma NextInstalls(c: Config, s: State, call: Call, p: nat)
    requires Inv(c, s) && Allowed(c, s, call) && p < c.ports
    ensures var t := Next(c, s, call);
      Shaped(c, t) && (t.ports[p].installed ==>
        if s.ports[p].installed then t.ports[p].sda == s.ports[p].sda && t.ports[p].scl == s.ports[p].scl
        else (call.CallOperate? || call.CallPresent?) && (t.ports[p].sda, t.ports[p].scl) == Asked(c, s.devs[call.id]))
  {
    NextInv(c, s, call);
    PinsFixed(c, s, call, p);
    match call
    case CallOperate(id, attempts) => OperateInstalls(c, s, id, attempts, 0);
    case CallPresent(id, lock, newBus) => PinsAsked(c, s, id, lock, newBus);
    case _ =>
  }

  /** In every run, a port with a bus has the pins that the device which installed it asked for. */
  lemma {:induction false} RunPins(c: Config, calls: seq<Call>, p: nat)
    requires Run(c, calls).Some? && p < c.ports
    ensures var s := Run(c, calls).value;
      Shaped(c, s) && (s.ports[p].installed ==> Founder(c, calls, p) == Some((s.ports[p].sda, s.ports[p].scl)))
  {
    if calls != [] {
      var init, call := calls[..|calls| - 1], calls[|calls| - 1];
      RunPins(c, init, p);
      RunInv(c, init);
      NextInstalls(c, Run(c, init).value, call, p);
    }
  }
}
