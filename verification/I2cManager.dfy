/** The manager's calls as the program makes them: tables updated in place under the port mutexes. */
module I2cManager {
  import opened Options
  import opened I2cSpec

  // What the tries from number `retry` on will add to the pauses so far.
  ghost predicate Continues(c: Config, whole: Outcome, s: State, id: nat, attempts: seq<Attempt>, retry: nat,
      pauses: seq<nat>)
    requires Shaped(c, s) && id in s.devs && retry <= c.retries && |attempts| == c.retries + 1
  {
    var o := Operate(c, s, id, attempts, retry);
    o.s == whole.s && o.res == whole.res && pauses + o.pauses == whole.pauses
  }

  lemma TurnContinues(c: Config, whole: Outcome, s: State, id: nat, attempts: seq<Attempt>, retry: nat,
      pauses: seq<nat>)
    requires Shaped(c, s) && id in s.devs && retry <= c.retries && |attempts| == c.retries + 1
    requires Continues(c, whole, s, id, attempts, retry, pauses)
    ensures var t := TryOnce(c, s, id, attempts[retry], retry);
      && Shaped(c, t.s) && id in t.s.devs
      && if t.res == Ok || retry == c.retries then whole.s == t.s && whole.res == t.res
        && whole.pauses == pauses + t.pauses
         else Continues(c, whole, t.s, id, attempts, retry + 1, pauses + t.pauses)
  {
    var t := TryOnce(c, s, id, attempts[retry], retry);
    TryOnceShape(c, s, id, attempts[retry], retry);
    if t.res != Ok && retry < c.retries {
      var rest := Operate(c, t.s, id, attempts, retry + 1).pauses;
      assert pauses + t.pauses + rest == pauses + (t.pauses + rest);
    }
  }

  class Manager {
    const config: Config
    var ports: seq<Port>
    var devs: map<nat, Dev>
    var slots: seq<seq<Option<nat>>>
    // The driver's name for the next bus it creates.
    var nextBus: nat
    ghost var added: set<nat>
    ghost var spare: seq<nat>
    // Port mutexes taken by the call in progress.
    var held: seq<bool>

    ghost function Tables(): State
      reads this
    {
      State(ports, devs, slots, nextBus, added, spare)
    }

    /** Between calls no port mutex is held. */
    ghost predicate Valid()
      reads this
    {
      Shaped(config, Tables()) && held == seq(config.ports, _ => false)
    }

    constructor (c: Config)
      ensures Valid() && config == c && Tables() == Init(c)
    {
      config := c;
      ports := seq(c.ports, _ => NO_PORT);
      devs := map[];
      slots := seq(c.ports, _ => seq(c.slots, _ => None));
      nextBus, added, spare := 0, {}, seq(c.ports, _ => 0);
      held := seq(c.ports, _ => false);
    }

    method Take(port: nat, available: bool)
      requires port < |held| && !held[port]
      modifies `held
      ensures held == if available then old(held)[port := true] else old(held)
    {
      if available {
        held := held[port := true];
      }
    }

    method Give(port: nat)
      requires port < |held| && held[port]
      modifies `held
      ensures held == old(held)[port := false]
    {
      held := held[port := false];
    }

    /** Puts a device into the first free slot of its port. */
    method RegisterDevice(id: nat) returns (res: Esp)
      requires Shaped(config, Tables()) && id in devs && devs[id].port < config.ports
      modifies `slots
      ensures var p := devs[id].port; slots == old(slots)[p := Replace(old(slots[p]), None, Some(id))]
      ensures res == if None in old(slots[devs[id].port]) then Ok else NoMem
    {
      var port := devs[id].port;
      for i := 0 to config.slots
        invariant slots == old(slots) && forall k :: 0 <= k < i ==> slots[port][k] != None
      {
        if slots[port][i] == None {
          slots := slots[port := slots[port][i := Some(id)]];
          return Ok;
        }
      }
      assert slots == slots[port := slots[port]];
      return NoMem;
    }

    method DeregisterDevice(id: nat)
      requires Shaped(config, Tables()) && id in devs
      modifies `slots
      ensures var p := devs[id].port;
        slots == if p < config.ports then old(slots)[p := Replace(old(slots[p]), Some(id), None)] else old(slots)
    {
      var port := devs[id].port;
      if port >= config.ports { return; }
      for i := 0 to config.slots
        invariant slots == old(slots) && forall k :: 0 <= k < i ==> slots[port][k] != Some(id)
      {
        if slots[port][i] == Some(id) {
          slots := slots[port := slots[port][i := None]];
          return;
        }
      }
      assert slots == slots[port := slots[port]];
    }

    method CreateMutex(id: nat, memory: bool, lock: bool) returns (res: Esp)
      requires Valid()
      modifies this
      ensures Valid() && (Tables(), res) == I2cSpec.CreateMutex(config, old(Tables()), id, memory, lock)
    {
      if id !in devs { return InvalidArg; }
      if devs[id].mutex { return Ok; }
      if !memory { return NoMem; }
      devs := devs[id := devs[id].(mutex := true)];
      var port := devs[id].port;
      if port < config.ports {
        Take(port, lock);
        if lock {
          var registered := RegisterDevice(id);
          Give(port);
        }
      }
      return Ok;
    }

    /** One reference to the port fewer, and no bus without references. */
    method DropReference(port: nat, lock: bool)
      requires port < |ports| && port < |held| && !held[port]
      modifies `ports, `held
      ensures ports == if lock then old(ports)[port := Release(old(ports[port]))] else old(ports)
      ensures held == old(held)
    {
      Take(port, lock);
      if !lock { return; }
      var p := ports[port];
      if p.installed && p.refs > 0 {
        p := p.(refs := p.refs - 1);
        if p.refs == 0 {
          p := p.(bus := None, installed := false, sda := -1, scl := -1);
        }
      }
      ports := ports[port := p];
      Give(port);
    }

    method DeleteMutex(id: nat, lock: bool) returns (res: Esp)
      requires Valid()
      modifies this
      ensures Valid() && (Tables(), res) == I2cSpec.DeleteMutex(config, old(Tables()), id, lock)
    {
      if id !in devs { return InvalidArg; }
      if devs[id].handle.Some? {
        devs := devs[id := devs[id].(handle := None)];
      }
      DeregisterDevice(id);
      if devs[id].port < config.ports {
        spare := Spared(old(Tables()), id, lock);
        DropReference(devs[id].port, lock);
      }
      devs, added := devs[id := devs[id].(mutex := false)], added - {id};
      assert devs == old(devs)[id := old(devs[id]).(handle := None, mutex := false)];
      return Ok;
    }

    method SetupPort(id: nat, lock: bool, newBus: Esp) returns (res: Esp)
      requires Valid() && id in devs
      modifies this
      ensures Valid() && (Tables(), res) == I2cSpec.SetupPort(config, old(Tables()), id, lock, newBus)
    {
      var d := devs[id];
      if d.port >= config.ports { return InvalidArg; }
      Take(d.port, lock);
      if !lock { return Timeout; }
      var p := ports[d.port];
      res := Ok;
      if !p.installed {
        var sda := if d.wantSda == -1 then config.sda else d.wantSda;
        var scl := if d.wantScl == -1 then config.scl else d.wantScl;
        if sda < 0 || scl < 0 {
          Give(d.port);
          return InvalidArg;
        }
        res := newBus;
        if res == Ok {
          ports := ports[d.port := Port(Some(nextBus), true, 0, sda, scl)];
          nextBus := nextBus + 1;
          devs := devs[id := d.(sda := sda, scl := scl)];
        } else {
          ports := ports[d.port := p.(bus := None, installed := false, sda := -1, scl := -1)];
        }
      } else {
        var sda := if d.wantSda == -1 then p.sda else d.wantSda;
        var scl := if d.wantScl == -1 then p.scl else d.wantScl;
        if sda != p.sda || scl != p.scl {
          res := InvalidState;
        } else {
          devs := devs[id := d.(sda := p.sda, scl := p.scl)];
        }
      }
      Give(d.port);
    }

    method AddDevice(id: nat, a: Attempt) returns (res: Esp)
      requires Valid() && id in devs && devs[id].port < config.ports
      modifies this
      ensures Valid() && (Tables(), res) == I2cSpec.AddDevice(config, old(Tables()), id, a)
    {
      var d := devs[id];
      if d.handle.Some? { return Ok; }
      Take(d.port, a.relock);
      if !a.relock { return Timeout; }
      var p := ports[d.port];
      if !p.installed || p.bus.None? {
        Give(d.port);
        return InvalidState;
      }
      res := a.add;
      if res == Ok {
        devs := devs[id := d.(handle := if a.bare then None else p.bus)];
        ports := ports[d.port := p.(refs := p.refs + 1)];
        spare := if id in added then spare[d.port := spare[d.port] + 1] else spare;
        added := added + {id};
      }
      Give(d.port);
    }

    method SetupDevice(id: nat, a: Attempt) returns (res: Esp)
      requires Valid() && id in devs
      modifies this
      ensures Valid() && (Tables(), res) == I2cSpec.SetupDevice(config, old(Tables()), id, a)
    {
      res := SetupPort(id, a.lock, a.newBus);
      if res == Ok {
        res := AddDevice(id, a);
      }
    }

    /** One turn of the retry loop. */
    method TryOnce(id: nat, a: Attempt, retry: nat) returns (res: Esp, pauses: seq<nat>)
      requires Valid() && id in devs
      modifies this
      ensures Valid() && Try(Tables(), res, pauses) == I2cSpec.TryOnce(config, old(Tables()), id, a, retry)
    {
      res := SetupDevice(id, a);
      pauses := [];
      if res != Ok {
        return res, [BASE_DELAY * Pow2(retry)];
      }
      if devs[id].handle.None? {
        return InvalidState, [BASE_DELAY * Pow2(retry)];
      }
      res := a.op;
      if res == Ok { return; }
      if (res == InvalidArg || res == InvalidState) && devs[id].handle.Some? {
        devs := devs[id := devs[id].(handle := None)];
      }
      if retry + 1 <= config.retries {
        pauses := [BASE_DELAY * Pow2(retry + 1)];
      }
    }

    method OperationWithRetry(id: nat, attempts: seq<Attempt>) returns (res: Esp, pauses: seq<nat>)
      requires Valid() && id in devs && |attempts| == config.retries + 1
      modifies this
      ensures Valid()
      ensures var o := Operate(config, old(Tables()), id, attempts, 0);
        Tables() == o.s && res == o.res && pauses == o.pauses
    {
      ghost var whole := Operate(config, Tables(), id, attempts, 0);
      res, pauses := Fail, [];
      var retry := 0;
      while retry <= config.retries
        invariant retry <= config.retries + 1 && Valid() && id in devs
        invariant if retry > config.retries then Tables() == whole.s && res == whole.res && pauses == whole.pauses
                  else Continues(config, whole, Tables(), id, attempts, retry, pauses)
      {
        var asked;
        ghost var before, start := pauses, Tables();
        res, asked := TryOnce(id, attempts[retry], retry);
        TurnContinues(config, whole, start, id, attempts, retry, before);
        pauses := pauses + asked;
        if res == Ok { return; }
        retry := retry + 1;
      }
    }

    /** A port whose mutex is not to be had keeps its bus and loses its registry. */
    method DonePort(p: nat, lock: bool)
      requires Valid() && p < config.ports
      modifies this
      ensures Valid() && Tables() == I2cSpec.DonePort(old(Tables()), p, lock)
    {
      Take(p, lock);
      if lock {
        if ports[p].installed {
          UnhookRegistered(p);
          ports := ports[p := ports[p].(bus := None, installed := false, refs := 0)];
          spare := spare[p := 0];
        }
        Give(p);
      }
      slots := slots[p := seq(|slots[p]|, _ => None)];
    }

    /** Cleans up port after port. */
    method DoneAll(locks: seq<bool>)
      requires Valid() && |locks| == config.ports
      modifies this
      ensures Valid() && Tables() == Done(config, old(Tables()), locks, config.ports)
    {
      for p := 0 to config.ports
        invariant Valid() && Tables() == Done(config, old(Tables()), locks, p)
      {
        DonePort(p, locks[p]);
      }
    }

    /** Removes the handles of all devices registered on a port. */
    method UnhookRegistered(p: nat)
      requires Shaped(config, Tables()) && p < config.ports
      modifies `devs
      ensures devs == map id | id in old(devs) ::
        if Some(id) in slots[p] then old(devs)[id].(handle := None) else old(devs)[id]
    {
      for j := 0 to config.slots
        invariant devs == map id | id in old(devs) ::
          if Some(id) in slots[p][..j] then old(devs)[id].(handle := None) else old(devs)[id]
      {
        var x := slots[p][j];
        assert slots[p][..j + 1] == slots[p][..j] + [x];
        if x.Some? && x.value in devs && devs[x.value].handle.Some? {
          devs := devs[x.value := devs[x.value].(handle := None)];
        }
      }
      assert slots[p][..config.slots] == slots[p];
    }
  }
}
