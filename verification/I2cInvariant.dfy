/** What every reachable state of the manager keeps, and what a call could break. */
module I2cInvariant {
  import opened Options
  import opened I2cSpec

  /** Devices on a port that were added and not deleted since. */
  function On(s: State, p: nat): set<nat> {
    set id | id in s.added && id in s.devs && s.devs[id].port == p
  }

  /** A port is installed exactly while it has a bus, with real pins. */
  predicate PortOk(s: State, p: nat)
    requires p < |s.ports|
  {
    var q := s.ports[p];
    (q.installed <==> q.bus.Some?) && (q.bus.Some? ==> q.sda >= 0 && q.scl >= 0 && q.bus.value < s.nextBus)
  }

  /** The reference count is that of the devices added and not deleted, and of the spare ones; without a bus there
      is none. */
  predicate Counted(s: State, p: nat)
    requires p < |s.ports| == |s.spare|
  {
    s.ports[p].refs == |On(s, p)| + s.spare[p] && (!s.ports[p].installed ==> s.ports[p].refs == 0)
  }

  /** A live handle belongs to the bus its port has now, whose pins the descriptor records. */
  predicate HandleOk(s: State, id: nat)
    requires id in s.devs
  {
    var d := s.devs[id];
    d.handle.Some? ==>
      && id in s.added && d.port < |s.ports|
      && var q := s.ports[d.port];
      q.installed && q.bus == d.handle && d.sda == q.sda && d.scl == q.scl
  }

  /** A slot holds a device of its port whose mutex exists, and no other slot holds it. */
  predicate SlotsOk(s: State) {
    && (forall p, i :: 0 <= p < |s.slots| && 0 <= i < |s.slots[p]| && s.slots[p][i].Some? ==>
          var id := s.slots[p][i].value; id in s.devs && s.devs[id].mutex && s.devs[id].port == p)
    && (forall p, i, j :: 0 <= p < |s.slots| && 0 <= i < j < |s.slots[p]| && s.slots[p][i].Some? ==>
          s.slots[p][i] != s.slots[p][j])
  }

  predicate Inv(c: Config, s: State) {
    && Shaped(c, s)
    && (forall p :: 0 <= p < c.ports ==> PortOk(s, p) && Counted(s, p))
    && (forall id :: id in s.devs ==> HandleOk(s, id))
    && s.added <= s.devs.Keys
    && SlotsOk(s)
  }

  // ----- Steps that change one port and one descriptor at most -----

  /** Ports but that of `id`, descriptors but `id`, are as before, and so is every port number. */
  predicate Local(c: Config, s: State, t: State, id: nat) {
    && Shaped(c, s) && Shaped(c, t) && id in s.devs && t.devs.Keys == s.devs.Keys
    && (forall k :: k in s.devs ==> t.devs[k].port == s.devs[k].port && (k != id ==> t.devs[k] == s.devs[k]))
    && (forall p :: 0 <= p < c.ports && p != s.devs[id].port ==> t.ports[p] == s.ports[p] && t.spare[p] == s.spare[p])
    && s.added - {id} == t.added - {id}
    && s.nextBus <= t.nextBus
  }

  lemma LocalOn(c: Config, s: State, t: State, id: nat, p: nat)
    requires Local(c, s, t, id)
    ensures On(t, p) - {id} == On(s, p) - {id}
    ensures p != s.devs[id].port ==> On(t, p) == On(s, p)
  {
    forall k ensures k in On(t, p) - {id} <==> k in On(s, p) - {id} {
      assert k in t.added - {id} <==> k in s.added - {id};
    }
    if p != s.devs[id].port {
      assert id !in On(t, p) && id !in On(s, p);
      assert On(t, p) == On(t, p) - {id} && On(s, p) == On(s, p) - {id};
    }
  }

  /** It is enough to look at the one port and the one descriptor, if the bus stays or the others had no handle on it.
        */
  lemma LocalInv(c: Config, s: State, t: State, id: nat)
    requires Inv(c, s) && Local(c, s, t, id) && SlotsOk(t)
    requires t.added <= t.devs.Keys
    requires var p := s.devs[id].port; p < c.ports ==> PortOk(t, p) && Counted(t, p)
    requires HandleOk(t, id)
    requires var p := s.devs[id].port; p < c.ports ==>
      (t.ports[p].installed == s.ports[p].installed && t.ports[p].bus == s.ports[p].bus
        && t.ports[p].sda == s.ports[p].sda && t.ports[p].scl == s.ports[p].scl)
      || On(s, p) <= {id}
    ensures Inv(c, t)
  {
    forall q | 0 <= q < c.ports ensures PortOk(t, q) && Counted(t, q) {
      assert PortOk(s, q) && Counted(s, q);
      LocalOn(c, s, t, id, q);
    }
    forall k | k in t.devs ensures HandleOk(t, k) {
      assert HandleOk(s, k);
      if k != id && s.devs[k].handle.Some? {
        assert k in t.added by { assert k in s.added - {id}; }
        assert s.devs[k].port == s.devs[id].port ==> k in On(s, s.devs[id].port);
      }
    }
  }

  lemma SetupPortInv(c: Config, s: State, id: nat, lock: bool, newBus: Esp)
    requires Inv(c, s) && id in s.devs
    ensures var (t, res) := SetupPort(c, s, id, lock, newBus);
      Inv(c, t) && Local(c, s, t, id) && t.added == s.added && t.slots == s.slots
      && (res == Ok ==> var d := t.devs[id];
          d.port < c.ports && t.ports[d.port].installed && d.sda == t.ports[d.port].sda && d.scl == t.ports[d.port].scl)
  {
    var (t, res) := SetupPort(c, s, id, lock, newBus);
    var p := s.devs[id].port;
    if p < c.ports {
      assert PortOk(s, p) && Counted(s, p);
      assert HandleOk(s, id);
      assert Local(c, s, t, id);
      LocalOn(c, s, t, id, p);
      assert On(t, p) == On(s, p);
      LocalInv(c, s, t, id);
    }
  }

  lemma OneMore(c: Config, s: State, t: State, id: nat, p: nat)
    requires p < |s.ports| && p < |t.ports| && id in t.devs && t.devs[id].port == p
    requires Local(c, s, t, id) && t.added == s.added + {id}
    ensures |On(t, p)| == |On(s, p)| + if id in s.added then 0 else 1
  {
    LocalOn(c, s, t, id, p);
    assert On(t, p) == On(s, p) + {id};
    assert id in On(s, p) <==> id in s.added;
    if id in s.added { assert On(t, p) == On(s, p); }
  }

  lemma AddDeviceInv(c: Config, s: State, id: nat, a: Attempt)
    requires Inv(c, s) && id in s.devs && s.devs[id].port < c.ports
    requires var d := s.devs[id]; d.sda == s.ports[d.port].sda && d.scl == s.ports[d.port].scl
    ensures var (t, res) := AddDevice(c, s, id, a); Inv(c, t) && Local(c, s, t, id) && t.slots == s.slots
  {
    var t, p := AddDevice(c, s, id, a).0, s.devs[id].port;
    assert PortOk(s, p) && Counted(s, p) && HandleOk(s, id);
    assert Local(c, s, t, id);
    if t != s {
      OneMore(c, s, t, id, p);
      assert PortOk(t, p) && Counted(t, p) && HandleOk(t, id);
      LocalInv(c, s, t, id);
    }
  }

  lemma SetupDeviceInv(c: Config, s: State, id: nat, a: Attempt)
    requires Inv(c, s) && id in s.devs
    ensures var (t, res) := SetupDevice(c, s, id, a); Inv(c, t) && Local(c, s, t, id) && t.slots == s.slots
  {
    SetupPortInv(c, s, id, a.lock, a.newBus);
    var (t, res) := SetupPort(c, s, id, a.lock, a.newBus);
    if res == Ok {
      AddDeviceInv(c, t, id, a);
    }
  }

  lemma DropHandleInv(c: Config, s: State, id: nat)
    requires Inv(c, s) && id in s.devs
    ensures Inv(c, DropHandle(s, id)) && Local(c, s, DropHandle(s, id), id)
  {
    var t := DropHandle(s, id);
    var p := s.devs[id].port;
    LocalOn(c, s, t, id, p);
    assert On(t, p) == On(s, p);
    assert p < c.ports ==> PortOk(s, p) && Counted(s, p);
    LocalInv(c, s, t, id);
  }

  lemma TryOnceInv(c: Config, s: State, id: nat, a: Attempt, retry: nat)
    requires Inv(c, s) && id in s.devs
    ensures var t := TryOnce(c, s, id, a, retry); Inv(c, t.s) && Local(c, s, t.s, id)
  {
    SetupDeviceInv(c, s, id, a);
    var (t, res) := SetupDevice(c, s, id, a);
    DropHandleInv(c, t, id);
  }

  lemma {:induction false} OperateInv(c: Config, s: State, id: nat, attempts: seq<Attempt>, retry: nat)
    requires Inv(c, s) && id in s.devs && retry <= c.retries && |attempts| == c.retries + 1
    ensures var o := Operate(c, s, id, attempts, retry); Inv(c, o.s) && Local(c, s, o.s, id)
    decreases c.retries - retry
  {
    TryOnceInv(c, s, id, attempts[retry], retry);
    var t := TryOnce(c, s, id, attempts[retry], retry);
    if t.res != Ok && retry < c.retries {
      OperateInv(c, t.s, id, attempts, retry + 1);
    }
  }

  lemma CreateMutexInv(c: Config, s: State, id: nat, memory: bool, lock: bool)
    requires Inv(c, s)
    ensures Inv(c, CreateMutex(c, s, id, memory, lock).0)
  {
    var (t, res) := CreateMutex(c, s, id, memory, lock);
    if id in s.devs && t != s {
      var p := s.devs[id].port;
      assert forall q, i :: 0 <= q < |s.slots| && 0 <= i < |s.slots[q]| && s.slots[q][i].Some? ==>
        s.slots[q][i].value != id;
      LocalOn(c, s, t, id, p);
      assert On(t, p) == On(s, p);
      assert p < c.ports ==> PortOk(s, p) && Counted(s, p);
      assert HandleOk(s, id);
      LocalInv(c, s, t, id);
    }
  }

  // ----- Deletion: the one call that needs the client's cooperation -----

  lemma DeletedSlots(c: Config, s: State, id: nat, lock: bool)
    requires Inv(c, s)
    ensures SlotsOk(DeleteMutex(c, s, id, lock).0)
  {
    var (t, res) := DeleteMutex(c, s, id, lock);
    if id in s.devs && s.devs[id].port < c.ports {
      var p := s.devs[id].port;
      var i := FirstSlot(s.slots[p], Some(id));
      forall k | 0 <= k < |t.slots[p]| ensures t.slots[p][k] != Some(id) {
        if i < k && k < |s.slots[p]| { assert s.slots[p][i] != s.slots[p][k]; }
      }
    }
  }

  lemma DeleteIsLocal(c: Config, s: State, id: nat, lock: bool)
    requires Inv(c, s) && id in s.added
    ensures var t, p := DeleteMutex(c, s, id, lock).0, s.devs[id].port;
      && Local(c, s, t, id) && t.added <= t.devs.Keys && HandleOk(t, id) && t.nextBus == s.nextBus
      && (p < c.ports ==>
            && t.ports[p] == (if lock then Release(s.ports[p]) else s.ports[p])
            && t.spare[p] == if lock then s.spare[p] else s.spare[p] + 1)
  {
  }

  /** Deleting a device that was added keeps everything: the bus goes only with the last device on it. */
  lemma DeleteMutexInv(c: Config, s: State, id: nat, lock: bool)
    requires Inv(c, s) && id in s.added
    ensures Inv(c, DeleteMutex(c, s, id, lock).0)
  {
    var t, p := DeleteMutex(c, s, id, lock).0, s.devs[id].port;
    DeletedSlots(c, s, id, lock);
    DeleteIsLocal(c, s, id, lock);
    LocalOn(c, s, t, id, p);
    assert On(t, p) == On(s, p) - {id} by { assert id !in t.added; }
    if p < c.ports {
      assert PortOk(s, p) && Counted(s, p);
    }
    LocalInv(c, s, t, id);
  }
}
