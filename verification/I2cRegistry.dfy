/** What creating and deleting a device's mutex do to descriptor, registry and port. */
module I2cRegistry {
  import opened Options
  import opened I2cSpec
  import opened I2cInvariant

  /** This slot was free and those before it were not. */
  predicate FirstFree(slots: seq<Option<nat>>, i: nat) {
    i < |slots| && slots[i] == None && forall k :: 0 <= k < i ==> slots[k] != None
  }

  /** Creation fails for want of memory only; it gives the descriptor its mutex, and the device the first free slot of
      its port if the lock is had and there is one. Nothing else changes, and nothing at all for a second time. */
  lemma CreateLaw(c: Config, s: State, id: nat, memory: bool, lock: bool)
    requires Inv(c, s) && id in s.devs
    ensures var (t, res) := CreateMutex(c, s, id, memory, lock);
      var d := s.devs[id];
      && (res == NoMem <==> !d.mutex && !memory) && (res == Ok || res == NoMem)
      && (d.mutex || res == NoMem ==> t == s)
      && (!d.mutex && res == Ok ==>
            && t == s.(devs := s.devs[id := d.(mutex := true)], slots := t.slots)
            && |t.slots| == |s.slots|
            && (forall p :: 0 <= p < |s.slots| && p != d.port ==> t.slots[p] == s.slots[p])
            && (d.port < c.ports ==> FilledIn(s.slots[d.port], t.slots[d.port], id, lock)))
  {
    var (t, res) := CreateMutex(c, s, id, memory, lock);
    var d := s.devs[id];
    if !d.mutex && res == Ok && d.port < c.ports && lock {
      var i := FirstSlot(s.slots[d.port], None);
      if i < |s.slots[d.port]| { assert FirstFree(s.slots[d.port], i); }
    }
  }

  /** The first free slot is given to the device, if there is one and it may. */
  ghost predicate FilledIn(slots: seq<Option<nat>>, now: seq<Option<nat>>, id: nat, may: bool) {
    if may && None in slots then exists i :: 0 <= i < |slots| && FirstFree(slots, i) && now == slots[i := Some(id)]
    else now == slots
  }

  /** The slots of others, and nothing of this device. */
  predicate Without(slots: seq<Option<nat>>, now: seq<Option<nat>>, id: nat) {
    && |now| == |slots|
    && forall k :: 0 <= k < |slots| ==> now[k] == if slots[k] == Some(id) then None else slots[k]
  }

  /** Deletion always succeeds: the descriptor loses handle and mutex, the device its slot, and the port, if its lock
      is had, one reference, and with the last its bus and its pins. */
  lemma DeletionLaw(c: Config, s: State, id: nat, lock: bool)
    requires Inv(c, s) && id in s.devs
    ensures var (t, res) := DeleteMutex(c, s, id, lock);
      var d := s.devs[id];
      && res == Ok && Shaped(c, t) && t.nextBus == s.nextBus
      && t.devs == s.devs[id := d.(handle := None, mutex := false)]
      && (forall p :: 0 <= p < c.ports && p != d.port ==> t.ports[p] == s.ports[p] && t.slots[p] == s.slots[p])
      && (d.port < c.ports ==>
            && Without(s.slots[d.port], t.slots[d.port], id)
            && var q := s.ports[d.port];
               t.ports[d.port] ==
                 if !lock || !q.installed || q.refs == 0 then q
                 else if q.refs > 1 then q.(refs := q.refs - 1)
                 else Port(None, false, 0, -1, -1))
  {
    var t, d := DeleteMutex(c, s, id, lock).0, s.devs[id];
    if d.port < c.ports {
      var slots, i := s.slots[d.port], FirstSlot(s.slots[d.port], Some(id));
      forall k | 0 <= k < |slots| ensures t.slots[d.port][k] == if slots[k] == Some(id) then None else slots[k] {
        if i < k { assert s.slots[d.port][i] != s.slots[d.port][k]; }
      }
    }
  }
}
