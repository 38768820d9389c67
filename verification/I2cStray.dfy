/** What a client can do after deleting a device that was never added. */
module I2cStray {
  import opened Options
  import opened I2cSpec
  import opened I2cInvariant
  import opened I2cRuns

  /** The tables after further allowed calls, None if the client breaks its rule on the way. */
  function RunFrom(c: Config, s: State, calls: seq<Call>): Option<State> {
    if calls == [] then Some(s)
    else
      match RunFrom(c, s, calls[..|calls| - 1])
      case None => None
      case Some(t) =>
        var call := calls[|calls| - 1];
        if Shaped(c, t) && Allowed(c, t, call) then Some(Next(c, t, call)) else None
  }

  ghost predicate Leads(c: Config, s: State, t: State) {
    exists calls :: RunFrom(c, s, calls) == Some(t)
  }

  /** A live handle is of no bus, or of another than its port has. */
  ghost predicate Stranded(c: Config, s: State) {
    Shaped(c, s) && exists k, p :: 0 <= p < c.ports && Live(s, k, p) && s.ports[p].bus != s.devs[k].handle
  }

  /** Some allowed continuation strands a live handle. */
  ghost predicate CanStrand(c: Config, s: State) {
    exists t :: Leads(c, s, t) && Stranded(c, t)
  }

  lemma LeadsNext(c: Config, s: State, t: State, call: Call)
    requires Leads(c, s, t) && Shaped(c, t) && Allowed(c, t, call)
    ensures Leads(c, s, Next(c, t, call))
  {
    var calls :| RunFrom(c, s, calls) == Some(t);
    var more := calls + [call];
    assert more[..|more| - 1] == calls;
    assert RunFrom(c, s, more) == Some(Next(c, t, call));
  }

  lemma {:induction false} RunFromInv(c: Config, s: State, calls: seq<Call>)
    requires Inv(c, s)
    ensures RunFrom(c, s, calls).Some? ==> Inv(c, RunFrom(c, s, calls).value)
  {
    if calls != [] {
      var init, call := calls[..|calls| - 1], calls[|calls| - 1];
      RunFromInv(c, s, init);
      match RunFrom(c, s, init)
      case None =>
      case Some(t) =>
        if Shaped(c, t) && Allowed(c, t, call) { NextInv(c, t, call); }
    }
  }

  lemma InvNeverStrands(c: Config, s: State)
    requires Inv(c, s)
    ensures !CanStrand(c, s)
  {
    forall t | Leads(c, s, t) ensures !Stranded(c, t) {
      var calls :| RunFrom(c, s, calls) == Some(t);
      RunFromInv(c, s, calls);
      forall k, p | 0 <= p < c.ports && Live(t, k, p) ensures t.ports[p].bus == t.devs[k].handle {
        assert HandleOk(t, k);
      }
    }
  }

  lemma {:induction false} Above(ids: set<nat>) returns (j: nat)
    ensures forall k | k in ids :: k < j
  {
    j := 0;
    if ids != {} {
      var x :| x in ids;
      var rest := Above(ids - {x});
      j := if x < rest then rest else x + 1;
      forall k | k in ids ensures k < j { assert k == x || k in ids - {x}; }
    }
  }

  // ----- A further device takes the place of the reference that is missing -----

  const GOOD := Attempt(true, Ok, true, Ok, false, Ok)

  /** A bus with a live device `j`, and as many references as `ids` has devices on the port. */
  ghost predicate Short(c: Config, s: State, p: nat, j: nat, ids: set<nat>) {
    && Shaped(c, s) && p < c.ports && Live(s, j, p) && j !in ids && ids <= On(s, p)
    && s.ports[p].installed && s.ports[p].bus == s.devs[j].handle && s.ports[p].refs == |ids|
  }

  lemma AddDeviceShort(c: Config, s: State, t: State, p: nat, ids: set<nat>) returns (j: nat, u: State)
    requires Leads(c, s, t) && Shaped(c, t) && p < c.ports && PortOk(t, p) && ids <= On(t, p)
    requires |ids| == if t.ports[p].installed then t.ports[p].refs + 1 else 1
    ensures Leads(c, s, u) && Short(c, u, p, j, ids)
  {
    j := Above(t.devs.Keys);
    var pin := if t.ports[p].installed then -1 else 0;
    LeadsNext(c, s, t, CallDescribe(j, p, pin, pin));
    u := Describe(t, j, p, pin, pin);
    forall k | k in ids ensures k in On(u, p) { assert k in On(t, p); }
    var attempts := seq(c.retries + 1, _ => GOOD);
    LeadsNext(c, s, u, CallOperate(j, attempts));
    u := TryOnce(c, u, j, GOOD, 0).s;
  }

  lemma DeleteOne(c: Config, s: State, p: nat, j: nat, ids: set<nat>, k: nat)
    requires Short(c, s, p, j, ids) && k in ids
    ensures k in s.added
    ensures var t := DeleteMutex(c, s, k, true).0;
      if |ids| == 1 then Shaped(c, t) && Live(t, j, p) && t.ports[p].bus == None else Short(c, t, p, j, ids - {k})
  {
    var t := DeleteMutex(c, s, k, true).0;
    assert k in On(s, p);
    forall i | i in ids - {k} ensures i in On(t, p) { assert i in On(s, p); }
  }

  /** Deleting them one by one takes the bus from under the device that is left. */
  lemma {:induction false} DeleteAll(c: Config, s: State, t: State, p: nat, j: nat, ids: set<nat>)
    requires Leads(c, s, t) && Short(c, t, p, j, ids) && ids != {}
    ensures CanStrand(c, s)
    decreases |ids|
  {
    var k :| k in ids;
    DeleteOne(c, t, p, j, ids, k);
    LeadsNext(c, s, t, CallDelete(k, true));
    var u := DeleteMutex(c, t, k, true).0;
    if |ids| == 1 {
      assert Stranded(c, u);
    } else {
      assert |ids - {k}| == |ids| - 1;
      DeleteAll(c, s, u, p, j, ids - {k});
    }
  }

  /** After deleting a device that was never added, a client that keeps its rule from then on can strand a live
      handle if and only if the deletion took a reference that a device on the port still counts on. */
  lemma StrayLaw(c: Config, s: State, id: nat, lock: bool)
    requires Inv(c, s) && id in s.devs && id !in s.added
    ensures var p := s.devs[id].port;
      var last := lock && p < c.ports && s.ports[p].installed && s.ports[p].refs > 0 && s.ports[p].refs == |On(s, p)|;
      CanStrand(c, DeleteMutex(c, s, id, lock).0) <==> last
  {
    var t, p := DeleteMutex(c, s, id, lock).0, s.devs[id].port;
    DeleteLaw(c, s, id, lock);
    if lock && p < c.ports && s.ports[p].installed && s.ports[p].refs > 0 && s.ports[p].refs == |On(s, p)| {
      var ids := On(s, p);
      assert PortOk(s, p);
      forall k | k in ids ensures k in On(t, p) {}
      assert RunFrom(c, t, []) == Some(t);
      var j, u := AddDeviceShort(c, t, t, p, ids);
      DeleteAll(c, t, u, p, j, ids);
    } else {
      InvNeverStrands(c, t);
    }
  }
}
