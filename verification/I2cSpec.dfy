/** The I2C device manager's calls as functions on its tables. */
module I2cSpec {
  import opened Options

  /** The driver's and the manager's error codes, as far as the code tells them apart. */
  datatype Esp = Ok | Fail | NoMem | InvalidArg | InvalidState | Timeout | Other

  /** Build-time configuration: ports, registry slots per port, retries, default pins. */
  datatype Config = Config(ports: nat, slots: nat, retries: nat, sda: int, scl: int)

  /** A port's state; `bus` names the bus instance its handle stands for. */
  datatype Port = Port(bus: Option<nat>, installed: bool, refs: nat, sda: int, scl: int)

  /** A device descriptor; `handle` names the bus instance the device was added to. */
  datatype Dev = Dev(port: nat, wantSda: int, wantScl: int, mutex: bool, handle: Option<nat>, sda: int, scl: int)

  /** All tables, descriptors by address, and the model's bookkeeping: `nextBus` keeps bus instances apart, `added`
      are the devices with a successful add since they were last deleted, `spare` counts a port's references that
      belong to none of them. */
  datatype State = State(ports: seq<Port>, devs: map<nat, Dev>, slots: seq<seq<Option<nat>>>,
                         nextBus: nat, added: set<nat>, spare: seq<nat>)

  const NO_PORT := Port(None, false, 0, -1, -1)

  function Init(c: Config): State {
    State(seq(c.ports, _ => NO_PORT), map[], seq(c.ports, _ => seq(c.slots, _ => None)), 0, {},
          seq(c.ports, _ => 0))
  }

  predicate Shaped(c: Config, s: State) {
    && |s.ports| == |s.slots| == |s.spare| == c.ports
    && forall p :: 0 <= p < c.ports ==> |s.slots[p]| == c.slots
  }

  // ----- Registry -----

  /** Index of the first slot holding `x`, |slots| if there is none. */
  function FirstSlot(slots: seq<Option<nat>>, x: Option<nat>): (i: nat)
    ensures i <= |slots| && (i < |slots| ==> slots[i] == x) && forall k :: 0 <= k < i ==> slots[k] != x
  {
    if slots == [] || slots[0] == x then 0 else 1 + FirstSlot(slots[1..], x)
  }

  /** The first slot holding `x` is given `y`; no such slot, no change. */
  function Replace(slots: seq<Option<nat>>, x: Option<nat>, y: Option<nat>): seq<Option<nat>> {
    var i := FirstSlot(slots, x);
    if i < |slots| then slots[i := y] else slots
  }

  function CreateMutex(c: Config, s: State, id: nat, memory: bool, lock: bool): (State, Esp)
    requires Shaped(c, s)
  {
    if id !in s.devs then (s, InvalidArg)
    else
      var d := s.devs[id];
      if d.mutex then (s, Ok)
      else if !memory then (s, NoMem)
      else
        var t := s.(devs := s.devs[id := d.(mutex := true)]);
        if d.port < c.ports && lock then
          (t.(slots := s.slots[d.port := Replace(s.slots[d.port], None, Some(id))]), Ok)
        else (t, Ok)
  }

  // ----- Deletion -----

  /** One reference fewer; the last one takes the bus with it. */
  function Release(p: Port): Port {
    if p.installed && p.refs > 0 then if p.refs == 1 then NO_PORT else p.(refs := p.refs - 1) else p
  }

  /** A deletion that misses the lock leaves its reference behind; one of a device never added takes one of those. */
  function Spared(s: State, id: nat, lock: bool): seq<nat>
    requires id in s.devs && s.devs[id].port < |s.ports| == |s.spare|
  {
    var p := s.devs[id].port;
    if id in s.added then if lock then s.spare else s.spare[p := s.spare[p] + 1]
    else if lock && s.ports[p].installed && s.ports[p].refs > 0 && s.spare[p] > 0 then s.spare[p := s.spare[p] - 1]
    else s.spare
  }

  function DeleteMutex(c: Config, s: State, id: nat, lock: bool): (State, Esp)
    requires Shaped(c, s)
  {
    if id !in s.devs then (s, InvalidArg)
    else
      var d := s.devs[id];
      var t := s.(devs := s.devs[id := d.(handle := None, mutex := false)], added := s.added - {id});
      if d.port < c.ports then
        var u := t.(slots := s.slots[d.port := Replace(s.slots[d.port], Some(id), None)]);
        (if lock then u.(ports := s.ports[d.port := Release(s.ports[d.port])], spare := Spared(s, id, lock))
         else u.(spare := Spared(s, id, lock)), Ok)
      else (t, Ok)
  }

  // ----- Setup -----

  /** What the driver and the locks do during one attempt. `bare` is a device added without a handle. */
  datatype Attempt = Attempt(lock: bool, newBus: Esp, relock: bool, add: Esp, bare: bool, op: Esp)

  function Pin(want: int, otherwise: int): int {
    if want == -1 then otherwise else want
  }

  function SetupPort(c: Config, s: State, id: nat, lock: bool, newBus: Esp): (State, Esp)
    requires Shaped(c, s) && id in s.devs
  {
    var d := s.devs[id];
    if d.port >= c.ports then (s, InvalidArg)
    else if !lock then (s, Timeout)
    else
      var p := s.ports[d.port];
      if !p.installed then
        var sda, scl := Pin(d.wantSda, c.sda), Pin(d.wantScl, c.scl);
        if sda < 0 || scl < 0 then (s, InvalidArg)
        else if newBus == Ok then
          (s.(ports := s.ports[d.port := Port(Some(s.nextBus), true, 0, sda, scl)],
              devs := s.devs[id := d.(sda := sda, scl := scl)], nextBus := s.nextBus + 1), Ok)
        else (s.(ports := s.ports[d.port := Port(None, false, p.refs, -1, -1)]), newBus)
      else if Pin(d.wantSda, p.sda) != p.sda || Pin(d.wantScl, p.scl) != p.scl then (s, InvalidState)
      else (s.(devs := s.devs[id := d.(sda := p.sda, scl := p.scl)]), Ok)
  }

  function AddDevice(c: Config, s: State, id: nat, a: Attempt): (State, Esp)
    requires Shaped(c, s) && id in s.devs && s.devs[id].port < c.ports
  {
    var d := s.devs[id];
    var p := s.ports[d.port];
    if d.handle.Some? then (s, Ok)
    else if !a.relock then (s, Timeout)
    else if !p.installed || p.bus.None? then (s, InvalidState)
    else if a.add == Ok then
      (s.(ports := s.ports[d.port := p.(refs := p.refs + 1)],
          devs := s.devs[id := d.(handle := if a.bare then None else p.bus)], added := s.added + {id},
          spare := if id in s.added then s.spare[d.port := s.spare[d.port] + 1] else s.spare), Ok)
    else (s, a.add)
  }

  function SetupDevice(c: Config, s: State, id: nat, a: Attempt): (State, Esp)
    requires Shaped(c, s) && id in s.devs
  {
    var (t, res) := SetupPort(c, s, id, a.lock, a.newBus);
    if res != Ok then (t, res) else AddDevice(c, t, id, a)
  }

  // ----- An operation with retries -----

  function Pow2(n: nat): nat {
    if n == 0 then 1 else 2 * Pow2(n - 1)
  }

  const BASE_DELAY: nat := 20

  /** What one try leaves behind: the tables, its result, the pauses it asked for. */
  datatype Try = Try(s: State, res: Esp, pauses: seq<nat>)

  predicate HandleCorrupt(res: Esp) {
    res == InvalidArg || res == InvalidState
  }

  function DropHandle(s: State, id: nat): State
    requires id in s.devs
  {
    s.(devs := s.devs[id := s.devs[id].(handle := None)])
  }

  function TryOnce(c: Config, s: State, id: nat, a: Attempt, retry: nat): Try
    requires Shaped(c, s) && id in s.devs
  {
    var (t, res) := SetupDevice(c, s, id, a);
    if res != Ok then Try(t, res, [BASE_DELAY * Pow2(retry)])
    else if t.devs[id].handle.None? then Try(t, InvalidState, [BASE_DELAY * Pow2(retry)])
    else if a.op == Ok then Try(t, Ok, [])
    else
      Try(if HandleCorrupt(a.op) then DropHandle(t, id) else t, a.op,
          if retry + 1 <= c.retries then [BASE_DELAY * Pow2(retry + 1)] else [])
  }

  /** The same bus on the same pins; only the count may differ. */
  predicate KeepsBus(p: Port, q: Port) {
    q == p.(refs := q.refs)
  }

  predicate KeepsBuses(s: State, t: State) {
    |t.ports| == |s.ports| && forall p :: 0 <= p < |s.ports| && s.ports[p].installed ==>
      KeepsBus(s.ports[p], t.ports[p])
  }

  lemma TryOnceShape(c: Config, s: State, id: nat, a: Attempt, retry: nat)
    requires Shaped(c, s) && id in s.devs
    ensures var t := TryOnce(c, s, id, a, retry).s; Shaped(c, t) && id in t.devs && KeepsBuses(s, t)
  {
  }

  /** From try number `retry` on; at least one is made. `used` counts them. */
  datatype Outcome = Outcome(s: State, res: Esp, pauses: seq<nat>, used: nat)

  function Operate(c: Config, s: State, id: nat, attempts: seq<Attempt>, retry: nat): Outcome
    requires Shaped(c, s) && id in s.devs && retry <= c.retries && |attempts| == c.retries + 1
    decreases c.retries - retry
  {
    var t := TryOnce(c, s, id, attempts[retry], retry);
    TryOnceShape(c, s, id, attempts[retry], retry);
    if t.res == Ok || retry == c.retries then Outcome(t.s, t.res, t.pauses, 1)
    else
      var o := Operate(c, t.s, id, attempts, retry + 1);
      o.(pauses := t.pauses + o.pauses, used := o.used + 1)
  }

  // ----- The client's side, and clean-up -----

  /** A fresh descriptor, filled in by the client. */
  function Describe(s: State, id: nat, port: nat, sda: int, scl: int): State {
    if id in s.devs then s else s.(devs := s.devs[id := Dev(port, sda, scl, false, None, -1, -1)])
  }

  /** The client asks for other pins. */
  function Repin(s: State, id: nat, sda: int, scl: int): State {
    if id in s.devs then s.(devs := s.devs[id := s.devs[id].(wantSda := sda, wantScl := scl)]) else s
  }

  /** Registered handles are removed, then the bus; the registry of the port is cleared in any case. */
  function DonePort(s: State, p: nat, lock: bool): State
    requires p < |s.ports| == |s.slots| == |s.spare|
  {
    var t := s.(slots := s.slots[p := seq(|s.slots[p]|, _ => None)]);
    if lock && s.ports[p].installed then
      t.(devs := map id | id in s.devs :: if Some(id) in s.slots[p] then s.devs[id].(handle := None) else s.devs[id],
         ports := s.ports[p := s.ports[p].(bus := None, installed := false, refs := 0)],
         spare := s.spare[p := 0])
    else t
  }

  /** Port after port, the first `n` of them. */
  function Done(c: Config, s: State, locks: seq<bool>, n: nat): (t: State)
    requires Shaped(c, s) && |locks| == c.ports && n <= c.ports
    ensures Shaped(c, t)
  {
    if n == 0 then s else DonePort(Done(c, s, locks, n - 1), n - 1, locks[n - 1])
  }
}
