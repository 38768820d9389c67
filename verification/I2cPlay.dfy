/** A client at work on the manager: a run of its calls is a run of the specification. */
module I2cPlay {
  import opened Options
  import opened I2cSpec
  import opened I2cInvariant
  import opened I2cRuns
  import opened I2cStray
  import opened I2cManager

  // As far as it goes, a run that keeps the client's rule keeps it on the way.
  lemma {:induction false} PrefixRuns(c: Config, s: State, calls: seq<Call>, i: nat)
    requires i <= |calls| && RunFrom(c, s, calls).Some?
    ensures RunFrom(c, s, calls[..i]).Some?
  {
    var n := |calls|;
    if i < n {
      PrefixRuns(c, s, calls[..n - 1], i);
      assert calls[..n - 1][..i] == calls[..i];
    } else {
      assert calls[..i] == calls;
    }
  }

  lemma NextRuns(c: Config, s: State, calls: seq<Call>, i: nat)
    requires i < |calls| && RunFrom(c, s, calls).Some?
    ensures RunFrom(c, s, calls[..i]).Some? && RunFrom(c, s, calls[..i + 1]).Some?
    ensures var t := RunFrom(c, s, calls[..i]).value;
      && Shaped(c, t) && Allowed(c, t, calls[i])
      && RunFrom(c, s, calls[..i + 1]) == Some(Next(c, t, calls[i]))
  {
    PrefixRuns(c, s, calls, i);
    PrefixRuns(c, s, calls, i + 1);
    assert calls[..i + 1][..i] == calls[..i];
  }

  lemma {:induction false} RunIsFromInit(c: Config, calls: seq<Call>)
    ensures RunFrom(c, Init(c), calls) == Run(c, calls)
  {
    if calls != [] { RunIsFromInit(c, calls[..|calls| - 1]); }
  }

  /** The client fills a descriptor in. */
  method Describe(m: Manager, id: nat, port: nat, sda: int, scl: int)
    requires m.Valid()
    modifies m
    ensures m.Valid() && m.Tables() == I2cSpec.Describe(old(m.Tables()), id, port, sda, scl)
  {
    if id !in m.devs {
      m.devs := m.devs[id := Dev(port, sda, scl, false, None, -1, -1)];
    }
  }

  method Repin(m: Manager, id: nat, sda: int, scl: int)
    requires m.Valid()
    modifies m
    ensures m.Valid() && m.Tables() == I2cSpec.Repin(old(m.Tables()), id, sda, scl)
  {
    if id in m.devs {
      m.devs := m.devs[id := m.devs[id].(wantSda := sda, wantScl := scl)];
    }
  }

  method PlayOne(m: Manager, call: Call)
    requires m.Valid() && Allowed(m.config, m.Tables(), call)
    modifies m
    ensures m.Valid() && m.Tables() == Next(m.config, old(m.Tables()), call)
  {
    var res;
    match call {
      case CallDescribe(id, port, sda, scl) => Describe(m, id, port, sda, scl);
      case CallRepin(id, sda, scl) => Repin(m, id, sda, scl);
      case CallCreate(id, memory, lock) => res := m.CreateMutex(id, memory, lock);
      case CallDelete(id, lock) => res := m.DeleteMutex(id, lock);
      case CallOperate(id, attempts) => var pauses; res, pauses := m.OperationWithRetry(id, attempts);
      case CallPresent(id, lock, newBus) => res := m.SetupPort(id, lock, newBus);
    }
  }

  /** Whatever the client calls by its rule, on a new manager or any that has kept the invariant, keeps it. */
  method Play(m: Manager, calls: seq<Call>)
    requires m.Valid() && RunFrom(m.config, m.Tables(), calls).Some?
    modifies m
    ensures m.Valid() && RunFrom(m.config, old(m.Tables()), calls) == Some(m.Tables())
    ensures old(Inv(m.config, m.Tables())) ==> Inv(m.config, m.Tables())
    ensures old(m.Tables()) == Init(m.config) ==> Run(m.config, calls) == Some(m.Tables()) && Inv(m.config, m.Tables())
  {
    ghost var start := m.Tables();
    assert calls[..0] == [];
    for i := 0 to |calls|
      invariant m.Valid() && RunFrom(m.config, start, calls[..i]) == Some(m.Tables())
    {
      NextRuns(m.config, start, calls, i);
      PlayOne(m, calls[i]);
    }
    assert calls[..|calls|] == calls;
    RunIsFromInit(m.config, calls);
    if Inv(m.config, start) { RunFromInv(m.config, start, calls); }
  }
}
