/** The program behind the connection protocol: its variables, and the steps of both tasks that change them. */
module WifiStation {
  import opened Folds
  import opened WifiConnect

  class Station {
    const config: Config
    var wait: bool
    var retry: nat
    var ip: Semaphore
    var ip6: Semaphore
    var registered: bool
    var caller: Caller
    var handler: Handler
    // What has happened since the call began.
    ghost var gotIp: bool
    ghost var gotIp6: bool
    ghost var exhausted: bool
    ghost var reconnects: nat

    ghost function Now(): State
      reads this
    {
      State(wait, retry, ip, ip6, registered, caller, handler, gotIp, gotIp6, exhausted, reconnects)
    }

    constructor (config: Config)
      ensures this.config == config && !registered && ip == Null && ip6 == Null && retry == 0
      ensures caller == Returned(EspOk) && handler == Idle
    {
      this.config := config;
      wait, retry, ip, ip6, registered := false, 0, Null, Null, false;
      caller, handler := Returned(EspOk), Idle;
      gotIp, gotIp6, exhausted, reconnects := false, false, false, 0;
    }

    /** The task calls connect. */
    method Begin(wait: bool)
      requires caller.Returned? && handler == Idle
      modifies this
      ensures Begins(Now()) && this.wait == wait
      ensures retry == old(retry) && ip == old(ip) && ip6 == old(ip6) && registered == old(registered)
    {
      this.wait, caller := wait, Create4;
      gotIp, gotIp6, exhausted, reconnects := false, false, false, 0;
    }

    /** The next step of connect. */
    method Proceed(good: bool)
      modifies this
      ensures Now() == CallerStep(config, old(Now()), good)
    {
      match caller {
        case Create4 =>
          if !wait {
            caller := Reset;
          } else {
            ip := if good then Empty else Null;
            caller := if good then Create6 else Returned(NoMem);
          }
        case Create6 =>
          if !config.ipv6 {
            caller := Reset;
          } else {
            ip6 := if good then Empty else Null;
            if ip6 == Null {
              ip := Deleted;
              caller := Returned(NoMem);
            } else {
              caller := Reset;
            }
          }
        case Reset =>
          retry := 0;
          caller := Register;
        case Register =>
          registered := true;
          caller := Connect;
        case Connect =>
          if !good {
            caller := Returned(ConnectError);
          } else {
            caller := if wait then Take4 else Returned(EspOk);
          }
        case Take4 =>
          if !config.ipv4 {
            caller := Take6;
          } else if ip == Full {
            ip := Null;
            caller := Take6;
          }
        case Take6 =>
          if !config.ipv6 {
            caller := Check;
          } else if ip6 == Full {
            ip6 := Null;
            caller := Check;
          }
        case Check =>
          caller := Returned(if retry > config.maxRetry then EspFail else EspOk);
        case Returned(_) =>
      }
    }

    /** A disconnection; `reconnect` tells whether the handler asks the driver to connect again. */
    method OnDisconnect(roaming: bool) returns (reconnect: bool)
      requires registered && handler == Idle
      modifies this
      ensures Now() == Deliver(config, old(Now()), Disconnected(roaming))
      ensures reconnect <==> !roaming && old(retry) < config.maxRetry
      ensures reconnects == old(reconnects) + if reconnect then 1 else 0
      ensures handler == if old(retry) < config.maxRetry then Idle else GiveIp
    {
      reconnect := false;
      retry := retry + 1;
      if retry > config.maxRetry {
        exhausted := true;
        handler := GiveIp;
        return;
      }
      if roaming { return; }
      reconnect := true;
      reconnects := reconnects + 1;
    }

    /** An address of the fourth version, up to the check of whose it is. */
    method OnGotIp(ours: bool)
      requires registered && handler == Idle
      modifies this
      ensures Now() == Deliver(config, old(Now()), GotIp(ours))
    {
      retry := 0;
      handler := SignalIp(ours);
      reconnects := 0;
      gotIp := gotIp || ours;
    }

    method OnGotIp6(ours: bool, preferred: bool)
      requires registered && handler == Idle
      modifies this
      ensures Now() == Deliver(config, old(Now()), GotIp6(ours, preferred))
    {
      if !config.ipv6 || !ours { return; }
      if preferred {
        ip6 := Give(ip6);
        gotIp6 := true;
      }
    }

    /** The rest of a handler, step by step. */
    method Handle()
      modifies this
      ensures Now() == HandlerStep(config, old(Now()))
    {
      match handler {
        case Idle =>
        case SignalIp(ours) =>
          if ours { ip := Give(ip); }
          handler := Idle;
        case GiveIp =>
          ip := Give(ip);
          handler := if config.ipv6 then GiveIp6 else Unregister;
        case GiveIp6 =>
          ip6 := Give(ip6);
          handler := Unregister;
        case Unregister =>
          registered := false;
          handler := Idle;
      }
    }

    /** Both tasks at the scheduler's choice; what the theorems about runs say, holds of the program. */
    method Play(choices: seq<Choice>)
      modifies this
      ensures Now() == Run(config, old(Now()), choices)
      ensures old(Begins(Now())) && old(!registered) ==>
        && (wait && caller == Returned(EspOk) ==> (config.ipv4 ==> gotIp) && (config.ipv6 ==> gotIp6))
        && reconnects <= config.maxRetry
    {
      ghost var start := Now();
      assert choices[..0] == [];
      for i := 0 to |choices|
        invariant Now() == Run(config, start, choices[..i])
      {
        FoldNext(Step(config), start, choices, i);
        match choices[i] {
          case RunCaller(good) => Proceed(good);
          case RunHandler => Handle();
          case Arrive(e) =>
            if registered && handler == Idle { Dispatch(e); }
        }
      }
      assert choices[..|choices|] == choices;
      if Begins(start) && !start.registered { ConnectSafety(config, start, choices); }
    }

    /** The event loop calls the handler of an event. */
    method Dispatch(e: Event)
      requires registered && handler == Idle
      modifies this
      ensures Now() == Deliver(config, old(Now()), e)
    {
      match e {
        case Disconnected(roaming) => var reconnect := OnDisconnect(roaming);
        case GotIp(ours) => OnGotIp(ours);
        case GotIp6(ours, preferred) => OnGotIp6(ours, preferred);
      }
    }
  }
}
