/** The decoder's states as a machine over single bytes, and the windows it amounts to. */
module UriMachine {
  import opened Folds
  import opened UriTables
  import opened UriCoding

  type HexByte = b: Byte | Hex(b) witness 0x30

  /** Usual, behind a percent sign, behind a percent sign and a first digit. */
  datatype State = Usual | Quoted | QuotedSecond(first: HexByte) {
    // Bytes read but not decided yet.
    function Held(): nat {
      match this case Usual => 0 case Quoted => 1 case QuotedSecond(_) => 2
    }
  }

  datatype Machine = Machine(state: State, written: seq<Byte>, read: nat, done: bool)

  const RESET := Machine(Usual, [], 0, false)

  function Move(c: Machine, state: State, bytes: seq<Byte>, done: bool): Machine {
    Machine(state, c.written + bytes, c.read + 1, done)
  }

  function Step(m: Mode, c: Machine, ch: Byte): Machine {
    if c.done then c
    else match c.state
      case Usual =>
        if ch == PERCENT then Move(c, Quoted, [], false) else Move(c, Usual, [ch], ch == QUESTION
          && (m.uri || m.redirect))
      case Quoted =>
        if Hex(ch) then Move(c, QuotedSecond(ch), [], false) else Move(c, Usual, [ch], false)
      case QuotedSecond(first) =>
        if Hex(ch) then
          var (bytes, stop) := Decode(m, first, ch);
          Move(c, Usual, bytes, stop)
        else Move(c, Usual, [], false)
  }

  function Stepper(m: Mode): (Machine, Byte) -> Machine {
    (c, ch) => Step(m, c, ch)
  }

  /** Writing never gets ahead of what has been read and decided. */
  predicate Sane(c: Machine) {
    |c.written| + c.state.Held() <= c.read
  }

  lemma StepShape(m: Mode, c: Machine, ch: Byte)
    requires Sane(c) && !c.done
    ensures var n := Step(m, c, ch);
      Sane(n) && n.read == c.read + 1 && n.state.Held() <= c.state.Held() + 1
      && |c.written| <= |n.written| && |n.written| <= n.read
      && (n.state.QuotedSecond? ==> n.state.first == ch)
  {
  }

  // ----- The machine reads windows -----

  ghost function Pending(state: State): seq<Byte> {
    match state case Usual => [] case Quoted => [PERCENT] case QuotedSecond(first) => [PERCENT, first]
  }

  /** What the machine has done, and decoding what it holds back and has not read, make up the whole. */
  ghost function Outcome(m: Mode, c: Machine, rest: seq<Byte>): Result {
    if c.done then Result(c.written, c.read)
    else
      var r := Unescape(m, Pending(c.state) + rest);
      Result(c.written + r.out, c.read - c.state.Held() + r.used)
  }

  lemma BadFirstWindow(m: Mode, ch: Byte, rest: seq<Byte>)
    requires !Hex(ch)
    ensures Unescape(m, [PERCENT] + ([ch] + rest)) == After([ch], 2, Unescape(m, rest))
  {
    assert ([PERCENT] + ([ch] + rest))[2..] == rest;
  }

  lemma TripletWindow(m: Mode, first: Byte, ch: Byte, rest: seq<Byte>)
    requires Hex(first)
    ensures Unescape(m, [PERCENT, first] + ([ch] + rest)) ==
      if !Hex(ch) then After([], 3, Unescape(m, rest))
      else
        var (bytes, stop) := Decode(m, first, ch);
        if stop then Result(bytes, 3) else After(bytes, 3, Unescape(m, rest))
  {
    assert ([PERCENT, first] + ([ch] + rest))[3..] == rest;
  }

  // One window more, decided.
  lemma MoveOutcome(m: Mode, c: Machine, bytes: seq<Byte>, stop: bool, s: seq<Byte>, rest: seq<Byte>)
    requires !c.done
    requires Unescape(m, Pending(c.state) + s)
      == if stop then Result(bytes, c.state.Held() + 1) else After(bytes, c.state.Held() + 1, Unescape(m, rest))
    ensures Outcome(m, Move(c, Usual, bytes, stop), rest) == Outcome(m, c, s)
  {
    assert [] + rest == rest;
    if !stop {
      Append3(c.written, bytes, Unescape(m, rest).out);
    }
  }

  lemma UsualStep(m: Mode, c: Machine, ch: Byte, rest: seq<Byte>)
    requires !c.done && c.state == Usual
    ensures Outcome(m, Step(m, c, ch), rest) == Outcome(m, c, [ch] + rest)
  {
    var s := [ch] + rest;
    assert [] + s == s;
    if ch == PERCENT {
      assert Step(m, c, ch) == Machine(Quoted, c.written, c.read + 1, false);
    } else {
      MoveOutcome(m, c, [ch], ch == QUESTION && (m.uri || m.redirect), s, rest);
    }
  }

  lemma QuotedStep(m: Mode, c: Machine, ch: Byte, rest: seq<Byte>)
    requires !c.done && c.state == Quoted
    ensures Outcome(m, Step(m, c, ch), rest) == Outcome(m, c, [ch] + rest)
  {
    if Hex(ch) {
      assert Step(m, c, ch) == Machine(QuotedSecond(ch), c.written, c.read + 1, false);
      assert [PERCENT, ch] + rest == [PERCENT] + ([ch] + rest);
    } else {
      BadFirstWindow(m, ch, rest);
      MoveOutcome(m, c, [ch], false, [ch] + rest, rest);
    }
  }

  lemma QuotedSecondStep(m: Mode, c: Machine, ch: Byte, rest: seq<Byte>)
    requires !c.done && c.state.QuotedSecond?
    ensures Outcome(m, Step(m, c, ch), rest) == Outcome(m, c, [ch] + rest)
  {
    TripletWindow(m, c.state.first, ch, rest);
    var (bytes, stop) := if Hex(ch) then Decode(m, c.state.first, ch) else ([], false);
    MoveOutcome(m, c, bytes, stop, [ch] + rest, rest);
  }

  lemma StepKeepsOutcome(m: Mode, c: Machine, ch: Byte, rest: seq<Byte>)
    ensures Outcome(m, Step(m, c, ch), rest) == Outcome(m, c, [ch] + rest)
  {
    if !c.done {
      match c.state
      case Usual => UsualStep(m, c, ch, rest);
      case Quoted => QuotedStep(m, c, ch, rest);
      case QuotedSecond(_) => QuotedSecondStep(m, c, ch, rest);
    }
  }

  lemma {:induction false} RunKeepsOutcome(m: Mode, c: Machine, input: seq<Byte>)
    ensures Outcome(m, Fold(Stepper(m), c, input), []) == Outcome(m, c, input)
    decreases |input|
  {
    if input != [] {
      var ch, rest := input[0], input[1..];
      assert input == [ch] + rest;
      FoldConcat(Stepper(m), c, [ch], rest);
      FoldSnoc(Stepper(m), c, [], ch);
      assert [] + [ch] == [ch];
      RunKeepsOutcome(m, Step(m, c, ch), rest);
      StepKeepsOutcome(m, c, ch, rest);
    }
  }

  /** Byte by byte is window by window. */
  lemma MachineIsUnescape(m: Mode, input: seq<Byte>)
    ensures var c := Fold(Stepper(m), RESET, input); Result(c.written, c.read) == Unescape(m, input)
  {
    RunKeepsOutcome(m, RESET, input);
    assert [] + input == input && [] + Unescape(m, input).out == Unescape(m, input).out;
  }

  // ----- Prefixes of a run -----

  lemma {:induction false} RunGrows(m: Mode, c: Machine, input: seq<Byte>)
    ensures |Fold(Stepper(m), c, input).written| >= |c.written|
    ensures c.done ==> Fold(Stepper(m), c, input) == c
  {
    if input != [] {
      RunGrows(m, c, input[..|input| - 1]);
    }
  }

  lemma NextGrows(m: Mode, input: seq<Byte>, k: nat)
    requires k < |input|
    ensures var c := Fold(Stepper(m), RESET, input[..k + 1]);
      && c == Step(m, Fold(Stepper(m), RESET, input[..k]), input[k])
      && |c.written| <= |Fold(Stepper(m), RESET, input).written|
      && (c.done ==> Fold(Stepper(m), RESET, input) == c)
  {
    FoldNext(Stepper(m), RESET, input, k);
    assert input == input[..k + 1] + input[k + 1..];
    FoldConcat(Stepper(m), RESET, input[..k + 1], input[k + 1..]);
    RunGrows(m, Fold(Stepper(m), RESET, input[..k + 1]), input[k + 1..]);
  }
}
