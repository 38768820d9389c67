/** Lab 5.3's receiver: interrupts time-stamp the edges, a task turns them into text. */
module EdgeReceiver {
  import opened Options
  import opened Folds
  import opened MorseCode
  import opened Waveform
  import opened Decoding

  /** An interrupt: microseconds since boot, and the level after the edge. */
  datatype Edge = Edge(time: int, rising: bool)

  datatype Timing = Timing(dotMin: int, dotMax: int, dashMin: int, dashMax: int, letterGapMin: int, wordGapMin: int)

  /** The tolerance in microseconds: the product truncated toward zero. */
  function TolUs(dot: int, tolerance: real): int {
    var tol := dot as real * tolerance;
    if tol >= 0.0 then tol.Floor else -(-tol).Floor
  }

  function TimingFor(dot: int, tol: int): Timing {
    Timing(dot - tol, dot + tol, 3 * dot - tol, 3 * dot + tol, 2 * dot, 6 * dot)
  }

  function Classify(t: Timing, pulse: int): Option<char> {
    if t.dashMin <= pulse <= t.dashMax then Some('-')
    else if t.dotMin <= pulse <= t.dotMax then Some('.')
    else None
  }

  function GapBreak(t: Timing, gap: int): Break {
    if gap > t.wordGapMin then Cut(" ") else if gap > t.letterGapMin then Cut("") else Keep
  }

  function EdgeRules(t: Timing): Rules {
    Rules(pulse => Classify(t, Int32(pulse)), gap => GapBreak(t, Int32(gap)))
  }

  /** How far apart two lengths are. */
  function Off(a: int, b: int): int {
    if a < b then b - a else a - b
  }

  /** A pulse within the tolerance of three dots is a dash, any other within the tolerance of one a dot, and every
      other is dropped; silences of up to two dots belong to a letter, of up to six end it, and longer ones a word. */
  lemma WindowLaw(dot: int, tol: int, length: int)
    ensures Classify(TimingFor(dot, tol), length) ==
      if Off(length, 3 * dot) <= tol then Some('-') else if Off(length, dot) <= tol then Some('.') else None
    ensures dot >= 0 ==>
      GapBreak(TimingFor(dot, tol), length) ==
        if length <= 2 * dot then Keep else if length <= 6 * dot then Cut("") else Cut(" ")
  {
  }

  // ----- The task as a step function; time stamp 0 means "no such edge yet" -----

  datatype State = State(core: Core, lastRise: int, lastFall: int)

  const BOOT := State(Core("", ""), 0, 0)

  ghost function Step(t: Timing, s: State, e: Edge): State {
    if e.rising then
      State(if s.lastFall > 0 then Rise(EdgeRules(t), s.core, e.time - s.lastFall) else s.core, e.time, s.lastFall)
    else
      State(if s.lastRise > 0 then Fall(EdgeRules(t), s.core, e.time - s.lastRise) else s.core, s.lastRise, e.time)
  }

  ghost function Stepper(t: Timing): (State, Edge) -> State {
    (s, e) => Step(t, s, e)
  }

  class Receiver {
    var dotMin: int
    var dotMax: int
    var dashMin: int
    var dashMax: int
    var letterGapMin: int
    var wordGapMin: int

    const morseBuffer: array<char>
    var morseIdx: nat
    var lastRisingEdge: int
    var lastFallingEdge: int
    var printed: string

    ghost predicate Valid()
      reads this
    {
      morseBuffer.Length == 10 && morseIdx <= 9
    }

    ghost function Times(): Timing
      reads this
    {
      Timing(dotMin, dotMax, dashMin, dashMax, letterGapMin, wordGapMin)
    }

    ghost function Current(): State
      requires Valid()
      reads this, morseBuffer
    {
      State(Core(printed, morseBuffer[..morseIdx]), lastRisingEdge, lastFallingEdge)
    }

    /** Start of the decoder task, with the thresholds the configuration computed. */
    constructor (dotDuration: int, tolerance: real)
      ensures Valid() && fresh(morseBuffer) && Current() == BOOT
      ensures Times() == TimingFor(dotDuration, TolUs(dotDuration, tolerance))
    {
      var tol := TolUs(dotDuration, tolerance);
      var dash := dotDuration * 3;
      dotMin, dotMax := dotDuration - tol, dotDuration + tol;
      dashMin, dashMax := dash - tol, dash + tol;
      letterGapMin := dotDuration * 2;
      wordGapMin := dotDuration * 6;
      morseBuffer := new char[10];
      morseIdx, lastRisingEdge, lastFallingEdge, printed := 0, 0, 0, "";
    }

    method Print(sep: string)
      requires Valid()
      modifies `morseIdx, `printed
      ensures Valid() && morseIdx == 0
      ensures printed == old(printed) + [Lookup(old(morseBuffer[..morseIdx]))] + sep
    {
      var decoded := DecodeMorse(morseBuffer[..morseIdx]);
      printed := printed + [decoded] + sep;
      morseIdx := 0;
    }

    method Append(symbol: char)
      requires Valid()
      modifies `morseIdx, morseBuffer
      ensures Valid()
      ensures var buf := old(morseBuffer[..morseIdx]);
        morseBuffer[..morseIdx] == if |buf| < CAPACITY then buf + [symbol] else buf
    {
      if morseIdx < morseBuffer.Length - 1 {
        morseBuffer[morseIdx] := symbol;
        morseIdx := morseIdx + 1;
      }
    }

    /** One event from the queue. */
    method OnEdge(event: Edge)
      requires Valid()
      modifies `morseIdx, `printed, `lastRisingEdge, `lastFallingEdge, morseBuffer
      ensures Valid() && Current() == Step(Times(), old(Current()), event)
    {
      if event.rising {
        lastRisingEdge := event.time;
        if lastFallingEdge > 0 {
          var gap := Int32(event.time - lastFallingEdge);
          if gap > wordGapMin && morseIdx > 0 {
            Print(" ");
          } else if gap > letterGapMin && morseIdx > 0 {
            Print("");
          }
        }
      } else {
        lastFallingEdge := event.time;
        if lastRisingEdge > 0 {
          var pulse := Int32(event.time - lastRisingEdge);
          if pulse >= dashMin && pulse <= dashMax {
            Append('-');
          } else if pulse >= dotMin && pulse <= dotMax {
            Append('.');
          }
        }
      }
    }

    /** The task's loop over everything the queue delivers. */
    method Decode(events: seq<Edge>)
      requires Valid()
      modifies `morseIdx, `printed, `lastRisingEdge, `lastFallingEdge, morseBuffer
      ensures Valid() && Times() == old(Times())
      ensures Current() == Fold(Stepper(Times()), old(Current()), events)
    {
      ghost var start := Current();
      assert events[..0] == [];
      for i := 0 to |events|
        invariant Valid() && Times() == old(Times())
        invariant Current() == Fold(Stepper(Times()), start, events[..i])
      {
        FoldNext(Stepper(Times()), start, events, i);
        OnEdge(events[i]);
      }
      assert events[..|events|] == events;
    }
  }

  // ----- Edges of a recording -----

  function EdgePair(rise: int, m: Mark): seq<Edge> {
    [Edge(rise, true), Edge(rise + m.on, false)]
  }

  /** A rising and a falling edge per pulse, the first rising at `start`. */
  function EdgesOf(w: seq<Mark>, start: int): seq<Edge> {
    if w == [] then [] else EdgesOf(w[..|w| - 1], start) + EdgePair(start + Span(w[..|w| - 1]), Last(w))
  }

  ghost predicate Physical(w: seq<Mark>) {
    forall i :: 0 <= i < |w| ==> w[i].on >= 0 && w[i].off >= 0
  }

  lemma {:induction false} SpanNonNegative(w: seq<Mark>)
    requires Physical(w)
    ensures Span(w) >= 0
  {
    if w != [] {
      SpanNonNegative(w[..|w| - 1]);
    }
  }

  lemma TwoSteps(t: Timing, s: State, a: Edge, b: Edge)
    ensures Fold(Stepper(t), s, [a, b]) == Step(t, Step(t, s, a), b)
  {
    FoldSnoc(Stepper(t), s, [a], b);
    FoldSnoc(Stepper(t), s, [], a);
    assert [] + [a] == [a] && [a] + [b] == [a, b];
  }

  ghost predicate Caught(t: Timing, s: State, w: seq<Mark>, start: int) {
    && s.core == Run(EdgeRules(t), w)
    && (w != [] ==> s.lastRise > 0 && s.lastFall > 0 && s.lastFall == start + Span(w) - Last(w).off)
  }

  lemma MarkCaught(t: Timing, s: State, init: seq<Mark>, m: Mark, start: int)
    requires Caught(t, s, init, start) && start > 0 && Span(init) >= 0 && m.on >= 0
    ensures Caught(t, Fold(Stepper(t), s, EdgePair(start + Span(init), m)), init + [m], start)
  {
    var rise := start + Span(init);
    TwoSteps(t, s, Edge(rise, true), Edge(rise + m.on, false));
    if init == [] { assert init + [m] == [m]; }
  }

  lemma EdgesMore(t: Timing, boot: State, init: seq<Mark>, m: Mark, start: int)
    requires Caught(t, Fold(Stepper(t), boot, EdgesOf(init, start)), init, start)
    requires start > 0 && Span(init) >= 0 && m.on >= 0
    ensures Caught(t, Fold(Stepper(t), boot, EdgesOf(init + [m], start)), init + [m], start)
  {
    var all, rise := init + [m], start + Span(init);
    assert all[..|all| - 1] == init;
    assert EdgesOf(all, start) == EdgesOf(init, start) + EdgePair(rise, m);
    FoldConcat(Stepper(t), boot, EdgesOf(init, start), EdgePair(rise, m));
    MarkCaught(t, Fold(Stepper(t), boot, EdgesOf(init, start)), init, m, start);
  }

  /** On the edges of a recording the task computes what its pulses and gaps say, whatever stray
      falling edge the line began with. */
  lemma {:induction false} EdgesRun(t: Timing, boot: State, w: seq<Mark>, start: int)
    requires Physical(w) && start > 0 && boot.core == Core("", "")
    ensures Caught(t, Fold(Stepper(t), boot, EdgesOf(w, start)), w, start)
  {
    if w != [] {
      var init := w[..|w| - 1];
      EdgesRun(t, boot, init, start);
      SpanNonNegative(init);
      EdgesMore(t, boot, init, Last(w), start);
      assert init + [Last(w)] == w;
    }
  }

  // With no pulse begun there is none to end.
  lemma {:induction false} StrayFalls(t: Timing, strays: seq<Edge>)
    requires forall i :: 0 <= i < |strays| ==> !strays[i].rising
    ensures var s := Fold(Stepper(t), BOOT, strays); s.core == Core("", "") && s.lastRise == 0
  {
    if strays != [] { StrayFalls(t, strays[..|strays| - 1]); }
  }

  /** Falling edges from before the first pulse, at whatever times, change nothing. */
  lemma StrayRun(t: Timing, strays: seq<Edge>, w: seq<Mark>, start: int)
    requires (forall i :: 0 <= i < |strays| ==> !strays[i].rising) && Physical(w) && start > 0
    ensures Caught(t, Fold(Stepper(t), BOOT, strays + EdgesOf(w, start)), w, start)
  {
    StrayFalls(t, strays);
    FoldConcat(Stepper(t), BOOT, strays, EdgesOf(w, start));
    EdgesRun(t, Fold(Stepper(t), BOOT, strays), w, start);
  }

  /** A further rising edge, and no falling one yet: the last gap has been judged. */
  lemma RisingRun(t: Timing, boot: State, w: seq<Mark>, start: int)
    requires Physical(w) && start > 0 && boot.core == Core("", "")
    ensures Fold(Stepper(t), boot, EdgesOf(w, start) + [Edge(start + Span(w), true)]).core == Start(EdgeRules(t), w)
  {
    EdgesRun(t, boot, w, start);
    FoldSnoc(Stepper(t), boot, EdgesOf(w, start), Edge(start + Span(w), true));
  }
}
