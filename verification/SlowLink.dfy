/** The slow link as its users see it: a message, the LED's trace over time, and samples of it. */
module SlowLink {
  import opened Folds
  import opened MorseCode
  import opened Waveform
  import opened Decoding
  import opened MorseText
  import opened SampledReceiver
  import opened SampledLink
  import opened SampleLaw
  import opened MorseSender

  // ----- A trace over time, in microseconds from its beginning -----

  function Duration(items: seq<Item>): int {
    if items == [] then 0 else Duration(items[..|items| - 1]) + Last(items).dur
  }

  predicate LevelAt(items: seq<Item>, t: int) {
    if items == [] then false
    else
      var init, it := items[..|items| - 1], Last(items);
      if t >= Duration(init) then it.on && t < Duration(init) + it.dur else LevelAt(init, t)
  }

  /** The silence before the first pulse. */
  function Lead(items: seq<Item>): int {
    if items == [] then 0
    else
      var init, it := items[..|items| - 1], Last(items);
      Lead(init) + if it.on || MarksOf(init) != [] then 0 else it.dur
  }

  ghost predicate Timed(items: seq<Item>) {
    forall k :: 0 <= k < |items| ==> items[k].dur >= 0
  }

  // ----- The same light from the pulses and gaps -----

  predicate PulseAt(ms: seq<Mark>, t: int) {
    if ms == [] then false
    else
      var init := ms[..|ms| - 1];
      Span(init) <= t < Span(init) + Last(ms).on || PulseAt(init, t)
  }

  ghost predicate NonNegative(ms: seq<Mark>) {
    forall i :: 0 <= i < |ms| ==> ms[i].on >= 0 && ms[i].off >= 0
  }

  lemma {:induction false} PulseWithin(ms: seq<Mark>, t: int)
    requires PulseAt(ms, t) && NonNegative(ms)
    ensures t < Span(ms)
  {
    var init := ms[..|ms| - 1];
    if PulseAt(init, t) {
      PulseWithin(init, t);
    }
  }

  // One item more, seen both ways.
  lemma PushLevel(ms: seq<Mark>, it: Item, t: int)
    requires it.dur >= 0 && NonNegative(ms) && (it.on || ms != [])
    ensures NonNegative(Push(ms, it)) && Span(Push(ms, it)) == Span(ms) + it.dur
    ensures PulseAt(Push(ms, it), t) <==> PulseAt(ms, t) || (it.on && Span(ms) <= t < Span(ms) + it.dur)
  {
    var ps := Push(ms, it);
    if it.on && (ms == [] || Last(ms).off != 0) {
      assert ps[..|ps| - 1] == ms;
    } else {
      assert ps[..|ps| - 1] == ms[..|ms| - 1];
    }
  }

  // The step of a trace that is level `lit` at `t`, lasts `dur` so far and began with `lead` of silence.
  lemma LevelStep(ms: seq<Mark>, lead: int, dur: int, lit: bool, it: Item, t: int)
    requires NonNegative(ms) && it.dur >= 0 && dur == lead + Span(ms)
    requires lit <==> PulseAt(ms, t - lead)
    ensures var lead' := lead + if it.on || ms != [] then 0 else it.dur;
      && NonNegative(Push(ms, it)) && dur + it.dur == lead' + Span(Push(ms, it))
      && ((if t >= dur then it.on && t < dur + it.dur else lit) <==> PulseAt(Push(ms, it), t - lead'))
  {
    if it.on || ms != [] {
      PushLevel(ms, it, t - lead);
      if lit {
        PulseWithin(ms, t - lead);
      }
    }
  }

  // The trace with its last item taken off.
  lemma TraceUnfold(items: seq<Item>, t: int)
    requires items != []
    ensures var init, it := items[..|items| - 1], Last(items);
      && Duration(items) == Duration(init) + it.dur
      && LevelAt(items, t) == (if t >= Duration(init) then it.on && t < Duration(init) + it.dur else LevelAt(init, t))
      && Lead(items) == Lead(init) + (if it.on || MarksOf(init) != [] then 0 else it.dur)
      && MarksOf(items) == Push(MarksOf(init), it)
  {
  }

  /** The level of a trace at any time is that of its pulses, shifted by the silence it begins with. */
  lemma {:induction false} TraceLevel(items: seq<Item>, t: int)
    requires Timed(items)
    ensures NonNegative(MarksOf(items)) && Duration(items) == Lead(items) + Span(MarksOf(items)) && Lead(items) >= 0
    ensures LevelAt(items, t) <==> PulseAt(MarksOf(items), t - Lead(items))
  {
    if items != [] {
      var init, it := items[..|items| - 1], Last(items);
      TraceLevel(init, t);
      LevelStep(MarksOf(init), Lead(init), Duration(init), LevelAt(init, t), it, t);
      TraceUnfold(items, t);
    }
  }

  // ----- Microseconds and milliseconds -----

  function Scaled(ms: seq<Mark>): (r: seq<Mark>)
    ensures |r| == |ms| && forall i :: 0 <= i < |ms| ==> r[i] == Mark(1000 * ms[i].on, 1000 * ms[i].off)
  {
    seq(|ms|, i requires 0 <= i < |ms| => Mark(1000 * ms[i].on, 1000 * ms[i].off))
  }

  lemma ScaledToken(ms: seq<Mark>, t: Token, dot: int)
    ensures PutToken(Scaled(ms), t, 1000 * dot) == Scaled(PutToken(ms, t, dot))
  {
    match t
    case Letter(c) =>
    case Pause(units) =>
      assert units * (1000 * dot) == 1000 * (units * dot);
  }

  lemma {:induction false} ScaledIdeal(ts: seq<Token>, dot: int)
    ensures IdealMarks(ts, 1000 * dot) == Scaled(IdealMarks(ts, dot))
  {
    if ts != [] {
      var init := ts[..|ts| - 1];
      ScaledIdeal(init, dot);
      ScaledToken(IdealMarks(init, dot), Last(ts), dot);
    }
  }

  lemma LitSnoc(ms: seq<Mark>, start: int, time: int)
    requires ms != []
    ensures var n := |ms| - 1;
      LitAt(ms, start, time) <==> RiseAt(ms, start, n) <= time < FallAt(ms, start, n) || LitAt(ms[..n], start, time)
  {
    var n := |ms| - 1;
    forall i | 0 <= i < n
      ensures RiseAt(ms, start, i) == RiseAt(ms[..n], start, i) && FallAt(ms, start, i) == FallAt(ms[..n], start, i)
    {
      assert ms[..i] == ms[..n][..i];
    }
  }

  lemma {:induction false} ScaledPulse(ms: seq<Mark>, start: int, time: int)
    ensures Span(Scaled(ms)) == 1000 * Span(ms)
    ensures PulseAt(Scaled(ms), time - start) <==> LitAt(ms, start, time)
  {
    if ms != [] {
      var init := ms[..|ms| - 1];
      assert Scaled(ms)[..|ms| - 1] == Scaled(init);
      ScaledPulse(init, start, time);
      LitSnoc(ms, start, time);
    }
  }

  // ----- The link -----

  lemma {:induction false} CodeItemsTimed(code: string, dot: int)
    requires dot > 0
    ensures Timed(CodeItems(code, dot))
  {
    if code != "" {
      CodeItemsTimed(code[..|code| - 1], dot);
      assert CodeItems(code, dot) == CodeItems(code[..|code| - 1], dot) + SymbolItems(Last(code), dot);
    }
  }

  lemma {:induction false} ItemsTimed(ts: seq<Token>, dot: int)
    requires dot > 0
    ensures Timed(ItemsOf(ts, dot))
  {
    if ts != [] {
      var init, t := ts[..|ts| - 1], Last(ts);
      ItemsTimed(init, dot);
      assert Timed(TokenItems(t, dot)) by {
        match t
        case Letter(c) => CodeItemsTimed(Code(c), dot);
        case Pause(units) => assert units * dot >= 0;
      }
      assert ItemsOf(ts, dot) == ItemsOf(init, dot) + TokenItems(t, dot);
    }
  }

  lemma SenderRecording(ts: seq<Token>)
    ensures Timed(ItemsOf(ts, SLOW_DOT)) && MarksOf(ItemsOf(ts, SLOW_DOT)) == Scaled(IdealMarks(ts, 100))
  {
    ItemsTimed(ts, SLOW_DOT);
    MarksOfTokens(ts, SLOW_DOT);
    ScaledIdeal(ts, 100);
  }

  lemma TraceSpan(items: seq<Item>, ms: seq<Mark>)
    requires Timed(items) && MarksOf(items) == Scaled(ms)
    ensures Duration(items) == Lead(items) + 1000 * Span(ms)
  {
    TraceLevel(items, 0);
    ScaledPulse(ms, 0, 0);
  }

  // The same light, by whatever name the time since the first pulse goes.
  lemma LightAt(marks: seq<Mark>, ms: seq<Mark>, start: int, time: int, since: int)
    requires marks == Scaled(ms) && since == time - start
    ensures PulseAt(marks, since) <==> LitAt(ms, start, time)
  {
    ScaledPulse(ms, start, time);
  }

  lemma TraceLight(items: seq<Item>, ms: seq<Mark>, begin: int, time: int)
    requires Timed(items) && MarksOf(items) == Scaled(ms)
    ensures LevelAt(items, time - begin) <==> LitAt(ms, begin + Lead(items), time)
  {
    TraceLevel(items, time - begin);
    LightAt(MarksOf(items), ms, begin + Lead(items), time, time - begin - Lead(items));
  }

  /** The text the slow link promises: words a space apart, on a new line after two spaces or more. */
  function Printed(message: string, reps: nat): string {
    Page(Join(Words(message), "\n"), reps)
  }

  /** Samples of any phase and pace up to `step`, from before the first pulse until the line has idled
      past the timeout, that see the LED of a trace begun at `begin`. */
  ghost predicate Watched(trace: seq<Item>, begin: int, samples: seq<Sample>, step: int) {
    && Schedule(samples, begin + Lead(trace), step)
    && (forall k :: 0 <= k < |samples| ==> (samples[k].Bright() <==> LevelAt(trace, samples[k].time - begin)))
    && Last(samples).time >= begin + Duration(trace) + 1000 * (TIMEOUT + 1) + step
  }

  lemma TraceReceived(trace: seq<Item>, ts: seq<Token>, begin: int, samples: seq<Sample>, step: int)
    requires Timed(trace) && MarksOf(trace) == Scaled(IdealMarks(ts, 100))
    requires Clear(ts) && 0 < step <= MAX_STEP && Watched(trace, begin, samples, step)
    ensures Fold(Pass, IDLE, samples).core == Ended(Read(ts, Lines()).text)
  {
    var ms, start := IdealMarks(ts, 100), begin + Lead(trace);
    forall k | 0 <= k < |samples| ensures samples[k].Bright() <==> LitAt(ms, start, samples[k].time) {
      TraceLight(trace, ms, begin, samples[k].time);
    }
    if ms != [] {
      IdealPaced(ts);
      LastFall(ms, start);
      TraceSpan(trace, ms);
    }
    SampledText(ts, start, samples, step);
  }

  /** What the slow sender transmits is printed whole, each repetition on lines of its own, and nothing else is;
      sent more than once, the message must begin or end with a space. */
  lemma MessageReceived(message: string, reps: nat, begin: int, samples: seq<Sample>, step: int)
    requires reps == 1 || (reps > 1 && !Trimmed(TokensOf(message)))
    requires 0 < step <= MAX_STEP && Watched(ItemsOf(Transmission(message, reps, REST), SLOW_DOT), begin, samples, step)
    ensures Fold(Pass, IDLE, samples).core == Core(Printed(message, reps), "")
  {
    var ts := Transmission(message, reps, REST);
    SenderRecording(ts);
    ListenIsRead(ts);
    TransmissionHeard(message, reps);
    TraceReceived(ItemsOf(ts, SLOW_DOT), ts, begin, samples, step);
    TransmissionPage(message, reps);
    MessageText(message, Lines(), "\n");
  }
}
