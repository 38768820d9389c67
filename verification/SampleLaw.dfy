/** Exactly which token streams the slow link prints the same way under every sampling schedule, and how slowly
    it may sample. */
module SampleLaw {
  import opened Folds
  import opened MorseCode
  import opened Waveform
  import opened Decoding
  import opened MorseText
  import opened SampledReceiver
  import opened SampledLink

  // ----- Schedules that see every rise, and every fall, equally late -----

  /** A rise in the time since the last sample was `rise` microseconds ago, a fall `fall`. */
  ghost predicate Prompt(ms: seq<Mark>, start: int, now: int, time: int, rise: int, fall: int) {
    && (forall i :: 0 <= i < |ms| && now < RiseAt(ms, start, i) <= time ==> time == RiseAt(ms, start, i) + rise)
    && (forall i :: 0 <= i < |ms| && now < FallAt(ms, start, i) <= time ==> time == FallAt(ms, start, i) + fall)
  }

  ghost predicate Lags(ms: seq<Mark>, start: int, samples: seq<Sample>, rise: int, fall: int) {
    forall k :: 0 < k < |samples| ==> Prompt(ms, start, samples[k - 1].time, samples[k].time, rise, fall)
  }

  /** By how much such a schedule sees pulses longer, and gaps shorter, in whole milliseconds. */
  function Gain(start: int, rise: int, fall: int): int {
    (start + fall) / 1000 - (start + rise) / 1000
  }

  ghost predicate Exact(ms: seq<Mark>, start: int, seen: Seen, rise: int, fall: int) {
    var n, gain := |seen.w|, Gain(start, rise, fall);
    && n <= |ms|
    && (forall i :: 0 <= i < n - (if seen.lit then 1 else 0) ==> seen.w[i].on == ms[i].on + gain)
    && (forall i :: 0 <= i < n - 1 ==> seen.w[i].off == ms[i].off - gain)
    && (n > 0 ==> seen.edge == if seen.lit then RiseAt(ms, start, n - 1) + rise else FallAt(ms, start, n - 1) + fall)
  }

  lemma WholeMilliseconds(a: int, b: int, base: int, rise: int, fall: int)
    ensures (base + 1000 * a + fall) / 1000 - (base + 1000 * b + rise) / 1000 == a - b + Gain(base, rise, fall)
  {
  }

  lemma PulseSeen(ms: seq<Mark>, start: int, n: nat, rise: int, fall: int)
    requires n < |ms|
    ensures (FallAt(ms, start, n) + fall) / 1000 - (RiseAt(ms, start, n) + rise) / 1000 ==
      ms[n].on + Gain(start, rise, fall)
  {
    WholeMilliseconds(Span(ms[..n]) + ms[n].on, Span(ms[..n]), start, rise, fall);
  }

  lemma GapSeen(ms: seq<Mark>, start: int, n: nat, rise: int, fall: int)
    requires n + 1 < |ms|
    ensures (RiseAt(ms, start, n + 1) + rise) / 1000 - (FallAt(ms, start, n) + fall) / 1000 ==
      ms[n].off - Gain(start, rise, fall)
  {
    RiseNext(ms, start, n);
    WholeMilliseconds(Span(ms[..n]) + ms[n].on, Span(ms[..n]) + ms[n].on + ms[n].off, start, rise, fall);
  }

  lemma ExactFall(ms: seq<Mark>, start: int, seen: Seen, pulse: int, time: int, rise: int, fall: int)
    requires Exact(ms, start, seen, rise, fall) && seen.lit && seen.w != []
    requires pulse == ms[|seen.w| - 1].on + Gain(start, rise, fall) && time == FallAt(ms, start, |seen.w| - 1) + fall
    ensures Exact(ms, start, Fallen(seen, pulse, time), rise, fall)
  {
  }

  lemma ExactRise(ms: seq<Mark>, start: int, seen: Seen, gap: int, time: int, rise: int, fall: int)
    requires Exact(ms, start, seen, rise, fall) && !seen.lit && 0 < |seen.w| < |ms|
    requires gap == ms[|seen.w| - 1].off - Gain(start, rise, fall) && time == RiseAt(ms, start, |seen.w|) + rise
    ensures Exact(ms, start, Risen(seen, gap, time), rise, fall)
  {
  }

  lemma FallNext(ms: seq<Mark>, start: int, seen: Seen, now: int, x: Sample, rise: int, fall: int)
    requires Exact(ms, start, seen, rise, fall) && seen.lit && seen.w != []
    requires now < FallAt(ms, start, |seen.w| - 1) <= x.time && Prompt(ms, start, now, x.time, rise, fall)
    ensures Exact(ms, start, Fallen(seen, x.time / 1000 - seen.edge / 1000, x.time), rise, fall)
  {
    PulseSeen(ms, start, |seen.w| - 1, rise, fall);
    ExactFall(ms, start, seen, x.time / 1000 - seen.edge / 1000, x.time, rise, fall);
  }

  lemma RiseNextSeen(ms: seq<Mark>, start: int, seen: Seen, now: int, x: Sample, rise: int, fall: int)
    requires Exact(ms, start, seen, rise, fall) && !seen.lit && 0 < |seen.w| < |ms|
    requires now < RiseAt(ms, start, |seen.w|) <= x.time && Prompt(ms, start, now, x.time, rise, fall)
    ensures Exact(ms, start, Risen(seen, x.time / 1000 - seen.edge / 1000, x.time), rise, fall)
  {
    GapSeen(ms, start, |seen.w| - 1, rise, fall);
    ExactRise(ms, start, seen, x.time / 1000 - seen.edge / 1000, x.time, rise, fall);
  }

  lemma ExactNext(ms: seq<Mark>, start: int, seen: Seen, now: int, x: Sample, step: int, rise: int, fall: int)
    requires Exact(ms, start, seen, rise, fall) && UpToDate(ms, start, seen, now, step)
    requires Prompt(ms, start, now, x.time, rise, fall)
    ensures Exact(ms, start, See(ms, start, seen, x), rise, fall)
  {
    var n := |seen.w|;
    if seen.lit && FallAt(ms, start, n - 1) <= x.time {
      FallNext(ms, start, seen, now, x, rise, fall);
    } else if !seen.lit && 0 < n < |ms| && RiseAt(ms, start, n) <= x.time {
      RiseNextSeen(ms, start, seen, now, x, rise, fall);
    }
  }

  lemma {:induction false} LagExact(ms: seq<Mark>, start: int, samples: seq<Sample>, step: int, rise: int, fall: int)
    requires Quick(step) && Paced(ms) && Schedule(samples, start, step) && Sees(samples, ms, start)
    requires Lags(ms, start, samples, rise, fall)
    ensures Exact(ms, start, Observed(ms, start, samples), rise, fall)
  {
    var n := |samples| - 1;
    if n > 0 {
      var init := samples[..n];
      LagExact(ms, start, init, step, rise, fall);
      Track(ms, start, init, step);
      assert Prompt(ms, start, samples[n - 1].time, samples[n].time, rise, fall);
      ExactNext(ms, start, Observed(ms, start, init), Last(init).time, Last(samples), step, rise, fall);
    }
  }

  // ----- Longer pulses and shorter gaps, or thresholds moved the other way -----

  function Shift(ms: seq<Mark>, gain: int): (w: seq<Mark>)
    ensures |w| == |ms| && forall i :: 0 <= i < |ms| ==> w[i] == Mark(ms[i].on + gain, ms[i].off - gain)
  {
    seq(|ms|, i requires 0 <= i < |ms| => Mark(ms[i].on + gain, ms[i].off - gain))
  }

  function Moved(r: Rules, gain: int): Rules {
    Rules(pulse => r.sym(pulse + gain), gap => r.brk(gap - gain))
  }

  lemma {:induction false} RunShift(r: Rules, ms: seq<Mark>, gain: int)
    ensures Run(r, Shift(ms, gain)) == Run(Moved(r, gain), ms)
    ensures Start(r, Shift(ms, gain)) == Start(Moved(r, gain), ms)
  {
    if ms != [] {
      var n := |ms| - 1;
      assert Shift(ms, gain)[..n] == Shift(ms[..n], gain);
      RunShift(r, ms[..n], gain);
    }
  }

  lemma ShiftSame(ms: seq<Mark>, w: seq<Mark>, gain: int)
    requires |w| == |ms| && ms != [] && forall i :: 0 <= i < |ms| ==> w[i].on == ms[i].on + gain
    requires forall i :: 0 <= i < |ms| - 1 ==> w[i].off == ms[i].off - gain
    ensures w[..|w| - 1] + [Last(w).(off := Last(ms).off - gain)] == Shift(ms, gain)
  {
  }

  // The last gap is not measured.
  lemma ShiftRun(ms: seq<Mark>, w: seq<Mark>, gain: int)
    requires |w| == |ms| && ms != [] && forall i :: 0 <= i < |ms| ==> w[i].on == ms[i].on + gain
    requires forall i :: 0 <= i < |ms| - 1 ==> w[i].off == ms[i].off - gain
    ensures Run(LineRules(), w) == Run(Moved(LineRules(), gain), ms)
  {
    ShiftSame(ms, w, gain);
    RunIgnoresLastGap(LineRules(), w, Last(ms).off - gain);
    RunShift(LineRules(), ms, gain);
  }

  /** Such a schedule prints what an edge decoder with thresholds moved makes of the recording. */
  lemma LagRun(ms: seq<Mark>, start: int, samples: seq<Sample>, step: int, rise: int, fall: int)
    requires Quick(step) && Paced(ms) && ms != [] && Complies(ms, start, samples, step)
    requires Lags(ms, start, samples, rise, fall)
    ensures Fold(Pass, IDLE, samples).core == Flush(Run(Moved(LineRules(), Gain(start, rise, fall)), ms), "\n")
  {
    Track(ms, start, samples, step);
    LagExact(ms, start, samples, step, rise, fall);
    var seen := Observed(ms, start, samples);
    AllSeen(ms, start, Fold(Pass, IDLE, samples), seen, Last(samples).time, step);
    ShiftRun(ms, seen.w, Gain(start, rise, fall));
  }

  // ----- A sample every microsecond, those at a rise left out or not -----

  ghost predicate IsRise(ms: seq<Mark>, start: int, time: int) {
    exists i :: 0 <= i < |ms| && RiseAt(ms, start, i) == time
  }

  ghost function SampleAt(ms: seq<Mark>, start: int, time: int): Sample {
    Sample(time, if LitAt(ms, start, time) then LIGHT_THRESHOLD + 1 else 0)
  }

  ghost function AddSample(ms: seq<Mark>, start: int, samples: seq<Sample>, time: int, late: bool): seq<Sample> {
    if late && IsRise(ms, start, time) then samples else samples + [SampleAt(ms, start, time)]
  }

  lemma NoRiseAtFall(ms: seq<Mark>, start: int, i: nat)
    requires Paced(ms) && i < |ms|
    ensures !IsRise(ms, start, FallAt(ms, start, i))
  {
    forall j | 0 <= j < |ms| ensures RiseAt(ms, start, j) != FallAt(ms, start, i) {
      if i < j { RiseOrder(ms, start, i, j); } else { RiseOrder(ms, start, j, i); }
    }
  }

  lemma RisesApart(ms: seq<Mark>, start: int, time: int)
    requires Paced(ms) && IsRise(ms, start, time)
    ensures !IsRise(ms, start, time - 1) && time >= start
  {
    var i :| 0 <= i < |ms| && RiseAt(ms, start, i) == time;
    RiseOrder(ms, start, 0, i);
    assert ms[..0] == [];
    forall j | 0 <= j < |ms| ensures RiseAt(ms, start, j) != time - 1 {
      if i < j { RiseOrder(ms, start, i, j); } else { RiseOrder(ms, start, j, i); }
    }
  }

  // The next sample is a microsecond later, or two with a rise in between.
  lemma NextPrompt(ms: seq<Mark>, start: int, now: int, time: int, late: bool)
    requires Paced(ms) && (late ==> !IsRise(ms, start, time))
    requires time == now + 1 || (late && time == now + 2 && IsRise(ms, start, time - 1))
    ensures Prompt(ms, start, now, time, if late then 1 else 0, 0)
  {
    forall i | 0 <= i < |ms| && now < RiseAt(ms, start, i) <= time
      ensures time == RiseAt(ms, start, i) + if late then 1 else 0
    {
      assert IsRise(ms, start, RiseAt(ms, start, i));
    }
    forall i | 0 <= i < |ms| && now < FallAt(ms, start, i) <= time ensures time == FallAt(ms, start, i) {
      NoRiseAtFall(ms, start, i);
    }
  }

  /** In order, near each other, true to the light, and every rise, and every fall, seen equally late. */
  ghost predicate Even(ms: seq<Mark>, start: int, samples: seq<Sample>, late: bool) {
    && Schedule(samples, start, if late then 2 else 1) && Sees(samples, ms, start)
    && Lags(ms, start, samples, if late then 1 else 0, 0)
  }

  lemma EvenMore(ms: seq<Mark>, start: int, samples: seq<Sample>, x: Sample, late: bool)
    requires Even(ms, start, samples, late) && x == SampleAt(ms, start, x.time)
    requires Last(samples).time < x.time <= Last(samples).time + if late then 2 else 1
    requires Prompt(ms, start, Last(samples).time, x.time, if late then 1 else 0, 0)
    ensures Even(ms, start, samples + [x], late)
  {
    var all := samples + [x];
    forall k | 0 < k < |all|
      ensures all[k - 1].time < all[k].time <= all[k - 1].time + if late then 2 else 1
      ensures Prompt(ms, start, all[k - 1].time, all[k].time, if late then 1 else 0, 0)
    {
      if k < |samples| { assert all[k] == samples[k] && all[k - 1] == samples[k - 1]; }
    }
  }

  /** Samples of this kind of the time up to `end`. */
  ghost predicate Until(ms: seq<Mark>, start: int, samples: seq<Sample>, end: int, late: bool) {
    && samples != [] && Even(ms, start, samples, late)
    && Last(samples).time == if late && IsRise(ms, start, end) then end - 1 else end
  }

  lemma FirstEven(ms: seq<Mark>, start: int, late: bool)
    requires Paced(ms) && start >= 1001
    ensures Until(ms, start, [SampleAt(ms, start, start - 1)], start - 1, late)
  {
    if IsRise(ms, start, start - 1) { RisesApart(ms, start, start - 1); }
  }

  lemma EvenNext(ms: seq<Mark>, start: int, samples: seq<Sample>, end: int, late: bool)
    requires Paced(ms) && Until(ms, start, samples, end - 1, late)
    ensures Until(ms, start, AddSample(ms, start, samples, end, late), end, late)
  {
    if late && IsRise(ms, start, end) {
      RisesApart(ms, start, end);
    } else {
      NextPrompt(ms, start, Last(samples).time, end, late);
      EvenMore(ms, start, samples, SampleAt(ms, start, end), late);
    }
  }

  lemma {:induction false} LateEven(ms: seq<Mark>, start: int, end: int, late: bool) returns (samples: seq<Sample>)
    requires Paced(ms) && 1001 <= start <= end + 1
    ensures Until(ms, start, samples, end, late)
    decreases end - start + 1
  {
    if end == start - 1 {
      samples := [SampleAt(ms, start, start - 1)];
      FirstEven(ms, start, late);
    } else {
      var before := LateEven(ms, start, end - 1, late);
      samples := AddSample(ms, start, before, end, late);
      EvenNext(ms, start, before, end, late);
    }
  }

  lemma LastFall(ms: seq<Mark>, start: int)
    requires Paced(ms) && ms != []
    ensures FallAt(ms, start, |ms| - 1) <= start + 1000 * Span(ms)
  {
    var n := |ms| - 1;
    assert Span(ms) == Span(ms[..n]) + ms[n].on + ms[n].off;
  }

  lemma {:induction false} PacedSpan(ms: seq<Mark>)
    requires Paced(ms)
    ensures Span(ms) >= 0
  {
    if ms != [] { PacedSpan(ms[..|ms| - 1]); }
  }

  lemma EvenComplies(ms: seq<Mark>, start: int, samples: seq<Sample>, end: int, late: bool, step: int)
    requires Paced(ms) && Until(ms, start, samples, end, late) && (if late then 2 else 1) <= step
    requires end > start + 1000 * Span(ms) + 1000 * (TIMEOUT + 1) + step
    ensures Complies(ms, start, samples, step)
  {
    if ms != [] { LastFall(ms, start); }
  }

  /** How silences read when each is a millisecond longer. */
  function LateLines(): nat -> string {
    units => if units < 6 then "" else if units < 10 then " " else "\n"
  }

  /** How silences read under this schedule. */
  function Reading(late: bool): nat -> string {
    if late then LateLines() else Lines()
  }

  lemma MovedGap(units: nat, limit: int, late: bool)
    requires units >= 3
    ensures FitsGap(Moved(LineRules(), if late then -1 else 0), 100, Channel(0, limit), Reading(late), units)
  {
  }

  lemma MovedFits(ts: seq<Token>, limit: int, late: bool)
    ensures var r := Moved(LineRules(), if late then -1 else 0);
      Fits(r, 100, Channel(0, limit)) && FitsGaps(r, ts, 100, Channel(0, limit), Reading(late))
  {
    var r, ch := Moved(LineRules(), if late then -1 else 0), Channel(0, limit);
    forall n | 0 <= n < |ts| && ts[n].Letter? && Read(ts[..n], Reading(late)).text != ""
      ensures FitsGap(r, 100, ch, Reading(late), Read(ts[..n], Reading(late)).quiet)
    {
      QuietAtLeastThree(ts[..n], Reading(late));
      MovedGap(Read(ts[..n], Reading(late)).quiet, limit, late);
    }
  }

  lemma MovedText(ts: seq<Token>, late: bool)
    requires Read(ts, Reading(late)).text != ""
    ensures var r, text := Moved(LineRules(), if late then -1 else 0), Read(ts, Reading(late)).text;
      Flush(Run(r, IdealMarks(ts, 100)), "\n") == Ended(text) && IdealMarks(ts, 100) != []
  {
    var r, ms := Moved(LineRules(), if late then -1 else 0), IdealMarks(ts, 100);
    var limit := Longest(ms);
    IdealGap(ts, 100, Reading(late));
    MovedFits(ts, limit, late);
    Recovery(r, ts, ms, 100, Channel(0, limit), Reading(late));
    DecodedText(Run(r, ms), Read(ts, Reading(late)).text);
  }

  /** There is a schedule that reads every silence for what it is, and, if samples may be two microseconds apart, one
      that reads each as a millisecond longer. */
  lemma LateText(ts: seq<Token>, step: int, late: bool) returns (start: int, samples: seq<Sample>)
    requires (if late then 2 else 1) <= step
    ensures Complies(IdealMarks(ts, 100), start, samples, step)
    ensures var text := Read(ts, Reading(late)).text; text != "" ==> Fold(Pass, IDLE, samples).core == Ended(text)
  {
    var ms := IdealMarks(ts, 100);
    // Just before a whole millisecond.
    start := 1000999;
    IdealPaced(ts);
    PacedSpan(ms);
    var end := start + 1000 * Span(ms) + 1000 * (TIMEOUT + 1) + step + 1;
    samples := LateEven(ms, start, end, late);
    EvenComplies(ms, start, samples, end, late, step);
    if Read(ts, Reading(late)).text != "" {
      MovedText(ts, late);
      EvenComplies(ms, start, samples, end, late, if late then 2 else 1);
      LagRun(ms, start, samples, if late then 2 else 1, if late then 1 else 0, 0);
    }
  }

  /** With a sample every microsecond nothing is late. */
  lemma FineText(ts: seq<Token>, start: int, samples: seq<Sample>)
    requires Complies(IdealMarks(ts, 100), start, samples, 1)
    ensures Fold(Pass, IDLE, samples).core == Ended(Read(ts, Lines()).text)
  {
    var ms := IdealMarks(ts, 100);
    IdealPaced(ts);
    if Read(ts, Lines()).text == "" {
      IdealGap(ts, 100, Lines());
      Track(ms, start, samples, 1);
    } else {
      MovedText(ts, false);
      LagRun(ms, start, samples, 1, 0, 0);
    }
  }

  // ----- Telling the two readings apart -----

  lemma Cancel(a: string, b: string, end: string)
    ensures a + end == b + end <==> a == b
  {
    if a + end == b + end {
      assert (a + end)[..|a|] == a && (b + end)[..|b|] == b;
    }
  }

  // Texts that end in letters, with separators behind them.
  lemma Behind(a: string, b: string, s: string, t: string)
    requires a != "" && b != "" && IsLetter(Last(a)) && IsLetter(Last(b))
    requires (s == "" && t == " ") || (s == " " && t == "\n")
    ensures a + s != b + t
  {
    assert Last(b + t) == t[0];
    assert Last(a + s) == if s == "" then Last(a) else s[0];
  }

  /** A further letter's separator. */
  predicate Told(quiet: nat) {
    quiet != 6 && quiet != 10
  }

  lemma TextsStep(p: Prose, q: Prose, c: Glyph)
    requires p.quiet == q.quiet && (p.text == "" <==> q.text == "")
    requires p.text != "" ==> IsLetter(Last(p.text)) && IsLetter(Last(q.text))
    ensures ReadToken(p, Letter(c), Lines()).text == ReadToken(q, Letter(c), LateLines()).text
        <==> p.text == q.text && (p.text != "" ==> Told(p.quiet))
  {
    if p.text != "" {
      var s, t := Lines()(p.quiet), LateLines()(p.quiet);
      Cancel(p.text + s, q.text + t, [c]);
      if s == t { Cancel(p.text, q.text, s); } else { Behind(p.text, q.text, s, t); }
    }
  }

  lemma ClearNext(ts: seq<Token>, t: Token)
    ensures Clear(ts + [t]) <==>
      Clear(ts) && (t.Letter? && Read(ts, Lines()).text != "" ==> Told(Read(ts, Lines()).quiet))
  {
    var all := ts + [t];
    assert all[..|ts|] == ts;
    assert forall k :: 0 <= k < |ts| ==> all[..k] == ts[..k] && all[k] == ts[k];
    if Clear(all) {
      forall n | 0 <= n < |ts| && ts[n].Letter? && Read(ts[..n], Lines()).text != ""
        ensures Told(Read(ts[..n], Lines()).quiet) {
        assert all[n].Letter?;
      }
    }
  }

  /** The two readings of a stream agree exactly when no silence within it is on a threshold. */
  lemma {:induction false} SameText(ts: seq<Token>)
    ensures var p, q := Read(ts, Lines()), Read(ts, LateLines());
      && p.quiet == q.quiet && (p.text == "" <==> q.text == "")
      && (p.text != "" ==> IsLetter(Last(p.text)) && IsLetter(Last(q.text)))
      && (p.text == q.text <==> Clear(ts))
  {
    if ts != [] {
      var init, t := ts[..|ts| - 1], Last(ts);
      assert ts == init + [t];
      SameText(init);
      ReadOne(init, t, Lines());
      ReadOne(init, t, LateLines());
      ClearNext(init, t);
      match t
      case Letter(c) => TextsStep(Read(init, Lines()), Read(init, LateLines()), c);
      case Pause(units) =>
    }
  }

  /** Every complying schedule makes the receiver print the stream's text and a final new line. */
  ghost predicate AlwaysPrinted(ts: seq<Token>, step: int) {
    forall start: int, samples: seq<Sample> | Complies(IdealMarks(ts, 100), start, samples, step) ::
      Fold(Pass, IDLE, samples).core == Ended(Read(ts, Lines()).text)
  }

  /** No two complying schedules make the receiver print different things. */
  ghost predicate Decided(ts: seq<Token>, step: int) {
    forall start: int, samples: seq<Sample>, other: int, others: seq<Sample> |
        Complies(IdealMarks(ts, 100), start, samples, step) && Complies(IdealMarks(ts, 100), other, others, step) ::
      Fold(Pass, IDLE, samples).core == Fold(Pass, IDLE, others).core
  }

  lemma Undecided(ts: seq<Token>, step: int)
    requires 2 <= step && !Clear(ts)
    ensures !Decided(ts, step) && !AlwaysPrinted(ts, step)
  {
    SameText(ts);
    var start, samples := LateText(ts, step, true);
    var other, others := LateText(ts, step, false);
    var p, q := Read(ts, Lines()).text, Read(ts, LateLines()).text;
    assert p != q && p != "" && q != "";
    Cancel(p, q, "\n");
    assert Fold(Pass, IDLE, samples).core == Ended(q) != Ended(p) == Fold(Pass, IDLE, others).core;
  }

  /** A token stream is printed the same way under every schedule, and that is its text, if and only if no silence
      between two of its letters lasts exactly six units, the word threshold, or exactly ten, the timeout; but for a
      sample every microsecond, which sees all silences as they are. */
  lemma ScheduleLaw(ts: seq<Token>, step: int)
    requires 0 < step <= MAX_STEP
    ensures AlwaysPrinted(ts, step) <==> step == 1 || Clear(ts)
    ensures Decided(ts, step) <==> step == 1 || Clear(ts)
  {
    if step == 1 || Clear(ts) {
      forall start: int, samples: seq<Sample> | Complies(IdealMarks(ts, 100), start, samples, step)
        ensures Fold(Pass, IDLE, samples).core == Ended(Read(ts, Lines()).text)
      {
        if Clear(ts) { SampledText(ts, start, samples, step); } else { FineText(ts, start, samples); }
      }
    } else {
      Undecided(ts, step);
    }
  }

  // ----- Repeated messages -----

  // Lab 5.1's rest between repetitions, in units.
  const REST: nat := 7

  /** Among a message's supported characters, the first and the last are no spaces. */
  predicate Trimmed(ts: seq<Token>) {
    ts != [] && ts[0].Letter? && Last(ts).Letter?
  }

  /** What matters of a reading: any text yet, the silence since, and whether all silences so far could be told. */
  datatype Quiets = Quiets(any: bool, quiet: nat, clear: bool)

  function Listen(q: Quiets, t: Token): Quiets {
    match t
    case Letter(_) => Quiets(true, 3, q.clear && (q.any ==> Told(q.quiet)))
    case Pause(units) => q.(quiet := q.quiet + units)
  }

  const SILENT := Quiets(false, 0, true)

  lemma {:induction false} ListenIsRead(ts: seq<Token>)
    ensures Fold(Listen, SILENT, ts) == Quiets(Read(ts, Lines()).text != "", Read(ts, Lines()).quiet, Clear(ts))
  {
    if ts != [] {
      var init, t := ts[..|ts| - 1], Last(ts);
      assert ts == init + [t];
      ListenIsRead(init);
      ReadOne(init, t, Lines());
      ClearNext(init, t);
    }
  }

  predicate AllPauses(ts: seq<Token>) {
    forall i :: 0 <= i < |ts| ==> ts[i].Pause?
  }

  ghost predicate Spaced(ts: seq<Token>) {
    forall i :: 0 <= i < |ts| && ts[i].Pause? ==> ts[i].units == 4
  }

  /** How many spaces come before the first letter. */
  function Leading(ts: seq<Token>): nat {
    if ts == [] then 0
    else
      var init := ts[..|ts| - 1];
      if AllPauses(init) && Last(ts).Pause? then |ts| else Leading(init)
  }

  lemma {:induction false} LeadingPauses(ts: seq<Token>)
    ensures AllPauses(ts) ==> Leading(ts) == |ts|
    ensures !AllPauses(ts) ==> (Leading(ts) == 0 <==> ts[0].Letter?)
  {
    if ts != [] {
      LeadingPauses(ts[..|ts| - 1]);
      assert AllPauses(ts) <==> AllPauses(ts[..|ts| - 1]) && Last(ts).Pause?;
    }
  }

  // A message heard behind whatever came before.
  lemma {:induction false} MessageHeard(q: Quiets, ts: seq<Token>)
    requires Spaced(ts)
    ensures var r := Fold(Listen, q, ts);
      && (AllPauses(ts) ==> r == q.(quiet := q.quiet + 4 * |ts|))
      && (!AllPauses(ts) ==>
            && r.any && r.quiet >= 3 && r.quiet % 4 == 3 && (r.quiet == 3 <==> Last(ts).Letter?)
            && r.clear == (q.clear && (q.any ==> Told(q.quiet + 4 * Leading(ts)))))
  {
    if ts != [] {
      var init := ts[..|ts| - 1];
      MessageHeard(q, init);
      LeadingPauses(init);
      assert AllPauses(ts) <==> AllPauses(init) && Last(ts).Pause?;
    }
  }

  lemma {:induction false} MessagePauses(message: string)
    ensures forall i :: 0 <= i < |TokensOf(message)| && TokensOf(message)[i].Pause? ==> TokensOf(message)[i].units == 4
  {
    if message != "" {
      MessagePauses(message[..|message| - 1]);
      assert TokensOf(message) == TokensOf(message[..|message| - 1]) + TokenOf(Last(message));
    }
  }

  // The rest and the message once more, behind a repetition.
  lemma RepetitionHeard(q: Quiets, ts: seq<Token>)
    requires Spaced(ts) && !AllPauses(ts) && q.any && q.quiet >= 3 && q.quiet % 4 == 3
    requires q.quiet == 3 <==> Last(ts).Letter?
    ensures var r := Fold(Listen, Listen(q, Pause(REST)), ts);
      r.any && r.quiet >= 3 && r.quiet % 4 == 3 && (r.quiet == 3 <==> Last(ts).Letter?)
        && r.clear == (q.clear && !Trimmed(ts))
  {
    MessageHeard(Listen(q, Pause(REST)), ts);
    LeadingPauses(ts);
  }

  lemma {:induction false} TransmissionHeard(message: string, reps: nat)
    requires reps >= 1
    ensures var ts, r := TokensOf(message), Fold(Listen, SILENT, Transmission(message, reps, REST));
      && (AllPauses(ts) ==> !r.any && r.clear)
      && (!AllPauses(ts) ==>
            && r.any && r.quiet >= 3 && r.quiet % 4 == 3 && (r.quiet == 3 <==> Last(ts).Letter?)
            && r.clear == (reps == 1 || !Trimmed(ts)))
  {
    var ts := TokensOf(message);
    MessagePauses(message);
    if reps == 1 {
      MessageHeard(SILENT, ts);
    } else {
      TransmissionHeard(message, reps - 1);
      var before := Transmission(message, reps - 1, REST);
      var q := Fold(Listen, SILENT, before);
      FoldSnoc(Listen, SILENT, before, Pause(REST));
      FoldConcat(Listen, SILENT, before + [Pause(REST)], ts);
      if AllPauses(ts) { MessageHeard(Listen(q, Pause(REST)), ts); } else { RepetitionHeard(q, ts); }
    }
  }

  /** The rest between repetitions lasts exactly as long as the timeout: a message sent several times is printed
      the same way under every schedule if and only if it begins or ends with a space, which stretches the rest,
      or has nothing to print. */
  lemma RepeatLaw(message: string, reps: nat, step: int)
    requires reps >= 1
    requires 0 < step <= MAX_STEP
    ensures var ts := Transmission(message, reps, REST);
      && (AlwaysPrinted(ts, step) <==> step == 1 || reps == 1 || !Trimmed(TokensOf(message)))
      && (Decided(ts, step) <==> step == 1 || reps == 1 || !Trimmed(TokensOf(message)))
  {
    var ts := TokensOf(message);
    ScheduleLaw(Transmission(message, reps, REST), step);
    ListenIsRead(Transmission(message, reps, REST));
    TransmissionHeard(message, reps);
  }

  // ----- What repetitions print when they print it reliably -----

  lemma BehindLetter(before: string, alone: Prose, r: Prose, c: Glyph)
    requires alone.text != "" && r.quiet == alone.quiet && r.text == before + alone.text
    ensures ReadToken(r, Letter(c), Lines()).text == before + ReadToken(alone, Letter(c), Lines()).text
  {
    var sep := Lines()(r.quiet);
    assert before + alone.text + sep + [c] == before + (alone.text + sep + [c]);
  }

  lemma AllPausesNext(ts: seq<Token>)
    requires ts != []
    ensures AllPauses(ts) <==> AllPauses(ts[..|ts| - 1]) && Last(ts).Pause?
  {
  }

  // A message read behind other text.
  lemma {:induction false} ReadBehind(p: Prose, ts: seq<Token>)
    requires p.text != "" && Spaced(ts)
    ensures var r, alone := Fold(Reader(Lines()), p, ts), Read(ts, Lines());
      && (AllPauses(ts) ==> r == p.(quiet := p.quiet + 4 * |ts|) && alone.text == "")
      && (!AllPauses(ts) ==>
            && alone.text != "" && r.quiet == alone.quiet
            && r.text == p.text + Lines()(p.quiet + 4 * Leading(ts)) + alone.text)
  {
    if ts != [] {
      var init, t := ts[..|ts| - 1], Last(ts);
      ReadBehind(p, init);
      LeadingPauses(init);
      AllPausesNext(ts);
      if t.Letter? && !AllPauses(init) {
        BehindLetter(p.text + Lines()(p.quiet + 4 * Leading(init)), Read(init, Lines()),
          Fold(Reader(Lines()), p, init), t.c);
      }
    }
  }

  /** One line of text per repetition; no text, no lines. */
  function Page(text: string, reps: nat): string {
    if text == "" || reps == 0 then "" else Page(text, reps - 1) + text + "\n"
  }

  lemma PageOne(text: string)
    ensures Page(text, 1) == if text == "" then "" else text + "\n"
  {
    assert Page(text, 0) == "";
  }

  lemma PageMore(p: Prose, ts: seq<Token>, reps: nat)
    requires Spaced(ts) && !AllPauses(ts) && !Trimmed(ts) && p.text != ""
    requires p.quiet >= 3 && p.quiet % 4 == 3 && (p.quiet == 3 <==> Last(ts).Letter?)
    requires p.text + "\n" == Page(Read(ts, Lines()).text, reps)
    ensures var r := Fold(Reader(Lines()), ReadToken(p, Pause(REST), Lines()), ts);
      r.text != "" && r.text + "\n" == Page(Read(ts, Lines()).text, reps + 1)
  {
    var q := ReadToken(p, Pause(REST), Lines());
    ReadBehind(q, ts);
    LeadingPauses(ts);
    assert Lines()(q.quiet + 4 * Leading(ts)) == "\n";
  }

  lemma TransmissionReads(message: string, reps: nat)
    requires reps >= 1
    ensures var ts, p := TokensOf(message), Read(Transmission(message, reps, REST), Lines());
      && (p.text == "" <==> AllPauses(ts))
      && (p.text != "" ==> p.quiet >= 3 && p.quiet % 4 == 3 && (p.quiet == 3 <==> Last(ts).Letter?))
  {
    ListenIsRead(Transmission(message, reps, REST));
    TransmissionHeard(message, reps);
  }

  lemma TransmissionMore(message: string, reps: nat)
    requires reps >= 1
    ensures var f, before := Reader(Lines()), Transmission(message, reps, REST);
      Read(Transmission(message, reps + 1, REST), Lines())
        == Fold(f, ReadToken(Read(before, Lines()), Pause(REST), Lines()), TokensOf(message))
  {
    var before := Transmission(message, reps, REST);
    ReadOne(before, Pause(REST), Lines());
    FoldConcat(Reader(Lines()), Prose("", 0), before + [Pause(REST)], TokensOf(message));
  }

  /** Each repetition is printed on lines of its own. */
  ghost predicate Paged(message: string, reps: nat) {
    var text, whole := Read(TokensOf(message), Lines()).text, Read(Transmission(message, reps, REST), Lines()).text;
    (if whole == "" then "" else whole + "\n") == Page(text, reps)
  }

  lemma PagedMore(message: string, reps: nat)
    requires reps >= 1 && !Trimmed(TokensOf(message)) && !AllPauses(TokensOf(message)) && Paged(message, reps)
    ensures Paged(message, reps + 1)
  {
    TransmissionReads(message, reps);
    MessagePauses(message);
    PageMore(Read(Transmission(message, reps, REST), Lines()), TokensOf(message), reps);
    TransmissionMore(message, reps);
  }

  lemma {:induction false} TransmissionPage(message: string, reps: nat)
    requires reps == 1 || (reps > 1 && !Trimmed(TokensOf(message)))
    ensures Paged(message, reps)
  {
    if reps == 1 {
      PageOne(Read(TokensOf(message), Lines()).text);
    } else if AllPauses(TokensOf(message)) {
      TransmissionReads(message, reps);
      TransmissionReads(message, 1);
    } else {
      TransmissionPage(message, reps - 1);
      PagedMore(message, reps - 1);
    }
  }
}
