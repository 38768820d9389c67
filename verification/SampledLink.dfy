/** Labs 5.1 and 5.2 end to end: a light driven by the slow sender, seen through samples of any phase. */
module SampledLink {
  import opened Folds
  import opened Waveform
  import opened Decoding
  import opened SampledReceiver

  /** What samples at most `step` microseconds apart cost in whole milliseconds. */
  function Slack(step: int): int {
    (step + 998) / 1000
  }

  // The longest pause between two samples that every message survives.
  const MAX_STEP: int := 49001

  /** Samples no further apart than the shortest pulse and gap last. */
  predicate Quick(step: int) {
    0 < step <= 100000
  }

  /** What the loop makes of a whole gap, its timeout included. */
  function LineRules(): Rules {
    Rules(SampleRules().sym, gap => if gap > TIMEOUT then Cut("\n") else GapBreak(gap))
  }

  // ----- The light over time; recordings in milliseconds, times in microseconds -----

  /** When pulse `i` of a recording begins, the first one at `start`. */
  function RiseAt(ms: seq<Mark>, start: int, i: nat): int
    requires i <= |ms|
  {
    start + 1000 * Span(ms[..i])
  }

  function FallAt(ms: seq<Mark>, start: int, i: nat): int
    requires i < |ms|
  {
    RiseAt(ms, start, i) + 1000 * ms[i].on
  }

  ghost predicate LitAt(ms: seq<Mark>, start: int, time: int) {
    exists i :: 0 <= i < |ms| && RiseAt(ms, start, i) <= time < FallAt(ms, start, i)
  }

  /** Pulses and gaps long enough not to fall between two samples, pulses too short for a timeout. */
  ghost predicate Paced(ms: seq<Mark>) {
    forall i :: 0 <= i < |ms| ==> 100 <= ms[i].on <= 300 && 100 <= ms[i].off
  }

  /** Samples in order, at most `step` apart, the first before the light first comes on. */
  ghost predicate Schedule(samples: seq<Sample>, start: int, step: int) {
    && samples != [] && 1000 <= samples[0].time < start
    && forall k :: 0 < k < |samples| ==> samples[k - 1].time < samples[k].time <= samples[k - 1].time + step
  }

  /** The sensor reads above the threshold exactly while the light is on. */
  ghost predicate Sees(samples: seq<Sample>, ms: seq<Mark>, start: int) {
    forall k :: 0 <= k < |samples| ==> (samples[k].Bright() <==> LitAt(ms, start, samples[k].time))
  }

  lemma RiseNext(ms: seq<Mark>, start: int, i: nat)
    requires i < |ms|
    ensures RiseAt(ms, start, i + 1) == FallAt(ms, start, i) + 1000 * ms[i].off
  {
    assert ms[..i + 1][..i] == ms[..i];
  }

  lemma {:induction false} RiseOrder(ms: seq<Mark>, start: int, i: nat, j: nat)
    requires Paced(ms) && i <= j <= |ms|
    ensures RiseAt(ms, start, i) <= RiseAt(ms, start, j)
    ensures i < j ==> FallAt(ms, start, i) < RiseAt(ms, start, j)
  {
    if i < j {
      RiseOrder(ms, start, i, j - 1);
      RiseNext(ms, start, j - 1);
    }
  }

  lemma DarkBetween(ms: seq<Mark>, start: int, n: nat, time: int)
    requires Paced(ms) && n <= |ms|
    requires n > 0 ==> FallAt(ms, start, n - 1) <= time
    requires n < |ms| ==> time < RiseAt(ms, start, n)
    ensures !LitAt(ms, start, time)
  {
    forall i | 0 <= i < |ms| ensures !(RiseAt(ms, start, i) <= time < FallAt(ms, start, i)) {
      if i < n {
        if i < n - 1 {
          RiseOrder(ms, start, i, n - 1);
        }
      } else {
        RiseOrder(ms, start, n, i);
      }
    }
  }

  // ----- What the task has seen -----

  /** Pulses whose start was seen, measured so far; whether the last is still lit; the sample that saw the last edge. */
  datatype Seen = Seen(w: seq<Mark>, lit: bool, edge: int)

  ghost predicate Close(measured: int, ideal: int, step: int) {
    ideal - Slack(step) <= measured <= ideal + Slack(step)
  }

  /** Everything measured in full is off by no more than the sampling costs. */
  ghost predicate Accurate(ms: seq<Mark>, seen: Seen, step: int) {
    && |seen.w| <= |ms|
    && (forall i :: 0 <= i < |seen.w| - (if seen.lit then 1 else 0) ==> Close(seen.w[i].on, ms[i].on, step))
    && (forall i :: 0 <= i < |seen.w| - 1 ==> Close(seen.w[i].off, ms[i].off, step))
  }

  /** The last edge seen is the last edge there was, found at the first sample after it. */
  ghost predicate UpToDate(ms: seq<Mark>, start: int, seen: Seen, now: int, step: int)
    requires |seen.w| <= |ms|
  {
    var n := |seen.w|;
    if n == 0 then !seen.lit && (ms != [] ==> now < RiseAt(ms, start, 0))
    else
      && 1000 <= seen.edge <= now
      && if seen.lit then RiseAt(ms, start, n - 1) <= seen.edge < RiseAt(ms, start, n - 1) + step
        && now < FallAt(ms, start, n - 1)
         else FallAt(ms, start, n - 1) <= seen.edge < FallAt(ms, start, n - 1) + step
              && (n < |ms| ==> now < RiseAt(ms, start, n))
  }

  ghost predicate Follows(s: Task, seen: Seen, now: int) {
    var n, edge := |seen.w|, seen.edge / 1000;
    if n == 0 then s == IDLE
    else if seen.lit then
      s.lightOn && s.lightStart == edge && s.lastActivity == edge
      && s.core == Start(LineRules(), seen.w[..n - 1])
    else
      var c := Run(LineRules(), seen.w);
      !s.lightOn && s.gapStart == edge
      && if now / 1000 - edge > TIMEOUT then s.core == Flush(c, "\n") else s.core == c && s.lastActivity == edge
  }

  // ----- One sample more -----

  ghost predicate Invariant(ms: seq<Mark>, start: int, s: Task, seen: Seen, now: int, step: int) {
    Quick(step) && Paced(ms) && Accurate(ms, seen, step) && UpToDate(ms, start, seen, now, step)
      && Follows(s, seen, now)
  }

  ghost predicate NextSample(ms: seq<Mark>, start: int, now: int, x: Sample, step: int) {
    1000 <= now < x.time <= now + step && (x.Bright() <==> LitAt(ms, start, x.time))
  }

  // The gap is known now; a new pulse begins.
  function Risen(seen: Seen, gap: int, time: int): Seen
    requires seen.w != []
  {
    Seen(seen.w[..|seen.w| - 1] + [Last(seen.w).(off := gap)] + [Mark(0, 0)], true, time)
  }

  // The pulse is known now.
  function Fallen(seen: Seen, pulse: int, time: int): Seen
    requires seen.w != []
  {
    Seen(seen.w[..|seen.w| - 1] + [Mark(pulse, 0)], false, time)
  }

  // What one sample adds.
  function See(ms: seq<Mark>, start: int, seen: Seen, x: Sample): Seen {
    var k := |seen.w|;
    if seen.lit then
      if 0 < k <= |ms| && FallAt(ms, start, k - 1) <= x.time then Fallen(seen, x.time / 1000 - seen.edge / 1000, x.time)
      else seen
    else if k < |ms| && RiseAt(ms, start, k) <= x.time then
      if k == 0 then Seen([Mark(0, 0)], true, x.time) else Risen(seen, x.time / 1000 - seen.edge / 1000, x.time)
    else seen
  }

  lemma RisenAccurate(ms: seq<Mark>, seen: Seen, gap: int, time: int, step: int)
    requires Accurate(ms, seen, step) && !seen.lit && 0 < |seen.w| < |ms| && Close(gap, ms[|seen.w| - 1].off, step)
    ensures Accurate(ms, Risen(seen, gap, time), step)
  {
  }

  lemma SeeRise(ms: seq<Mark>, start: int, s: Task, seen: Seen, now: int, x: Sample, step: int)
    requires Invariant(ms, start, s, seen, now, step) && NextSample(ms, start, now, x, step)
    requires !seen.lit && 0 < |seen.w| < |ms| && RiseAt(ms, start, |seen.w|) <= x.time
    ensures See(ms, start, seen, x) == Risen(seen, x.time / 1000 - seen.edge / 1000, x.time)
    ensures Invariant(ms, start, Pass(s, x), Risen(seen, x.time / 1000 - seen.edge / 1000, x.time), x.time, step)
  {
    var gap := x.time / 1000 - seen.edge / 1000;
    RiseSeen(ms, start, seen, now, x, step);
    RisenAccurate(ms, seen, gap, x.time, step);
    RisenFollows(s, seen, now, gap, x);
  }

  lemma RiseSeen(ms: seq<Mark>, start: int, seen: Seen, now: int, x: Sample, step: int)
    requires Quick(step) && Paced(ms) && 0 < |seen.w| < |ms| && !seen.lit && UpToDate(ms, start, seen, now, step)
    requires NextSample(ms, start, now, x, step) && RiseAt(ms, start, |seen.w|) <= x.time
    ensures x.Bright() && Close(x.time / 1000 - seen.edge / 1000, ms[|seen.w| - 1].off, step)
  {
    var n := |seen.w|;
    RiseNext(ms, start, n - 1);
  }

  lemma RisenFollows(s: Task, seen: Seen, now: int, gap: int, x: Sample)
    requires seen.w != [] && !seen.lit && 1000 <= seen.edge <= now < x.time && Follows(s, seen, now)
    requires gap == x.time / 1000 - seen.edge / 1000 && x.Bright()
    ensures Follows(Pass(s, x), Risen(seen, gap, x.time), x.time)
  {
    var n, r := |seen.w|, Risen(seen, gap, x.time);
    RunIgnoresLastGap(LineRules(), seen.w, gap);
    assert r.w[..n] == seen.w[..n - 1] + [Last(seen.w).(off := gap)];
  }

  lemma SeeFall(ms: seq<Mark>, start: int, s: Task, seen: Seen, now: int, x: Sample, step: int)
    requires Invariant(ms, start, s, seen, now, step) && NextSample(ms, start, now, x, step)
    requires seen.lit && FallAt(ms, start, |seen.w| - 1) <= x.time
    ensures See(ms, start, seen, x) == Fallen(seen, x.time / 1000 - seen.edge / 1000, x.time)
    ensures Invariant(ms, start, Pass(s, x), Fallen(seen, x.time / 1000 - seen.edge / 1000, x.time), x.time, step)
  {
    var n := |seen.w|;
    var pulse := x.time / 1000 - seen.edge / 1000;
    RiseNext(ms, start, n - 1);
    DarkBetween(ms, start, n, x.time);
    FallenUpToDate(ms, start, seen, now, pulse, x, step);
  }

  lemma FallenUpToDate(ms: seq<Mark>, start: int, seen: Seen, now: int, pulse: int, x: Sample, step: int)
    requires Quick(step) && Paced(ms) && 0 < |seen.w| <= |ms| && 1000 <= now
    requires now < FallAt(ms, start, |seen.w| - 1) <= x.time <= now + step
    ensures UpToDate(ms, start, Fallen(seen, pulse, x.time), x.time, step)
  {
    RiseNext(ms, start, |seen.w| - 1);
  }

  lemma SeeNothing(ms: seq<Mark>, start: int, s: Task, seen: Seen, now: int, x: Sample, step: int)
    requires Invariant(ms, start, s, seen, now, step) && NextSample(ms, start, now, x, step)
    requires if seen.lit then x.time < FallAt(ms, start, |seen.w| - 1)
             else |seen.w| < |ms| ==> x.time < RiseAt(ms, start, |seen.w|)
    ensures See(ms, start, seen, x) == seen && Invariant(ms, start, Pass(s, x), seen, x.time, step)
  {
    var n := |seen.w|;
    if seen.lit {
    } else {
      DarkBetween(ms, start, n, x.time);
    }
  }

  /** What a schedule sees of a recording: each edge at the first sample after it. */
  function Observed(ms: seq<Mark>, start: int, samples: seq<Sample>): Seen {
    if |samples| <= 1 then Seen([], false, 0)
    else See(ms, start, Observed(ms, start, samples[..|samples| - 1]), Last(samples))
  }

  lemma SeeNext(ms: seq<Mark>, start: int, s: Task, seen: Seen, now: int, x: Sample, step: int)
    requires Invariant(ms, start, s, seen, now, step) && NextSample(ms, start, now, x, step)
    ensures Invariant(ms, start, Pass(s, x), See(ms, start, seen, x), x.time, step)
  {
    var k := |seen.w|;
    if seen.lit && FallAt(ms, start, k - 1) <= x.time {
      SeeFall(ms, start, s, seen, now, x, step);
    } else if k == 0 && ms != [] && RiseAt(ms, start, 0) <= x.time {
    } else if !seen.lit && 0 < k < |ms| && RiseAt(ms, start, k) <= x.time {
      SeeRise(ms, start, s, seen, now, x, step);
    } else {
      SeeNothing(ms, start, s, seen, now, x, step);
    }
  }

  /** After any run of samples the task has seen every edge up to now. */
  lemma {:induction false} Track(ms: seq<Mark>, start: int, samples: seq<Sample>, step: int)
    requires Quick(step) && Paced(ms) && Schedule(samples, start, step) && Sees(samples, ms, start)
    ensures Invariant(ms, start, Fold(Pass, IDLE, samples), Observed(ms, start, samples), Last(samples).time, step)
    ensures Last(samples).time >= 1000
  {
    var n := |samples| - 1;
    var init, x := samples[..n], samples[n];
    if n == 0 {
      assert ms[..0] == [];
      DarkBetween(ms, start, 0, x.time);
      assert Fold(Pass, IDLE, init) == IDLE;
    } else {
      Track(ms, start, init, step);
      assert x.Bright() <==> LitAt(ms, start, x.time);
      SeeNext(ms, start, Fold(Pass, IDLE, init), Observed(ms, start, init), Last(init).time, x, step);
    }
  }

  // ----- What is printed once the line has been idle past the timeout -----

  /** Nothing within a letter, a space between words, a new line after two spaces or more. */
  function Lines(): nat -> string {
    units => if units < 7 then "" else if units < 11 then " " else "\n"
  }

  /** Silences clear of the thresholds: six units are the word gap, ten the timeout, to the millisecond. */
  ghost predicate Clear(ts: seq<Token>) {
    forall n :: 0 <= n < |ts| && ts[n].Letter? && Read(ts[..n], Lines()).text != "" ==>
      var quiet := Read(ts[..n], Lines()).quiet; quiet != 6 && quiet != 10
  }

  lemma {:induction false} QuietAtLeastThree(ts: seq<Token>, sep: nat -> string)
    ensures var p := Read(ts, sep); p.text != "" ==> p.quiet >= 3
  {
    if ts != [] { QuietAtLeastThree(ts[..|ts| - 1], sep); }
  }

  lemma LineFits(slack: int, limit: int)
    requires slack <= 49
    ensures Fits(LineRules(), 100, Channel(slack, limit))
    ensures forall units: nat :: units >= 3 && units != 6 && units != 10 ==>
      FitsGap(LineRules(), 100, Channel(slack, limit), Lines(), units)
  {
  }

  lemma ClearFits(ts: seq<Token>, slack: int, limit: int)
    requires Clear(ts) && slack <= 49
    ensures FitsGaps(LineRules(), ts, 100, Channel(slack, limit), Lines())
  {
    LineFits(slack, limit);
    forall n | 0 <= n < |ts| ensures Read(ts[..n], Lines()).text != "" ==> Read(ts[..n], Lines()).quiet >= 3 {
      QuietAtLeastThree(ts[..n], Lines());
    }
  }

  lemma {:induction false} IdealPaced(ts: seq<Token>)
    ensures Paced(IdealMarks(ts, 100))
  {
    if ts != [] {
      IdealPaced(ts[..|ts| - 1]);
      var ms := IdealMarks(ts[..|ts| - 1], 100);
      match Last(ts)
      case Letter(c) =>
      case Pause(units) =>
        assert units * 100 >= 0;
    }
  }

  // The last edge has been seen, and long enough ago.
  lemma AllSeen(ms: seq<Mark>, start: int, s: Task, seen: Seen, now: int, step: int)
    requires Invariant(ms, start, s, seen, now, step) && ms != []
    requires now >= FallAt(ms, start, |ms| - 1) + 1000 * (TIMEOUT + 1) + step
    ensures !seen.lit && |seen.w| == |ms| && now / 1000 - seen.edge / 1000 > TIMEOUT
  {
    var n := |seen.w|;
    if n < |ms| {
      RiseOrder(ms, start, n, |ms| - 1);
      if seen.lit {
        RiseOrder(ms, start, n - 1, |ms| - 1);
      }
      assert false;
    }
  }

  // The gap after the last pulse is never measured; any value will do.
  lemma Complete(ms: seq<Mark>, seen: Seen, step: int) returns (w: seq<Mark>, limit: int)
    requires Accurate(ms, seen, step) && !seen.lit && |seen.w| == |ms| && ms != []
    ensures Measured(ms, w, Channel(Slack(step), limit)) && Run(LineRules(), w) == Run(LineRules(), seen.w)
  {
    var off := Last(ms).off;
    w := seen.w[..|ms| - 1] + [Last(seen.w).(off := off)];
    RunIgnoresLastGap(LineRules(), seen.w, off);
    limit := Longest(w);
  }

  /** Samples in order and close enough together, that see the light of a recording until the line has long idled. */
  ghost predicate Complies(ms: seq<Mark>, start: int, samples: seq<Sample>, step: int) {
    && Schedule(samples, start, step) && Sees(samples, ms, start)
    && (ms != [] ==> Last(samples).time >= FallAt(ms, start, |ms| - 1) + 1000 * (TIMEOUT + 1) + step)
  }

  /** What is printed in the end: the text and a new line, or nothing. */
  function Ended(text: string): Core {
    Core(if text == "" then "" else text + "\n", "")
  }

  /** Whatever the phase and the pace of the samples, the receiver prints what was sent and a final new line. */
  lemma SampledText(ts: seq<Token>, start: int, samples: seq<Sample>, step: int)
    requires Clear(ts) && 0 < step <= MAX_STEP && Complies(IdealMarks(ts, 100), start, samples, step)
    ensures Fold(Pass, IDLE, samples).core == Ended(Read(ts, Lines()).text)
  {
    var ms, text := IdealMarks(ts, 100), Read(ts, Lines()).text;
    IdealPaced(ts);
    IdealGap(ts, 100, Lines());
    Track(ms, start, samples, step);
    var seen := Observed(ms, start, samples);
    if text != "" {
      AllSeen(ms, start, Fold(Pass, IDLE, samples), seen, Last(samples).time, step);
      var w, limit := Complete(ms, seen, step);
      LineFits(Slack(step), limit);
      ClearFits(ts, Slack(step), limit);
      Recovery(LineRules(), ts, w, 100, Channel(Slack(step), limit), Lines());
      DecodedText(Run(LineRules(), w), text);
    }
  }
}
