/** Lab 5.3 end to end: a sender with one clock, a receiver with another, and jitter in between. */
module FastLink {
  import opened Options
  import opened Folds
  import opened MorseCode
  import opened Waveform
  import opened Decoding
  import opened MorseText
  import opened BatchDecoding
  import opened EdgeReceiver

  // Units of extra silence between repetitions: two word gaps.
  const REST: nat := 14

  function Spacing(): nat -> string {
    units => if units < 7 then "" else " "
  }

  /** The text the link promises: the normal form, once per repetition. */
  function Expected(message: string, reps: nat): string {
    if NormalForm(message) == "" then "" else Copies(NormalForm(message), reps)
  }

  /** Clock mismatch and jitter together stay inside the tolerance, and word gaps still look like word gaps. */
  predicate Compatible(ds: int, dr: int, tol: int, jitter: int) {
    3 * Abs(ds - dr) + jitter <= tol && 6 * dr + jitter < 7 * ds
  }

  function Abs(x: int): int {
    if x < 0 then -x else x
  }

  /** Dots of `ds` and `dr` microseconds that an int can hold seven times over, windows that do not touch. */
  predicate Sensible(ds: int, dr: int, tol: int, jitter: int) {
    0 <= jitter < ds && 0 <= tol < dr && 7 * ds + jitter <= INT_MAX && 7 * dr <= INT_MAX
  }

  /** Time stamps are exact up to the jitter, and their differences fit an int. */
  function Line(jitter: int): Channel {
    Channel(jitter, INT_MAX)
  }

  /** Every message, any number of times, through every channel of this jitter. */
  ghost predicate Recovers(ds: int, dr: int, tol: int, jitter: int) {
    forall message: string, reps: nat, w: seq<Mark> ::
      reps >= 1 && Physical(w) && Measured(IdealMarks(Transmission(message, reps, REST), ds), w, Line(jitter)) ==>
      Text(Run(EdgeRules(TimingFor(dr, tol)), w)) == Expected(message, reps)
  }

  lemma Int32Same(x: int)
    requires -INT_MAX <= x <= INT_MAX
    ensures Int32(x) == x
  {
  }

  // ----- Sufficient -----

  lemma CompatibleFits(ds: int, dr: int, tol: int, jitter: int)
    requires Sensible(ds, dr, tol, jitter) && Compatible(ds, dr, tol, jitter)
    ensures Fits(EdgeRules(TimingFor(dr, tol)), ds, Line(jitter))
  {
    var r := EdgeRules(TimingFor(dr, tol));
    forall p | Near(p, ds, Line(jitter)) ensures r.sym(p) == Some('.') && r.brk(p) == Keep { Int32Same(p); }
    forall p | Near(p, 3 * ds, Line(jitter)) ensures r.sym(p) == Some('-') { Int32Same(p); }
  }

  lemma GapFits(ds: int, dr: int, tol: int, jitter: int, units: nat, silence: int, g: int)
    requires Sensible(ds, dr, tol, jitter) && Compatible(ds, dr, tol, jitter)
    requires Near(g, silence, Line(jitter))
    requires (units == 3 && silence == 3 * ds) || (units >= 7 && silence >= 7 * ds)
    ensures EdgeRules(TimingFor(dr, tol)).brk(g) == Cut(Spacing()(units))
  {
    Int32Same(g);
  }

  lemma CompatibleFitsGap(ds: int, dr: int, tol: int, jitter: int, units: nat)
    requires Sensible(ds, dr, tol, jitter) && Compatible(ds, dr, tol, jitter)
    requires units == 3 || units >= 7
    ensures FitsGap(EdgeRules(TimingFor(dr, tol)), ds, Line(jitter), Spacing(), units)
  {
    var silence := units * ds;
    assert units >= 7 ==> silence >= 7 * ds;
    forall g | Near(g, silence, Line(jitter)) ensures EdgeRules(TimingFor(dr, tol)).brk(g) == Cut(Spacing()(units)) {
      GapFits(ds, dr, tol, jitter, units, silence, g);
    }
  }

  /** Within the bounds nothing is ever lost, added or changed. */
  lemma CompatibleRecovers(ds: int, dr: int, tol: int, jitter: int, message: string, reps: nat, w: seq<Mark>)
    requires Sensible(ds, dr, tol, jitter) && Compatible(ds, dr, tol, jitter)
    requires reps >= 1 && Measured(IdealMarks(Transmission(message, reps, REST), ds), w, Line(jitter))
    ensures Text(Run(EdgeRules(TimingFor(dr, tol)), w)) == Expected(message, reps)
  {
    var ts, r := Transmission(message, reps, REST), EdgeRules(TimingFor(dr, tol));
    TransmissionShape(message, reps, REST);
    forall n | 0 <= n < |ts| && Read(ts[..n], Spacing()).text != ""
      ensures FitsGap(r, ds, Line(jitter), Spacing(), Read(ts[..n], Spacing()).quiet)
    {
      QuietShape(ts[..n], Spacing());
      CompatibleFitsGap(ds, dr, tol, jitter, Read(ts[..n], Spacing()).quiet);
    }
    CompatibleFits(ds, dr, tol, jitter);
    Recovery(r, ts, w, ds, Line(jitter), Spacing());
    TransmissionText(message, reps, REST, Spacing());
    if Expected(message, reps) != "" {
      DecodedText(Run(r, w), Expected(message, reps));
    }
  }

  // ----- Necessary -----

  lemma TokensThen(message: string, c: char, t: Token)
    requires TokenOf(c) == [t]
    ensures TokensOf(message + [c]) == TokensOf(message) + [t]
  {
    FlatSnoc(TokenOf, message, c);
  }

  lemma DashMarks(ds: int)
    ensures IdealMarks([Letter('T')], ds) == [Mark(3 * ds, 3 * ds)]
  {
    assert [] + [Letter('T')] == [Letter('T')];
    FoldSnoc(Putter(ds), [], [], Letter('T'));
    assert IndexOf('T') == 19 && Code('T') == "-";
    assert LetterMarks("-", ds) == [Mark(3 * ds, 3 * ds)];
  }

  lemma DashWitness(ds: int)
    ensures IdealMarks(Transmission("T", 1, REST), ds) == [Mark(3 * ds, 3 * ds)]
    ensures Expected("T", 1) == "T"
  {
    DashMarks(ds);
    TransmissionText("T", 1, REST, Spacing());
  }

  lemma WordTokens()
    ensures TokensOf("E E") == Pair(4)
  {
    var e, space := ['E'], [' '];
    TokensThen("", 'E', Letter('E'));
    TokensThen("" + e, ' ', Pause(4));
    TokensThen("" + e + space, 'E', Letter('E'));
    assert "" + e + space + e == "E E";
    assert [] + [Letter('E')] == [Letter('E')];
  }

  lemma WordText()
    ensures Read(Pair(4), Spacing()).text == "E E"
  {
    var a := [Letter('E')];
    assert [] + a == a;
    ReadOne([], Letter('E'), Spacing());
    ReadOne(a, Pause(4), Spacing());
    ReadOne(a + [Pause(4)], Letter('E'), Spacing());
    assert "E" + " " + "E" == "E E";
  }

  lemma WordWitness(ds: int)
    ensures IdealMarks(Transmission("E E", 1, REST), ds) == [Mark(ds, 7 * ds), Mark(ds, 3 * ds)]
    ensures Expected("E E", 1) == "E E"
  {
    WordTokens();
    PairMarks(4, ds);
    WordText();
    TransmissionText("E E", 1, REST, Spacing());
  }

  lemma RunOne(r: Rules, m: Mark)
    ensures Run(r, [m]) == Fall(r, Core("", ""), m.on)
  {
    assert [] + [m] == [m];
  }

  lemma NotRecovered(ds: int, dr: int, tol: int, jitter: int, message: string, reps: nat, w: seq<Mark>)
    requires reps >= 1 && Physical(w) && Measured(IdealMarks(Transmission(message, reps, REST), ds), w, Line(jitter))
    requires Text(Run(EdgeRules(TimingFor(dr, tol)), w)) != Expected(message, reps)
    ensures !Recovers(ds, dr, tol, jitter)
  {
  }

  // A dash measured outside its window is read as a dot or not at all.
  lemma NoDash(r: Rules, m: Mark)
    requires r.sym(m.on) == None || r.sym(m.on) == Some('.')
    ensures Text(Run(r, [m])) != "T"
  {
    RunOne(r, m);
    if r.sym(m.on) == Some('.') {
      LookupEntry(4);
      assert Run(r, [m]) == Core("", "" + ['.']) && "" + ['.'] == "." == TABLE[4];
      assert Text(Run(r, [m])) == "" + ['E'] + "" == "E";
      assert "E"[0] != "T"[0];
    }
  }

  lemma DashMissed(ds: int, dr: int, tol: int, jitter: int) returns (w: seq<Mark>)
    requires Sensible(ds, dr, tol, jitter) && 3 * Abs(ds - dr) + jitter > tol
    ensures Measured([Mark(3 * ds, 3 * ds)], w, Line(jitter)) && Physical(w)
    ensures Text(Run(EdgeRules(TimingFor(dr, tol)), w)) != "T"
  {
    var p := if ds >= dr then 3 * ds + jitter else 3 * ds - jitter;
    w := [Mark(p, 3 * ds)];
    Int32Same(p);
    NoDash(EdgeRules(TimingFor(dr, tol)), w[0]);
  }

  lemma LostDash(ds: int, dr: int, tol: int, jitter: int)
    requires Sensible(ds, dr, tol, jitter) && 3 * Abs(ds - dr) + jitter > tol
    ensures !Recovers(ds, dr, tol, jitter)
  {
    var w := DashMissed(ds, dr, tol, jitter);
    DashWitness(ds);
    NotRecovered(ds, dr, tol, jitter, "T", 1, w);
  }

  // Two pulses whose gap is no word gap print two characters at most.
  lemma NoSpace(r: Rules, a: Mark, b: Mark)
    requires r.brk(a.off) == Keep || r.brk(a.off) == Cut("")
    ensures |Text(Run(r, [a, b]))| <= 2
  {
    RunOne(r, a);
    assert [a] + [b] == [a, b];
    var c := Run(r, [a]);
    assert c.out == "" && |c.buf| <= 1;
    assert |Rise(r, c, a.off).out| <= 1;
  }

  lemma SpaceMissed(ds: int, dr: int, tol: int, jitter: int) returns (w: seq<Mark>)
    requires Sensible(ds, dr, tol, jitter) && 6 * dr + jitter >= 7 * ds
    ensures Measured([Mark(ds, 7 * ds), Mark(ds, 3 * ds)], w, Line(jitter)) && Physical(w)
    ensures |Text(Run(EdgeRules(TimingFor(dr, tol)), w))| <= 2
  {
    var gap := 7 * ds - jitter;
    w := [Mark(ds, gap), Mark(ds, 3 * ds)];
    Int32Same(gap);
    NoSpace(EdgeRules(TimingFor(dr, tol)), w[0], w[1]);
  }

  lemma LostSpace(ds: int, dr: int, tol: int, jitter: int)
    requires Sensible(ds, dr, tol, jitter) && 6 * dr + jitter >= 7 * ds
    ensures !Recovers(ds, dr, tol, jitter)
  {
    var w := SpaceMissed(ds, dr, tol, jitter);
    WordWitness(ds);
    NotRecovered(ds, dr, tol, jitter, "E E", 1, w);
  }

  /** The exact law of the link: every message survives every channel if and only if three times the
      clock difference plus the jitter is within the tolerance and word gaps stay above six receiver dots. */
  lemma LinkLaw(ds: int, dr: int, tol: int, jitter: int)
    requires Sensible(ds, dr, tol, jitter)
    ensures Recovers(ds, dr, tol, jitter) <==> Compatible(ds, dr, tol, jitter)
  {
    if Compatible(ds, dr, tol, jitter) {
      forall message: string, reps: nat, w: seq<Mark> |
          reps >= 1 && Physical(w) && Measured(IdealMarks(Transmission(message, reps, REST), ds), w, Line(jitter))
        ensures Text(Run(EdgeRules(TimingFor(dr, tol)), w)) == Expected(message, reps)
      {
        CompatibleRecovers(ds, dr, tol, jitter, message, reps, w);
      }
    } else if 3 * Abs(ds - dr) + jitter > tol {
      LostDash(ds, dr, tol, jitter);
    } else {
      LostSpace(ds, dr, tol, jitter);
    }
  }

  /** Mismatched clocks, default tolerance, no jitter. */
  lemma MismatchLaw(ds: int, dr: int)
    requires 0 < ds && 0 < dr && 7 * ds <= INT_MAX && 7 * dr <= INT_MAX
    ensures Recovers(ds, dr, TolUs(dr, 0.5), 0) <==> 6 * dr < 7 * ds && 3 * ds <= 3 * dr + dr / 2
  {
    assert TolUs(dr, 0.5) == dr / 2;
    LinkLaw(ds, dr, dr / 2, 0);
  }

  lemma TolBelow(dot: int, tolerance: real)
    requires 0 < dot && 0.0 <= tolerance < 1.0
    ensures 0 <= TolUs(dot, tolerance) < dot
  {
    var x := dot as real * tolerance;
    assert dot as real * (1.0 - tolerance) > 0.0;
    assert 0.0 <= x < dot as real;
    assert x.Floor as real <= x;
  }

  /** Equal clocks: the link tolerates exactly as much jitter as the receiver was configured for. */
  lemma JitterLaw(dot: int, tolerance: real, jitter: int)
    requires 0 < dot && 0.0 <= tolerance < 1.0 && 0 <= jitter < dot && 8 * dot <= INT_MAX
    ensures Recovers(dot, dot, TolUs(dot, tolerance), jitter) <==> jitter <= TolUs(dot, tolerance)
  {
    TolBelow(dot, tolerance);
    LinkLaw(dot, dot, TolUs(dot, tolerance), jitter);
  }

  // ----- Programs on both ends -----

  /** From the sender's trace to the receiver's state, the letter still in its buffer included. */
  lemma EndToEnd(ds: int, dr: int, tol: int, jitter: int, message: string, reps: nat, w: seq<Mark>, boot: State,
      start: int)
    requires Sensible(ds, dr, tol, jitter) && Compatible(ds, dr, tol, jitter)
    requires reps >= 1 && start > 0 && boot.core == Core("", "") && Physical(w)
    requires Measured(MarksOf(ItemsOf(Transmission(message, reps, REST), ds)), w, Line(jitter))
    ensures Text(Fold(Stepper(TimingFor(dr, tol)), boot, EdgesOf(w, start)).core) == Expected(message, reps)
  {
    MarksOfTokens(Transmission(message, reps, REST), ds);
    EdgesRun(TimingFor(dr, tol), boot, w, start);
    CompatibleRecovers(ds, dr, tol, jitter, message, reps, w);
  }

  /** On any recording, noise included, the task prints what cutting the whole recording at its gaps gives, whether
      the last edge was a falling or a rising one. */
  lemma EdgesAreBatch(t: Timing, boot: State, w: seq<Mark>, start: int)
    requires Physical(w) && start > 0 && boot.core == Core("", "")
    ensures Text(Fold(Stepper(t), boot, EdgesOf(w, start)).core) == Batch(EdgeRules(t), w)
    ensures var edges := EdgesOf(w, start) + [Edge(start + Span(w), true)];
      Text(Fold(Stepper(t), boot, edges).core) == BatchEnded(EdgeRules(t), w)
  {
    EdgesRun(t, boot, w, start);
    StreamingIsBatch(EdgeRules(t), w);
    RisingRun(t, boot, w, start);
    StreamingIsEnded(EdgeRules(t), w);
  }
}
