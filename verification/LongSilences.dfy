/** Lab 5.3 without a limit on silences: their length is kept in an int, and wraps. */
module LongSilences {
  import opened Options
  import opened Folds
  import opened MorseCode
  import opened Waveform
  import opened Decoding
  import opened MorseText
  import opened EdgeReceiver
  import opened FastLink

  /** However long, and wherever within the jitter it is measured, this silence is taken for a word gap. */
  ghost predicate Heard(silence: int, dr: int, jitter: int) {
    forall g: int | silence - jitter <= g <= silence + jitter :: Int32(g) > 6 * dr
  }

  /** Every silence of seven units or more that a further letter ends is taken for a word gap. */
  ghost predicate AllHeard(ts: seq<Token>, ds: int, dr: int, jitter: int) {
    forall n :: 0 <= n < |ts| && ts[n].Letter? && Read(ts[..n], Spacing()).text != "" ==>
      var quiet := Read(ts[..n], Spacing()).quiet; quiet >= 7 ==> Heard(quiet * ds, dr, jitter)
  }

  /** Every measurement of the repeated message within the jitter is decoded to its text. */
  ghost predicate Survives(message: string, reps: nat, ds: int, dr: int, tol: int, jitter: int) {
    forall w: seq<Mark>, limit: int |
        Physical(w) && Measured(IdealMarks(Transmission(message, reps, REST), ds), w, Channel(jitter, limit)) ::
      Text(Run(EdgeRules(TimingFor(dr, tol)), w)) == Expected(message, reps)
  }

  // ----- Counting spaces -----

  function Spaces(s: string): nat {
    if s == "" then 0 else Spaces(s[..|s| - 1]) + if Last(s) == ' ' then 1 else 0
  }

  lemma {:induction false} SpacesConcat(a: string, b: string)
    ensures Spaces(a + b) == Spaces(a) + Spaces(b)
  {
    if b == "" {
      assert a + b == a;
    } else {
      SpacesConcat(a, b[..|b| - 1]);
      assert (a + b)[..|a + b| - 1] == a + b[..|b| - 1];
    }
  }

  /** Rules that know the sender's pulses, never cut within a letter, and print a space behind long silences only. */
  ghost predicate Spare(r: Rules, ds: int) {
    && r.sym(ds).Some? && r.sym(3 * ds).Some? && r.brk(ds) == Keep && r.brk(3 * ds) == Cut("")
    && forall g :: r.brk(g) == Keep || r.brk(g) == Cut("") || r.brk(g) == Cut(" ")
  }

  lemma FlushSpaces(c: Core, sep: string)
    requires sep == "" || sep == " "
    ensures Spaces(Flush(c, sep).out) == Spaces(c.out) + if c.buf != "" && sep == " " then 1 else 0
  {
    if c.buf != "" {
      SpacesConcat(c.out + [Lookup(c.buf)], sep);
      SpacesConcat(c.out, [Lookup(c.buf)]);
      assert [Lookup(c.buf)][..0] == "" && " "[..0] == "";
    }
  }

  // The symbols of a letter print nothing, and leave something in the buffer.
  lemma {:induction false} LetterSpaces(r: Rules, w: seq<Mark>, code: string, ds: int, k: nat)
    requires Spare(r, ds) && 1 <= k <= |code|
    ensures var c := Run(r, w + LetterMarks(code, ds)[..k]); c.out == Start(r, w).out && c.buf != ""
  {
    var v := LetterMarks(code, ds);
    assert w + v[..k] == w + v[..k - 1] + [v[k - 1]];
    if k == 1 {
      assert w + v[..0] == w;
    } else {
      LetterSpaces(r, w, code, ds, k - 1);
      assert Last(w + v[..k - 1]) == v[k - 2] && v[k - 2].off == ds;
    }
  }

  /** Long silences are told from short ones by these rules. */
  ghost predicate Cuts(r: Rules, ts: seq<Token>, ds: int) {
    forall n :: 0 <= n < |ts| && ts[n].Letter? && Read(ts[..n], Spacing()).text != "" ==>
      var quiet := Read(ts[..n], Spacing()).quiet; quiet >= 7 ==> r.brk(quiet * ds) == Cut(" ")
  }

  lemma CutsNext(r: Rules, ts: seq<Token>, t: Token, ds: int)
    ensures var p := Read(ts, Spacing());
      Cuts(r, ts + [t], ds) <==>
        Cuts(r, ts, ds) && (t.Letter? && p.text != "" && p.quiet >= 7 ==> r.brk(p.quiet * ds) == Cut(" "))
  {
    var all := ts + [t];
    assert all[..|ts|] == ts;
    assert forall k :: 0 <= k < |ts| ==> all[..k] == ts[..k] && all[k] == ts[k];
    if Cuts(r, all, ds) {
      forall n | 0 <= n < |ts| && ts[n].Letter? && Read(ts[..n], Spacing()).text != ""
        && Read(ts[..n], Spacing()).quiet >= 7
        ensures r.brk(Read(ts[..n], Spacing()).quiet * ds) == Cut(" ")
      {
        assert all[n].Letter?;
      }
    }
  }

  /** Spaces printed so far: never more than asked for, and as many only if all long silences were told. */
  ghost predicate Tally(c: Core, p: Prose, cuts: bool) {
    if p.text == "" then cuts
    else c.buf != "" && Spaces(c.out) <= Spaces(p.text) && (Spaces(c.out) == Spaces(p.text) ==> cuts)
  }

  // What a further letter does to the tally.
  lemma TallyLetter(r: Rules, c: Core, p: Prose, cuts: bool, ds: int, letter: Glyph)
    requires Spare(r, ds) && Tally(c, p, cuts) && p.text != "" && (p.quiet == 3 || p.quiet >= 7)
    ensures var out, q := Rise(r, c, p.quiet * ds).out, ReadToken(p, Letter(letter), Spacing());
      && Spaces(out) <= Spaces(q.text)
      && (Spaces(out) == Spaces(q.text) ==> cuts && (p.quiet >= 7 ==> r.brk(p.quiet * ds) == Cut(" ")))
  {
    var sep := Spacing()(p.quiet);
    FlushSpaces(c, "");
    FlushSpaces(c, " ");
    SpacesConcat(p.text + sep, [letter]);
    SpacesConcat(p.text, sep);
    assert [letter][..0] == "" && " "[..0] == "";
  }

  lemma LetterTally(r: Rules, ms: seq<Mark>, p: Prose, cuts: bool, ds: int, letter: Glyph)
    requires Spare(r, ds) && Tally(Run(r, ms), p, cuts) && GapAgrees(p, ms, ds)
    requires p.text != "" ==> p.quiet == 3 || p.quiet >= 7
    ensures Tally(Run(r, ms + LetterMarks(Code(letter), ds)), ReadToken(p, Letter(letter), Spacing()),
                  cuts && (p.text != "" && p.quiet >= 7 ==> r.brk(p.quiet * ds) == Cut(" ")))
  {
    var code := Code(letter);
    TableShape(IndexOf(letter));
    LetterSpaces(r, ms, code, ds, |code|);
    assert LetterMarks(code, ds)[..|code|] == LetterMarks(code, ds);
    if p.text != "" {
      TallyLetter(r, Run(r, ms), p, cuts, ds, letter);
    }
  }

  lemma {:induction false} SpacesTally(r: Rules, ts: seq<Token>, ds: int)
    requires Spare(r, ds) && LongPauses(ts)
    ensures Tally(Run(r, IdealMarks(ts, ds)), Read(ts, Spacing()), Cuts(r, ts, ds))
  {
    if ts != [] {
      var init, t := ts[..|ts| - 1], Last(ts);
      var ms, p := IdealMarks(init, ds), Read(init, Spacing());
      assert ts == init + [t];
      SpacesTally(r, init, ds);
      IdealGap(init, ds, Spacing());
      QuietShape(init, Spacing());
      CutsNext(r, init, t, ds);
      ReadOne(init, t, Spacing());
      FoldSnoc(Putter(ds), [], init, t);
      match t
      case Letter(letter) => LetterTally(r, ms, p, Cuts(r, init, ds), ds, letter);
      case Pause(units) =>
        if ms != [] { RunIgnoresLastGap(r, ms, Last(ms).off + units * ds); }
    }
  }

  // ----- The law -----

  // A measurement that makes long silences as hard to hear as the jitter allows.
  ghost function Worst(gap: int, ds: int, dr: int, jitter: int): (g: int)
    requires jitter >= 0
    ensures gap - jitter <= g <= gap + jitter
    ensures gap < 7 * ds ==> g == gap
    ensures gap >= 7 * ds && !Heard(gap, dr, jitter) ==> Int32(g) <= 6 * dr
  {
    if gap >= 7 * ds && !Heard(gap, dr, jitter) then
      var g :| gap - jitter <= g <= gap + jitter && Int32(g) <= 6 * dr; g
    else gap
  }

  ghost function WorstRules(r: Rules, ds: int, dr: int, jitter: int): Rules
    requires jitter >= 0
  {
    Rules(r.sym, gap => r.brk(Worst(gap, ds, dr, jitter)))
  }

  ghost function WorstMarks(ms: seq<Mark>, ds: int, dr: int, jitter: int): (w: seq<Mark>)
    requires jitter >= 0
    ensures |w| == |ms| && forall i :: 0 <= i < |ms| ==> w[i] == Mark(ms[i].on, Worst(ms[i].off, ds, dr, jitter))
  {
    seq(|ms|, i requires 0 <= i < |ms| => Mark(ms[i].on, Worst(ms[i].off, ds, dr, jitter)))
  }

  lemma {:induction false} RunWorst(r: Rules, ms: seq<Mark>, ds: int, dr: int, jitter: int)
    requires jitter >= 0
    ensures Run(r, WorstMarks(ms, ds, dr, jitter)) == Run(WorstRules(r, ds, dr, jitter), ms)
    ensures Start(r, WorstMarks(ms, ds, dr, jitter)) == Start(WorstRules(r, ds, dr, jitter), ms)
  {
    if ms != [] {
      var n := |ms| - 1;
      assert WorstMarks(ms, ds, dr, jitter)[..n] == WorstMarks(ms[..n], ds, dr, jitter);
      RunWorst(r, ms[..n], ds, dr, jitter);
    }
  }

  lemma WorstSpare(ds: int, dr: int, tol: int, jitter: int)
    requires Sensible(ds, dr, tol, jitter) && Compatible(ds, dr, tol, jitter)
    ensures Spare(WorstRules(EdgeRules(TimingFor(dr, tol)), ds, dr, jitter), ds)
  {
    var r := EdgeRules(TimingFor(dr, tol));
    CompatibleFits(ds, dr, tol, jitter);
    assert Near(ds, ds, Line(jitter)) && Near(3 * ds, 3 * ds, Line(jitter));
    GapFits(ds, dr, tol, jitter, 3, 3 * ds, 3 * ds);
    assert Worst(ds, ds, dr, jitter) == ds && Worst(3 * ds, ds, dr, jitter) == 3 * ds;
    forall g ensures r.brk(g) == Keep || r.brk(g) == Cut("") || r.brk(g) == Cut(" ") {}
  }

  ghost predicate Positive(ms: seq<Mark>, ds: int) {
    forall i :: 0 <= i < |ms| ==> ms[i].on >= ds && ms[i].off >= ds
  }

  lemma {:induction false} IdealPositive(ts: seq<Token>, ds: int)
    requires ds > 0
    ensures Positive(IdealMarks(ts, ds), ds)
  {
    if ts != [] {
      IdealPositive(ts[..|ts| - 1], ds);
    }
  }

  lemma SpacesText(c: Core)
    ensures Spaces(Text(c)) == Spaces(c.out)
  {
    FlushSpaces(c, "");
  }

  lemma WorstMeasured(ms: seq<Mark>, ds: int, dr: int, jitter: int) returns (limit: int)
    requires 0 <= jitter < ds && Positive(ms, ds)
    ensures var w := WorstMarks(ms, ds, dr, jitter); Physical(w) && Measured(ms, w, Channel(jitter, limit))
  {
    limit := Longest(WorstMarks(ms, ds, dr, jitter));
  }

  lemma WorstCuts(ts: seq<Token>, ds: int, dr: int, tol: int, jitter: int)
    requires ds > 0 && jitter >= 0 && Cuts(WorstRules(EdgeRules(TimingFor(dr, tol)), ds, dr, jitter), ts, ds)
    ensures AllHeard(ts, ds, dr, jitter)
  {
    var r := EdgeRules(TimingFor(dr, tol));
    forall n | 0 <= n < |ts| && ts[n].Letter? && Read(ts[..n], Spacing()).text != ""
      && Read(ts[..n], Spacing()).quiet >= 7
      ensures Heard(Read(ts[..n], Spacing()).quiet * ds, dr, jitter)
    {
      var silence := Read(ts[..n], Spacing()).quiet * ds;
      assert silence >= 7 * ds;
      assert WorstRules(r, ds, dr, jitter).brk(silence) == r.brk(Worst(silence, ds, dr, jitter)) == Cut(" ");
    }
  }

  // Under the worst measurement a silence that is not always heard is missed.
  lemma Missed(ts: seq<Token>, ds: int, dr: int, tol: int, jitter: int) returns (w: seq<Mark>, limit: int)
    requires Sensible(ds, dr, tol, jitter) && Compatible(ds, dr, tol, jitter)
    requires LongPauses(ts) && !AllHeard(ts, ds, dr, jitter)
    ensures Physical(w) && Measured(IdealMarks(ts, ds), w, Channel(jitter, limit))
    ensures Text(Run(EdgeRules(TimingFor(dr, tol)), w)) != Read(ts, Spacing()).text
  {
    var r, ms := EdgeRules(TimingFor(dr, tol)), IdealMarks(ts, ds);
    var rw := WorstRules(r, ds, dr, jitter);
    w := WorstMarks(ms, ds, dr, jitter);
    IdealPositive(ts, ds);
    limit := WorstMeasured(ms, ds, dr, jitter);
    RunWorst(r, ms, ds, dr, jitter);
    WorstSpare(ds, dr, tol, jitter);
    SpacesTally(rw, ts, ds);
    SpacesText(Run(rw, ms));
    if Cuts(rw, ts, ds) { WorstCuts(ts, ds, dr, tol, jitter); }
  }

  // A silence that is always heard is decoded as it should be.
  lemma HeardFitsGap(ds: int, dr: int, tol: int, jitter: int, limit: int, units: nat)
    requires Sensible(ds, dr, tol, jitter) && Compatible(ds, dr, tol, jitter)
    requires units == 3 || (units >= 7 && Heard(units * ds, dr, jitter))
    ensures FitsGap(EdgeRules(TimingFor(dr, tol)), ds, Channel(jitter, limit), Spacing(), units)
  {
    var r := EdgeRules(TimingFor(dr, tol));
    forall g | Near(g, units * ds, Channel(jitter, limit)) ensures r.brk(g) == Cut(Spacing()(units)) {
      if units == 3 {
        GapFits(ds, dr, tol, jitter, 3, 3 * ds, g);
      } else {
        assert r.brk(g) == GapBreak(TimingFor(dr, tol), Int32(g));
      }
    }
  }

  lemma HeardFits(ts: seq<Token>, ds: int, dr: int, tol: int, jitter: int, limit: int)
    requires Sensible(ds, dr, tol, jitter) && Compatible(ds, dr, tol, jitter)
    requires LongPauses(ts) && AllHeard(ts, ds, dr, jitter)
    ensures Fits(EdgeRules(TimingFor(dr, tol)), ds, Channel(jitter, limit))
    ensures FitsGaps(EdgeRules(TimingFor(dr, tol)), ts, ds, Channel(jitter, limit), Spacing())
  {
    var r, ch := EdgeRules(TimingFor(dr, tol)), Channel(jitter, limit);
    CompatibleFits(ds, dr, tol, jitter);
    forall p | Near(p, ds, ch) ensures r.sym(p) == Some('.') && r.brk(p) == Keep { assert Near(p, ds, Line(jitter)); }
    forall p | Near(p, 3 * ds, ch) ensures r.sym(p) == Some('-') { assert Near(p, 3 * ds, Line(jitter)); }
    forall n | 0 <= n < |ts| && ts[n].Letter? && Read(ts[..n], Spacing()).text != ""
      ensures FitsGap(r, ds, ch, Spacing(), Read(ts[..n], Spacing()).quiet)
    {
      QuietShape(ts[..n], Spacing());
      HeardFitsGap(ds, dr, tol, jitter, limit, Read(ts[..n], Spacing()).quiet);
    }
  }

  /** With clocks, tolerance and jitter as the link law wants them, a message survives, whatever its silences,
      if and only if each of them, wherever it is measured, still looks like a word gap after wrapping. */
  lemma SilenceLaw(message: string, reps: nat, ds: int, dr: int, tol: int, jitter: int)
    requires Sensible(ds, dr, tol, jitter) && Compatible(ds, dr, tol, jitter) && reps >= 1
    ensures Survives(message, reps, ds, dr, tol, jitter) <==>
      AllHeard(Transmission(message, reps, REST), ds, dr, jitter)
  {
    var ts, r := Transmission(message, reps, REST), EdgeRules(TimingFor(dr, tol));
    TransmissionShape(message, reps, REST);
    TransmissionText(message, reps, REST, Spacing());
    if AllHeard(ts, ds, dr, jitter) {
      forall w: seq<Mark>, limit: int | Physical(w) && Measured(IdealMarks(ts, ds), w, Channel(jitter, limit))
        ensures Text(Run(r, w)) == Expected(message, reps)
      {
        HeardFits(ts, ds, dr, tol, jitter, limit);
        Recovery(r, ts, w, ds, Channel(jitter, limit), Spacing());
        if Expected(message, reps) != "" {
          DecodedText(Run(r, w), Expected(message, reps));
        }
      }
    } else {
      var w, limit := Missed(ts, ds, dr, tol, jitter);
      assert Text(Run(r, w)) != Expected(message, reps);
    }
  }

  // ----- Two letters with spaces in between -----

  function Letters(n: nat): string {
    if n == 0 then "E" else Letters(n - 1) + " "
  }

  /** Two letters E, so many spaces apart. */
  function Apart(n: nat): string {
    Letters(n) + "E"
  }

  lemma FirstLetter(ds: int)
    ensures IdealMarks(TokensOf("E"), ds) == [Mark(ds, 3 * ds)]
  {
    TokensThen("", 'E', Letter('E'));
    assert "" + ['E'] == "E" && [] + [Letter('E')] == [Letter('E')];
    FoldSnoc(Putter(ds), [], [], Letter('E'));
    OneMark(ds);
  }

  lemma {:induction false} LettersMarks(n: nat, ds: int)
    ensures IdealMarks(TokensOf(Letters(n)), ds) == [Mark(ds, (3 + 4 * n) * ds)]
  {
    if n == 0 {
      FirstLetter(ds);
    } else {
      LettersMarks(n - 1, ds);
      TokensThen(Letters(n - 1), ' ', Pause(4));
      assert Letters(n - 1) + [' '] == Letters(n);
    }
  }

  lemma ApartMarks(n: nat, ds: int)
    ensures IdealMarks(Transmission(Apart(n), 1, REST), ds) == [Mark(ds, (3 + 4 * n) * ds), Mark(ds, 3 * ds)]
  {
    LettersMarks(n, ds);
    TokensThen(Letters(n), 'E', Letter('E'));
    assert Letters(n) + ['E'] == Apart(n);
    FoldSnoc(Putter(ds), [], TokensOf(Letters(n)), Letter('E'));
    OneMark(ds);
  }

  /** What becomes of two letters E a silence of any length apart: words, letters, or a letter I. */
  function Outcome(gap: int, dr: int): string {
    if gap > 6 * dr then "E E" else if gap > 2 * dr then "EE" else "I"
  }

  lemma TwoLetters(ds: int, dr: int, tol: int, gap: int)
    requires Sensible(ds, dr, tol, 0) && Compatible(ds, dr, tol, 0)
    ensures Text(Run(EdgeRules(TimingFor(dr, tol)), [Mark(ds, gap), Mark(ds, 3 * ds)])) == Outcome(Int32(gap), dr)
  {
    var r, a, b := EdgeRules(TimingFor(dr, tol)), Mark(ds, gap), Mark(ds, 3 * ds);
    CompatibleFits(ds, dr, tol, 0);
    assert Near(ds, ds, Line(0));
    RunOne(r, a);
    assert [a] + [b] == [a, b] && "" + ['.'] == ".";
    assert Run(r, [a]) == Core("", ".");
    LookupEntry(4);
    LookupEntry(8);
    assert TABLE[4] == "." && TABLE[8] == ".." && "." + ['.'] == "..";
    assert r.brk(gap) == GapBreak(TimingFor(dr, tol), Int32(gap));
  }

  /** On the wire, two letters E any number of spaces apart are printed as their wrapped silence says. */
  lemma ApartPrinted(ds: int, dr: int, tol: int, n: nat, boot: State, start: int)
    requires Sensible(ds, dr, tol, 0) && Compatible(ds, dr, tol, 0)
    requires start > 0 && boot.core == Core("", "")
    ensures var w := MarksOf(ItemsOf(Transmission(Apart(n), 1, REST), ds));
      Text(Fold(Stepper(TimingFor(dr, tol)), boot, EdgesOf(w, start)).core) == Outcome(Int32((3 + 4 * n) * ds), dr)
  {
    MarksOfTokens(Transmission(Apart(n), 1, REST), ds);
    ApartMarks(n, ds);
    assert (3 + 4 * n) * ds >= 0;
    EdgesRun(TimingFor(dr, tol), boot, [Mark(ds, (3 + 4 * n) * ds), Mark(ds, 3 * ds)], start);
    TwoLetters(ds, dr, tol, (3 + 4 * n) * ds);
  }

  /** For every link there is a message it loses without any jitter: two letters E so far apart that they
      are printed as an I. */
  lemma LongSilenceLost(ds: int, dr: int, tol: int, boot: State, start: int) returns (n: nat)
    requires Sensible(ds, dr, tol, 0) && Compatible(ds, dr, tol, 0)
    requires start > 0 && boot.core == Core("", "")
    ensures var w := MarksOf(ItemsOf(Transmission(Apart(n), 1, REST), ds));
      Text(Fold(Stepper(TimingFor(dr, tol)), boot, EdgesOf(w, start)).core) == "I"
  {
    n := INT_MAX / (4 * ds) + 1;
    assert INT_MAX < 4 * ds * n <= INT_MAX + 4 * ds;
    assert (3 + 4 * n) * ds == 3 * ds + 4 * ds * n;
    assert Int32((3 + 4 * n) * ds) < 0;
    ApartPrinted(ds, dr, tol, n, boot, start);
  }
}
