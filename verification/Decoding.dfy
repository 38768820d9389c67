/** What both receivers do between edges, apart from their thresholds, and when it recovers a message. */
module Decoding {
  import opened Options
  import opened Folds
  import opened MorseCode
  import opened Waveform

  const INT_MAX: int := 0x7fff_ffff

  /** The 64-bit difference of two time stamps is kept in a 32-bit int. */
  function Int32(x: int): int {
    (x + 0x8000_0000) % 0x1_0000_0000 - 0x8000_0000
  }

  /** It is the one in range that differs by a multiple of 2 to the power of 32. */
  lemma Int32Law(x: int)
    ensures -0x8000_0000 <= Int32(x) <= 0x7fff_ffff && (x - Int32(x)) % 0x1_0000_0000 == 0
    ensures -0x8000_0000 <= x <= 0x7fff_ffff ==> Int32(x) == x
  {
  }

  // The symbol buffer holds ten bytes, one of them for the terminator.
  const CAPACITY: nat := 9

  /** A gap either belongs to the letter, or ends it and prints a separator. */
  datatype Break = Keep | Cut(sep: string)

  datatype Rules = Rules(sym: int -> Option<char>, brk: int -> Break)

  /** Text printed so far and symbols of the letter being received. */
  datatype Core = Core(out: string, buf: string)

  ghost function Flush(c: Core, sep: string): Core {
    if c.buf == "" then c else Core(c.out + [Lookup(c.buf)] + sep, "")
  }

  ghost function Rise(r: Rules, c: Core, gap: int): Core {
    match r.brk(gap)
    case Keep => c
    case Cut(sep) => Flush(c, sep)
  }

  ghost function Fall(r: Rules, c: Core, pulse: int): Core {
    match r.sym(pulse)
    case None => c
    case Some(s) => if |c.buf| < CAPACITY then c.(buf := c.buf + [s]) else c
  }

  // A gap is judged only when the next pulse begins; before the first pulse there is none.
  ghost function Start(r: Rules, w: seq<Mark>): Core
    decreases |w|, 1
  {
    if w == [] then Core("", "") else Rise(r, Run(r, w), Last(w).off)
  }

  ghost function Run(r: Rules, w: seq<Mark>): Core
    decreases |w|, 0
  {
    if w == [] then Core("", "")
    else Fall(r, Start(r, w[..|w| - 1]), Last(w).on)
  }

  /** Output plus the letter still in the buffer. */
  ghost function Text(c: Core): string {
    Flush(c, "").out
  }

  // ----- The text a token stream asks for -----

  /** Text so far and the units of silence since its last letter. */
  datatype Prose = Prose(text: string, quiet: nat)

  function ReadToken(p: Prose, t: Token, sep: nat -> string): Prose {
    match t
    case Letter(c) => Prose((if p.text == "" then "" else p.text + sep(p.quiet)) + [c], 3)
    case Pause(units) => p.(quiet := p.quiet + units)
  }

  function Reader(sep: nat -> string): (Prose, Token) -> Prose {
    (p, t) => ReadToken(p, t, sep)
  }

  function Read(ts: seq<Token>, sep: nat -> string): Prose {
    Fold(Reader(sep), Prose("", 0), ts)
  }

  // ----- When the thresholds fit a sender -----

  /** A channel shifts what it carries by at most `jitter`; nothing measured is longer than `limit`. */
  datatype Channel = Channel(jitter: int, limit: int)

  ghost predicate Near(measured: int, ideal: int, ch: Channel) {
    ideal - ch.jitter <= measured <= ideal + ch.jitter && measured <= ch.limit
  }

  /** Pulses are told apart, one unit never cuts, `units` or more cut with the right separator. */
  ghost predicate Fits(r: Rules, dot: int, ch: Channel) {
    && (forall p :: Near(p, dot, ch) ==> r.sym(p) == Some('.'))
    && (forall p :: Near(p, 3 * dot, ch) ==> r.sym(p) == Some('-'))
    && (forall g :: Near(g, dot, ch) ==> r.brk(g) == Keep)
  }

  ghost predicate FitsGap(r: Rules, dot: int, ch: Channel, sep: nat -> string, units: nat) {
    forall g :: Near(g, units * dot, ch) ==> r.brk(g) == Cut(sep(units))
  }

  /** Every pulse and every gap is shifted on its own. */
  ghost predicate Measured(ideal: seq<Mark>, w: seq<Mark>, ch: Channel) {
    && |w| == |ideal|
    && forall i :: 0 <= i < |w| ==> Near(w[i].on, ideal[i].on, ch) && Near(w[i].off, ideal[i].off, ch)
  }

  lemma Longest(w: seq<Mark>) returns (limit: int)
    ensures forall i :: 0 <= i < |w| ==> w[i].on <= limit && w[i].off <= limit
  {
    limit := 0;
    for i := 0 to |w|
      invariant forall k :: 0 <= k < i ==> w[k].on <= limit && w[k].off <= limit
    {
      if w[i].on > limit { limit := w[i].on; }
      if w[i].off > limit { limit := w[i].off; }
    }
  }

  // Silences that separate two letters of the stream.
  ghost predicate FitsGaps(r: Rules, ts: seq<Token>, dot: int, ch: Channel, sep: nat -> string) {
    forall n :: 0 <= n < |ts| && ts[n].Letter? && Read(ts[..n], sep).text != "" ==>
      FitsGap(r, dot, ch, sep, Read(ts[..n], sep).quiet)
  }

  // ----- The proof -----

  // The last gap has not been seen yet.
  lemma RunIgnoresLastGap(r: Rules, w: seq<Mark>, off: int)
    requires w != []
    ensures Run(r, w[..|w| - 1] + [Last(w).(off := off)]) == Run(r, w)
  {
    var v := w[..|w| - 1] + [Last(w).(off := off)];
    assert v[..|v| - 1] == w[..|w| - 1];
  }

  /** The symbols of one letter collect in the buffer behind whatever the preceding gap printed. */
  lemma {:induction false} RunLetter(r: Rules, w: seq<Mark>, out: string, code: string, v: seq<Mark>,
                                     dot: int, ch: Channel)
    requires Fits(r, dot, ch)
    requires 1 <= |v| <= |code| <= CAPACITY
    requires forall i :: 0 <= i < |v| ==> code[i] == '.' || code[i] == '-'
    requires forall i :: 0 <= i < |v| ==> Near(v[i].on, PulseLen(code[i], dot), ch)
    requires forall i :: 0 <= i < |v| - 1 ==> Near(v[i].off, dot, ch)
    requires Start(r, w) == Core(out, "")
    ensures Run(r, w + v) == Core(out, code[..|v|])
  {
    var n := |v| - 1;
    var init := v[..n];
    assert w + v == w + init + [v[n]];
    assert r.sym(v[n].on) == Some(code[n]);
    assert code[..n] + [code[n]] == code[..n + 1];
    if n == 0 {
      assert w + init == w;
    } else {
      RunLetter(r, w, out, code, init, dot, ch);
      assert Last(w + init) == v[n - 1];
      assert r.brk(v[n - 1].off) == Keep;
    }
  }

  ghost predicate Decoded(c: Core, text: string) {
    text != "" && IsLetter(Last(text)) && c == Core(text[..|text| - 1], Code(Last(text)))
  }

  lemma DecodedText(c: Core, text: string)
    requires Decoded(c, text)
    ensures Text(c) == text && c.buf != ""
    ensures forall sep :: Flush(c, sep) == Core(text + sep, "")
  {
    var last := Last(text);
    TableShape(IndexOf(last));
    LookupInvertsCode(c.buf, last);
    assert text[..|text| - 1] + [last] == text;
    assert text + "" == text;
  }

  ghost predicate GapAgrees(p: Prose, ms: seq<Mark>, dot: int) {
    if p.text == "" then ms == [] else ms != [] && Last(ms).off == p.quiet * dot && IsLetter(Last(p.text))
  }

  /** Silence since the last letter of a stream is the silence after the last pulse of its waveform. */
  lemma {:induction false} IdealGap(ts: seq<Token>, dot: int, sep: nat -> string)
    ensures GapAgrees(Read(ts, sep), IdealMarks(ts, dot), dot)
  {
    if ts != [] {
      var init := ts[..|ts| - 1];
      IdealGap(init, dot, sep);
    }
  }

  // The core a further letter starts from, after an earlier one or as the first.
  lemma StartAfter(r: Rules, ts: seq<Token>, w: seq<Mark>, dot: int, ch: Channel, sep: nat -> string)
    requires Measured(IdealMarks(ts, dot), w, ch)
    requires var p := Read(ts, sep);
      p.text != "" ==> Decoded(Run(r, w), p.text) && FitsGap(r, dot, ch, sep, p.quiet)
    ensures var p := Read(ts, sep);
      Start(r, w) == Core(if p.text == "" then "" else p.text + sep(p.quiet), "")
  {
    var p := Read(ts, sep);
    IdealGap(ts, dot, sep);
    if p.text != "" {
      DecodedText(Run(r, w), p.text);
      assert Near(Last(w).off, p.quiet * dot, ch);
    }
  }

  lemma RecoverLetter(r: Rules, ts: seq<Token>, c: Glyph, w: seq<Mark>, v: seq<Mark>,
                      dot: int, ch: Channel, sep: nat -> string)
    requires Fits(r, dot, ch)
    requires Measured(IdealMarks(ts, dot), w, ch)
    requires Measured(LetterMarks(Code(c), dot), v, ch)
    requires var p := Read(ts, sep);
      p.text != "" ==> Decoded(Run(r, w), p.text) && FitsGap(r, dot, ch, sep, p.quiet)
    ensures Decoded(Run(r, w + v), Read(ts + [Letter(c)], sep).text)
  {
    var p := Read(ts, sep);
    var out := if p.text == "" then "" else p.text + sep(p.quiet);
    StartAfter(r, ts, w, dot, ch, sep);
    TableShape(IndexOf(c));
    RunLetter(r, w, out, Code(c), v, dot, ch);
    assert Code(c)[..|v|] == Code(c);
    FoldSnoc(Reader(sep), Prose("", 0), ts, Letter(c));
    assert (out + [c])[..|out|] == out;
  }

  lemma MeasuredSplit(a: seq<Mark>, b: seq<Mark>, w: seq<Mark>, ch: Channel)
    requires Measured(a + b, w, ch)
    ensures Measured(a, w[..|a|], ch) && Measured(b, w[|a|..], ch)
    ensures w == w[..|a|] + w[|a|..]
  {
    forall i | 0 <= i < |b| ensures w[|a|..][i] == w[|a| + i] && (a + b)[|a| + i] == b[i] {}
  }

  // Undo a pause: the same measurement of the shorter stream.
  lemma Unpause(ms: seq<Mark>, w: seq<Mark>, extra: int, ch: Channel) returns (v: seq<Mark>)
    requires ms != [] && extra >= 0
    requires Measured(Stretch(ms, extra), w, ch)
    ensures Measured(ms, v, ch)
    ensures forall r :: Run(r, v) == Run(r, w)
  {
    var off := Last(w).off - extra;
    v := w[..|w| - 1] + [Last(w).(off := off)];
    forall r ensures Run(r, v) == Run(r, w) { RunIgnoresLastGap(r, w, off); }
    var sm := Stretch(ms, extra);
    assert Near(w[|w| - 1].off, sm[|w| - 1].off, ch);
    forall i | 0 <= i < |v| ensures Near(v[i].on, ms[i].on, ch) && Near(v[i].off, ms[i].off, ch) {
      assert Near(w[i].on, sm[i].on, ch) && Near(w[i].off, sm[i].off, ch);
    }
  }

  /** Thresholds that fit the sender recover every token stream, through any jitter they allow for. */
  lemma {:induction false} Recovery(r: Rules, ts: seq<Token>, w: seq<Mark>, dot: int, ch: Channel, sep: nat -> string)
    requires dot >= 0
    requires Fits(r, dot, ch) && FitsGaps(r, ts, dot, ch, sep)
    requires Measured(IdealMarks(ts, dot), w, ch)
    ensures var text := Read(ts, sep).text;
      if text == "" then w == [] else Decoded(Run(r, w), text)
  {
    if ts != [] {
      var n := |ts| - 1;
      var init := ts[..n];
      var ms := IdealMarks(init, dot);
      assert FitsGaps(r, init, dot, ch, sep) by {
        forall k | 0 <= k < n ensures init[..k] == ts[..k] {}
      }
      IdealGap(init, dot, sep);
      match ts[n]
      case Letter(c) =>
        assert ts == init + [Letter(c)];
        MeasuredSplit(ms, LetterMarks(Code(c), dot), w, ch);
        Recovery(r, init, w[..|ms|], dot, ch, sep);
        RecoverLetter(r, init, c, w[..|ms|], w[|ms|..], dot, ch, sep);
      case Pause(units) =>
        if ms != [] {
          assert units * dot >= 0;
          var v := Unpause(ms, w, units * dot, ch);
          Recovery(r, init, v, dot, ch, sep);
        }
    }
  }
}
