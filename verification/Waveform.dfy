/** The light signal: what a sender puts on the line, and the pulses and gaps it amounts to. */
module Waveform {
  import opened Folds
  import opened MorseCode

  /** One stretch of constant light: on or off for a while. */
  datatype Item = Item(on: bool, dur: int)

  /** A pulse and the silence after it, up to the next pulse. */
  datatype Mark = Mark(on: int, off: int)

  /** What a message asks for: a letter, or extra silence in dot units. */
  datatype Token = Letter(c: Glyph) | Pause(units: nat)

  // ----- The message as tokens -----

  function TokenOf(c: char): seq<Token> {
    var u := ToUpper(c);
    if IsLetter(u) then [Letter(u)] else if u == ' ' then [Pause(4)] else []
  }

  /** Unsupported characters are dropped, a space is four more units of silence. */
  function TokensOf(message: string): seq<Token> {
    Flat(TokenOf, message)
  }

  /** The same message sent `reps` times, `rest` units of extra silence in between. */
  function Transmission(message: string, reps: nat, rest: nat): seq<Token> {
    if reps == 0 then []
    else if reps == 1 then TokensOf(message)
    else Transmission(message, reps - 1, rest) + [Pause(rest)] + TokensOf(message)
  }

  // ----- Tokens as light -----

  function SymbolItems(symbol: char, dot: int): seq<Item> {
    if symbol == '.' then [Item(true, dot), Item(false, dot)]
    else if symbol == '-' then [Item(true, 3 * dot), Item(false, dot)]
    else []
  }

  function SymbolMap(dot: int): char -> seq<Item> {
    symbol => SymbolItems(symbol, dot)
  }

  function CodeItems(code: string, dot: int): seq<Item> {
    Flat(SymbolMap(dot), code)
  }

  function TokenItems(t: Token, dot: int): seq<Item> {
    match t
    case Letter(c) => CodeItems(Code(c), dot) + [Item(false, 2 * dot)]
    case Pause(units) => [Item(false, units * dot)]
  }

  function TokenMap(dot: int): Token -> seq<Item> {
    t => TokenItems(t, dot)
  }

  function ItemsOf(ts: seq<Token>, dot: int): seq<Item> {
    Flat(TokenMap(dot), ts)
  }

  // ----- Light as pulses and gaps -----

  function Stretch(ms: seq<Mark>, dur: int): seq<Mark> {
    if ms == [] then ms else ms[..|ms| - 1] + [Last(ms).(off := Last(ms).off + dur)]
  }

  /** Neighbouring stretches of one level merge; silence before the first pulse follows none. */
  function Push(ms: seq<Mark>, it: Item): seq<Mark> {
    if !it.on then Stretch(ms, it.dur)
    else if ms != [] && Last(ms).off == 0 then ms[..|ms| - 1] + [Last(ms).(on := Last(ms).on + it.dur)]
    else ms + [Mark(it.dur, 0)]
  }

  function MarksOf(items: seq<Item>): seq<Mark> {
    Fold(Push, [], items)
  }

  // ----- The pulses and gaps a token stream amounts to -----

  function PulseLen(symbol: char, dot: int): int {
    if symbol == '-' then 3 * dot else dot
  }

  /** Symbols one unit apart, three units of silence after the last. */
  function LetterMarks(code: string, dot: int): (ms: seq<Mark>)
    ensures |ms| == |code|
    ensures forall i :: 0 <= i < |code| ==>
      ms[i] == Mark(PulseLen(code[i], dot), if i == |code| - 1 then 3 * dot else dot)
  {
    seq(|code|, i requires 0 <= i < |code| => Mark(PulseLen(code[i], dot), if i == |code| - 1 then 3 * dot else dot))
  }

  function PutToken(ms: seq<Mark>, t: Token, dot: int): seq<Mark> {
    match t
    case Letter(c) => ms + LetterMarks(Code(c), dot)
    case Pause(units) => Stretch(ms, units * dot)
  }

  function Putter(dot: int): (seq<Mark>, Token) -> seq<Mark> {
    (ms, t) => PutToken(ms, t, dot)
  }

  function IdealMarks(ts: seq<Token>, dot: int): seq<Mark> {
    Fold(Putter(dot), [], ts)
  }

  function Span(w: seq<Mark>): int {
    if w == [] then 0 else Span(w[..|w| - 1]) + Last(w).on + Last(w).off
  }

  // ----- The two agree -----

  ghost predicate Settled(ms: seq<Mark>) {
    ms == [] || Last(ms).off > 0
  }

  lemma PushSymbol(ms: seq<Mark>, symbol: char, dot: int)
    requires Settled(ms) && (symbol == '.' || symbol == '-')
    ensures Fold(Push, ms, SymbolItems(symbol, dot)) == ms + [Mark(PulseLen(symbol, dot), dot)]
  {
    var on, off := Item(true, PulseLen(symbol, dot)), Item(false, dot);
    assert SymbolItems(symbol, dot) == [on] + [off];
    FoldConcat(Push, ms, [on], [off]);
  }

  // The marks of a code whose last symbol is still followed by one unit only.
  function OpenMarks(code: string, dot: int): (ms: seq<Mark>)
    ensures |ms| == |code| && forall i :: 0 <= i < |code| ==> ms[i] == Mark(PulseLen(code[i], dot), dot)
  {
    seq(|code|, i requires 0 <= i < |code| => Mark(PulseLen(code[i], dot), dot))
  }

  lemma OpenMarksSnoc(ms: seq<Mark>, code: string, dot: int)
    requires code != ""
    ensures ms + OpenMarks(code, dot)
         == ms + OpenMarks(code[..|code| - 1], dot) + [Mark(PulseLen(Last(code), dot), dot)]
  {
  }

  lemma {:induction false} PushCode(ms: seq<Mark>, code: string, dot: int)
    requires dot > 0 && Settled(ms)
    requires forall k :: 0 <= k < |code| ==> code[k] == '.' || code[k] == '-'
    ensures Fold(Push, ms, CodeItems(code, dot)) == ms + OpenMarks(code, dot)
    ensures Settled(ms + OpenMarks(code, dot))
  {
    if code == "" {
      assert ms + OpenMarks(code, dot) == ms;
    } else {
      var init, symbol := code[..|code| - 1], code[|code| - 1];
      PushCode(ms, init, dot);
      FoldConcat(Push, ms, CodeItems(init, dot), SymbolItems(symbol, dot));
      PushSymbol(ms + OpenMarks(init, dot), symbol, dot);
      OpenMarksSnoc(ms, code, dot);
    }
  }

  lemma LetterMarksStretch(ms: seq<Mark>, code: string, dot: int)
    requires code != ""
    ensures Stretch(ms + OpenMarks(code, dot), 2 * dot) == ms + LetterMarks(code, dot)
    ensures Last(ms + LetterMarks(code, dot)).off == 3 * dot
  {
    var all, n := ms + OpenMarks(code, dot), |ms| + |code| - 1;
    assert all[n] == OpenMarks(code, dot)[|code| - 1];
    assert all[..n] == ms + OpenMarks(code, dot)[..|code| - 1];
    assert LetterMarks(code, dot) == OpenMarks(code, dot)[..|code| - 1] + [Mark(PulseLen(Last(code), dot), 3 * dot)];
  }

  lemma PushTokenItems(ms: seq<Mark>, t: Token, dot: int)
    requires dot > 0 && Settled(ms)
    ensures Fold(Push, ms, TokenItems(t, dot)) == PutToken(ms, t, dot)
    ensures Settled(PutToken(ms, t, dot))
  {
    match t
    case Letter(c) =>
      var code := Code(c);
      TableShape(IndexOf(c));
      PushCode(ms, code, dot);
      FoldConcat(Push, ms, CodeItems(code, dot), [Item(false, 2 * dot)]);
      LetterMarksStretch(ms, code, dot);
    case Pause(units) =>
      assert units * dot >= 0;
  }

  lemma {:induction false} IdealSettled(ts: seq<Token>, dot: int)
    requires dot > 0
    ensures Settled(IdealMarks(ts, dot))
  {
    if ts != [] {
      IdealSettled(ts[..|ts| - 1], dot);
      PushTokenItems(IdealMarks(ts[..|ts| - 1], dot), Last(ts), dot);
    }
  }

  /** Merging what a sender emits gives one mark per symbol, with gaps of one, three or more units. */
  lemma MarksOfTokens(ts: seq<Token>, dot: int)
    requires dot > 0
    ensures MarksOf(ItemsOf(ts, dot)) == IdealMarks(ts, dot)
  {
    forall k | 0 <= k < |ts|
      ensures Fold(Push, IdealMarks(ts[..k], dot), TokenItems(ts[k], dot)) ==
        PutToken(IdealMarks(ts[..k], dot), ts[k], dot)
    {
      IdealSettled(ts[..k], dot);
      PushTokenItems(IdealMarks(ts[..k], dot), ts[k], dot);
    }
    FoldFlat(Push, TokenMap(dot), Putter(dot), [], ts);
  }

  // ----- Two letters E, the smallest recording with a gap that matters -----

  function Pair(units: nat): seq<Token> {
    [Letter('E')] + [Pause(units)] + [Letter('E')]
  }

  lemma OneMark(dot: int)
    ensures Putter(dot)([], Letter('E')) == [Mark(dot, 3 * dot)]
    ensures forall ms: seq<Mark> :: Putter(dot)(ms, Letter('E')) == ms + [Mark(dot, 3 * dot)]
  {
    assert IndexOf('E') == 4 && Code('E') == ".";
    assert LetterMarks(".", dot) == [Mark(dot, 3 * dot)];
    assert [] + [Mark(dot, 3 * dot)] == [Mark(dot, 3 * dot)];
  }

  lemma PairMarks(units: nat, dot: int)
    ensures IdealMarks(Pair(units), dot) == [Mark(dot, (3 + units) * dot), Mark(dot, 3 * dot)]
  {
    var f, a, one := Putter(dot), [Letter('E')], [Mark(dot, 3 * dot)];
    OneMark(dot);
    FoldSnoc(f, [], [], Letter('E'));
    assert [] + a == a;
    FoldSnoc(f, [], a, Pause(units));
    FoldSnoc(f, [], a + [Pause(units)], Letter('E'));
    assert (3 + units) * dot == 3 * dot + units * dot;
    assert Stretch(one, units * dot) == [Mark(dot, (3 + units) * dot)];
  }
}
