/** Decoding with the whole recording at hand, and why the streaming decoder agrees with it. */
module BatchDecoding {
  import opened Folds
  import opened MorseCode
  import opened Waveform
  import opened Decoding

  // ----- The reference: cut the recording at its gaps, look each group up -----

  ghost function SymbolOf(r: Rules): Mark -> string {
    (m: Mark) => match r.sym(m.on) case None => "" case Some(s) => [s]
  }

  /** The symbols of a stretch, pulses out of range left out, with no limit on their number. */
  ghost function Symbols(r: Rules, w: seq<Mark>): string {
    Flat(SymbolOf(r), w)
  }

  /** Index of the first mark whose gap cuts, |w| if none does. */
  ghost function FirstCut(r: Rules, w: seq<Mark>): (k: nat)
    ensures k <= |w|
    ensures forall i :: 0 <= i < k ==> r.brk(w[i].off) == Keep
    ensures k < |w| ==> r.brk(w[k].off).Cut?
  {
    if w == [] || r.brk(w[0].off).Cut? then 0 else 1 + FirstCut(r, w[1..])
  }

  ghost function Group(symbols: string, sep: string): string {
    if symbols == "" then "" else [Lookup(symbols)] + sep
  }

  /** Groups from the left; the last one is closed by the end of the recording. */
  ghost function Batch(r: Rules, w: seq<Mark>): string {
    if w == [] then ""
    else
      var k := FirstCut(r, w[..|w| - 1]);
      if k == |w| - 1 then Group(Symbols(r, w), "")
      else Group(Symbols(r, w[..k + 1]), r.brk(w[k].off).sep) + Batch(r, w[k + 1..])
  }

  /** The same for a recording whose last gap has ended as well, with the next pulse just begun. */
  ghost function BatchEnded(r: Rules, w: seq<Mark>): string {
    if w == [] then ""
    else
      var k := FirstCut(r, w);
      if k == |w| then Group(Symbols(r, w), "")
      else Group(Symbols(r, w[..k + 1]), r.brk(w[k].off).sep) + BatchEnded(r, w[k + 1..])
  }

  // ----- The same grouping found from the right -----

  /** Text of the groups already closed, and the marks of the group still open. */
  datatype Split = Split(closed: string, open: seq<Mark>)

  ghost function Extend(r: Rules, s: Split, m: Mark): Split {
    if s.open == [] then s.(open := [m])
    else match r.brk(Last(s.open).off)
      case Keep => s.(open := s.open + [m])
      case Cut(sep) => Split(s.closed + Group(Symbols(r, s.open), sep), [m])
  }

  ghost function Extender(r: Rules): (Split, Mark) -> Split {
    (s, m) => Extend(r, s, m)
  }

  ghost function SplitOf(r: Rules, s: Split, w: seq<Mark>): Split {
    Fold(Extender(r), s, w)
  }

  // ----- The streaming decoder keeps the open group's symbols, up to its capacity -----

  function Capped(symbols: string): string {
    if |symbols| <= CAPACITY then symbols else symbols[..CAPACITY]
  }

  /** Dropping symbols beyond the buffer never changes what is looked up. */
  lemma CappedLookup(symbols: string)
    ensures Lookup(Capped(symbols)) == Lookup(symbols)
    ensures Capped(symbols) == "" <==> symbols == ""
  {
    if |symbols| > CAPACITY {
      LongPatternUnknown(symbols);
      LongPatternUnknown(Capped(symbols));
    }
  }

  ghost predicate Simulates(r: Rules, c: Core, s: Split) {
    c == Core(s.closed, Capped(Symbols(r, s.open)))
  }

  lemma StepSimulates(r: Rules, c: Core, s: Split, m: Mark)
    requires Simulates(r, c, s) && s.open != []
    ensures Simulates(r, Fall(r, Rise(r, c, Last(s.open).off), m.on), Extend(r, s, m))
  {
    match r.brk(Last(s.open).off)
    case Keep =>
    case Cut(sep) =>
      CappedLookup(Symbols(r, s.open));
      var t := Split(s.closed + Group(Symbols(r, s.open), sep), []);
      assert s.closed + "" == s.closed;
      assert Simulates(r, Flush(c, sep), t);
      assert [] + [m] == [m];
  }

  lemma {:induction false} RunSimulates(r: Rules, w: seq<Mark>)
    ensures var s := SplitOf(r, Split("", []), w);
      Simulates(r, Run(r, w), s) && (if w == [] then s.open == [] else s.open != [] && Last(s.open) == Last(w))
  {
    if w != [] {
      var init, m := w[..|w| - 1], Last(w);
      RunSimulates(r, init);
      var s := SplitOf(r, Split("", []), init);
      if init == [] {
        assert [] + [m] == [m];
      } else {
        StepSimulates(r, Run(r, init), s, m);
      }
    }
  }

  // ----- From the right is from the left -----

  // No gap cuts: everything joins the open group.
  lemma {:induction false} SplitKeeps(r: Rules, w: seq<Mark>)
    requires forall i :: 0 <= i < |w| - 1 ==> r.brk(w[i].off) == Keep
    ensures SplitOf(r, Split("", []), w) == Split("", w)
  {
    if w != [] {
      SplitKeeps(r, w[..|w| - 1]);
      assert w == w[..|w| - 1] + [Last(w)];
    }
  }

  // What is closed already stays in front.
  lemma {:induction false} SplitBehind(r: Rules, closed: string, s: Split, w: seq<Mark>)
    ensures SplitOf(r, s.(closed := closed + s.closed), w)
         == var t := SplitOf(r, s, w); t.(closed := closed + t.closed)
  {
    if w != [] {
      SplitBehind(r, closed, s, w[..|w| - 1]);
      var t := SplitOf(r, s, w[..|w| - 1]);
      if t.open != [] && r.brk(Last(t.open).off).Cut? {
        Append3(closed, t.closed, Group(Symbols(r, t.open), r.brk(Last(t.open).off).sep));
      }
    }
  }

  // The mark after a cut opens a new group.
  lemma FirstOfRest(r: Rules, a: seq<Mark>, b: seq<Mark>)
    requires a != [] && b != [] && r.brk(Last(a).off).Cut?
    ensures SplitOf(r, Split("", a), b)
         == SplitOf(r, Split(Group(Symbols(r, a), r.brk(Last(a).off).sep) + "", []), b)
  {
    var text := Group(Symbols(r, a), r.brk(Last(a).off).sep);
    assert "" + text == text == text + "";
    assert b == [b[0]] + b[1..];
    FoldConcat(Extender(r), Split("", a), [b[0]], b[1..]);
    FoldConcat(Extender(r), Split(text, []), [b[0]], b[1..]);
    FoldSnoc(Extender(r), Split("", a), [], b[0]);
    FoldSnoc(Extender(r), Split(text, []), [], b[0]);
    assert [] + [b[0]] == [b[0]];
  }

  lemma SplitFirstGroup(r: Rules, a: seq<Mark>, b: seq<Mark>)
    requires a != [] && b != [] && r.brk(Last(a).off).Cut?
    requires forall i :: 0 <= i < |a| - 1 ==> r.brk(a[i].off) == Keep
    ensures var t := SplitOf(r, Split("", []), b);
      SplitOf(r, Split("", []), a + b) == t.(closed := Group(Symbols(r, a), r.brk(Last(a).off).sep) + t.closed)
  {
    FoldConcat(Extender(r), Split("", []), a, b);
    SplitKeeps(r, a);
    FirstOfRest(r, a, b);
    SplitBehind(r, Group(Symbols(r, a), r.brk(Last(a).off).sep), Split("", []), b);
  }

  ghost function SplitText(r: Rules, s: Split): string {
    s.closed + Group(Symbols(r, s.open), "")
  }

  lemma {:induction false} SplitIsBatch(r: Rules, w: seq<Mark>)
    ensures SplitText(r, SplitOf(r, Split("", []), w)) == Batch(r, w)
  {
    if w != [] {
      var k := FirstCut(r, w[..|w| - 1]);
      if k == |w| - 1 {
        SplitKeeps(r, w);
      } else {
        var a, b := w[..k + 1], w[k + 1..];
        assert w == a + b && Last(a) == w[k];
        SplitFirstGroup(r, a, b);
        SplitIsBatch(r, b);
        var t := SplitOf(r, Split("", []), b);
        Append3(Group(Symbols(r, a), r.brk(w[k].off).sep), t.closed, Group(Symbols(r, t.open), ""));
      }
    }
  }

  /** On every recording the streaming decoder prints, pending letter included, what the reference finds. */
  lemma StreamingIsBatch(r: Rules, w: seq<Mark>)
    ensures Text(Run(r, w)) == Batch(r, w)
    ensures |Run(r, w).buf| <= CAPACITY
  {
    RunSimulates(r, w);
    SplitIsBatch(r, w);
    var s := SplitOf(r, Split("", []), w);
    CappedLookup(Symbols(r, s.open));
    assert s.closed + "" == s.closed;
  }

  // ----- A pulse has begun that has not ended yet -----

  ghost function SplitEnd(r: Rules, s: Split): string {
    if s.open == [] then s.closed
    else s.closed + Group(Symbols(r, s.open), match r.brk(Last(s.open).off) case Keep => "" case Cut(sep) => sep)
  }

  lemma {:induction false} SplitIsEnded(r: Rules, w: seq<Mark>)
    ensures SplitEnd(r, SplitOf(r, Split("", []), w)) == BatchEnded(r, w)
    ensures w != [] ==> SplitOf(r, Split("", []), w).open != []
  {
    if w != [] {
      RunSimulates(r, w);
      var k := FirstCut(r, w);
      if k >= |w| - 1 {
        SplitKeeps(r, w);
        if k == |w| - 1 {
          assert w[..k + 1] == w && w[k + 1..] == [];
          assert BatchEnded(r, w) == Group(Symbols(r, w), r.brk(w[k].off).sep) + "";
        }
      } else {
        var a, b := w[..k + 1], w[k + 1..];
        assert w == a + b && Last(a) == w[k];
        SplitFirstGroup(r, a, b);
        SplitIsEnded(r, b);
        var t := SplitOf(r, Split("", []), b);
        var last := Group(Symbols(r, t.open), match r.brk(Last(t.open).off) case Keep => "" case Cut(sep) => sep);
        Append3(Group(Symbols(r, a), r.brk(w[k].off).sep), t.closed, last);
      }
    }
  }

  /** When a further pulse has begun, the streaming decoder has printed what the reference finds with the last gap. */
  lemma StreamingIsEnded(r: Rules, w: seq<Mark>)
    ensures Text(Start(r, w)) == BatchEnded(r, w)
  {
    if w != [] {
      RunSimulates(r, w);
      SplitIsEnded(r, w);
      var s := SplitOf(r, Split("", []), w);
      CappedLookup(Symbols(r, s.open));
      assert s.closed + "" == s.closed;
    }
  }
}
