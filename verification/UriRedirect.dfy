/** Decoding for a redirect, and in the mode of a URI, against plain decoding: exactly when nothing is lost or
    changed. */
module UriRedirect {
  import opened UriTables
  import opened UriCoding

  function Plain(s: seq<Byte>): seq<Byte> {
    Unescape(PLAIN, s).out
  }

  function Redirect(s: seq<Byte>): seq<Byte> {
    Unescape(REDIRECT, s).out
  }

  /** Nothing but broken triplets: a percent sign and a digit, and what follows them if that is no digit. */
  predicate Void(s: seq<Byte>) {
    s == [] || (s[0] == PERCENT && (|s| == 1 || (Hex(s[1]) && (|s| == 2 || (!Hex(s[2]) && Void(s[3..]))))))
  }

  /** Window by window up to the question mark at which a redirect stops, behind which there is nothing to
      decode: no percent sign directly follows another that was waiting for a digit. */
  predicate Safe(s: seq<Byte>) {
    if s == [] then true
    else if s[0] == QUESTION then Void(s[1..])
    else if s[0] != PERCENT then Safe(s[1..])
    else if |s| == 1 then true
    else if !Hex(s[1]) then s[1] != PERCENT && Safe(s[2..])
    else if |s| == 2 then true
    else if !Hex(s[2]) then Safe(s[3..])
    else if Pair(s[1], s[2]) == QUESTION then Void(s[3..])
    else Safe(s[3..])
  }

  lemma {:induction false} VoidIsEmpty(s: seq<Byte>)
    ensures Void(s) <==> Plain(s) == []
  {
    if |s| > 2 && s[0] == PERCENT && Hex(s[1]) && !Hex(s[2]) { VoidIsEmpty(s[3..]); }
  }

  // ----- A stray percent sign costs a byte that nothing makes up for -----

  /** Bytes a redirect would not have written decoded: up to the percent sign, and from 0x7f on. */
  function Odd(s: seq<Byte>): nat {
    if s == [] then 0 else (if PERCENT < s[0] < 0x7f then 0 else 1) + Odd(s[1..])
  }

  /** Fewer odd bytes, or as many in no more bytes, than `n` and a percent sign with `extra` - 1 bytes. */
  predicate Below(a: seq<Byte>, n: seq<Byte>, extra: nat) {
    Odd(a) <= Odd(n) || (Odd(a) == Odd(n) + 1 && |a| < |n| + extra)
  }

  predicate AtMost(a: seq<Byte>, n: seq<Byte>) {
    Odd(a) < Odd(n) || (Odd(a) == Odd(n) && |a| <= |n|)
  }

  /** What plain decoding makes of `r`, at once, behind a percent sign, and behind one and a digit,
      held against `n`. */
  ghost predicate Bounded(r: seq<Byte>, n: seq<Byte>) {
    && AtMost(Plain(r), n)
    && Below(Plain([PERCENT] + r), n, 1)
    && forall h :: Hex(h) ==> Below(Plain([PERCENT, h] + r), n, 2)
  }

  lemma LiteralPlain(ch: Byte, rest: seq<Byte>)
    requires ch != PERCENT
    ensures Plain([ch] + rest) == [ch] + Plain(rest)
  {
    assert ([ch] + rest)[1..] == rest;
  }

  lemma QuotedPlain(ch: Byte, rest: seq<Byte>)
    ensures !Hex(ch) ==> Plain([PERCENT] + ([ch] + rest)) == [ch] + Plain(rest)
    ensures [PERCENT] + ([ch] + rest) == [PERCENT, ch] + rest
  {
    assert ([PERCENT] + ([ch] + rest))[2..] == rest;
  }

  lemma TripletPlain(h: Byte, ch: Byte, rest: seq<Byte>)
    requires Hex(h)
    ensures Plain([PERCENT, h] + ([ch] + rest)) == if Hex(ch) then [Pair(h, ch)] + Plain(rest) else Plain(rest)
    ensures Hex(ch) ==> Plain([PERCENT, h, ch] + rest) == [Pair(h, ch)] + Plain(rest)
  {
    var s := [PERCENT, h] + ([ch] + rest);
    assert s[3..] == rest && s == [PERCENT, h, ch] + rest;
  }

  lemma BoundedByte(x: Byte, r: seq<Byte>, n: seq<Byte>)
    requires x != PERCENT && Bounded(r, n)
    ensures Bounded([x] + r, [x] + n)
  {
    LiteralPlain(x, r);
    QuotedPlain(x, r);
    forall h | Hex(h) ensures Below(Plain([PERCENT, h] + ([x] + r)), [x] + n, 2) {
      TripletPlain(h, x, r);
    }
  }

  lemma BoundedStray(r: seq<Byte>, n: seq<Byte>)
    requires Bounded(r, n)
    ensures Bounded([PERCENT] + r, [PERCENT] + n)
  {
    QuotedPlain(PERCENT, r);
    forall h | Hex(h) ensures Below(Plain([PERCENT, h] + ([PERCENT] + r)), [PERCENT] + n, 2) {
      TripletPlain(h, PERCENT, r);
    }
  }

  lemma TwoLiterals(h: Byte, l: Byte, r: seq<Byte>)
    requires Hex(h) && Hex(l)
    ensures Plain([h] + ([l] + r)) == [h] + ([l] + Plain(r)) && Odd([h] + ([l] + Plain(r))) == Odd(Plain(r))
  {
    LiteralPlain(l, r);
    LiteralPlain(h, [l] + r);
  }

  // A kept triplet behind a percent sign, and behind one and a digit.
  lemma KeptBehind(h: Byte, l: Byte, r: seq<Byte>, n: seq<Byte>)
    requires Hex(h) && Hex(l) && !(PERCENT < Pair(h, l) < 0x7f) && AtMost(Plain(r), n)
    ensures var kept, m := [PERCENT, h, l] + r, [Pair(h, l)] + n;
      Below(Plain([PERCENT] + kept), m, 1) && forall g :: Hex(g) ==> Below(Plain([PERCENT, g] + kept), m, 2)
  {
    var tail := [h] + ([l] + r);
    assert [PERCENT, h, l] + r == [PERCENT] + tail;
    TwoLiterals(h, l, r);
    QuotedPlain(PERCENT, tail);
    forall g | Hex(g) ensures Plain([PERCENT, g] + ([PERCENT] + tail)) == Plain(tail) {
      TripletPlain(g, PERCENT, tail);
    }
  }

  lemma BoundedKept(h: Byte, l: Byte, r: seq<Byte>, n: seq<Byte>)
    requires Hex(h) && Hex(l) && !(PERCENT < Pair(h, l) < 0x7f) && Bounded(r, n)
    ensures Bounded([PERCENT, h, l] + r, [Pair(h, l)] + n)
  {
    KeptBehind(h, l, r, n);
    TripletPlain(h, l, r);
  }

  // What the two decoders make of a good triplet.
  lemma TripletBoth(h: Byte, l: Byte, rest: seq<Byte>)
    requires Hex(h) && Hex(l)
    ensures var s, v := [PERCENT, h, l] + rest, Pair(h, l);
      && Plain(s) == [v] + Plain(rest)
      && Redirect(s) == if v ==
        QUESTION then [v] else if PERCENT < v < 0x7f then [v] + Redirect(rest) else [PERCENT, h, l] + Redirect(rest)
  {
    var s := [PERCENT, h, l] + rest;
    assert s[3..] == rest;
  }

  lemma TripletBounded(h: Byte, l: Byte, rest: seq<Byte>)
    requires Hex(h) && Hex(l) && Bounded(Redirect(rest), Plain(rest))
    ensures var s := [PERCENT, h, l] + rest; Bounded(Redirect(s), Plain(s))
  {
    var v := Pair(h, l);
    TripletBoth(h, l, rest);
    if v == QUESTION {
    } else if PERCENT < v < 0x7f {
      BoundedByte(v, Redirect(rest), Plain(rest));
    } else {
      BoundedKept(h, l, Redirect(rest), Plain(rest));
    }
  }

  lemma Window(s: seq<Byte>)
    requires |s| >= 3 && s[0] == PERCENT
    ensures s == [PERCENT, s[1], s[2]] + s[3..]
  {
  }

  // A byte on its own.
  lemma LiteralBounded(s: seq<Byte>)
    requires s != [] && s[0] != PERCENT && Bounded(Redirect(s[1..]), Plain(s[1..]))
    ensures Bounded(Redirect(s), Plain(s))
  {
    if s[0] == QUESTION {
    } else {
      BoundedByte(s[0], Redirect(s[1..]), Plain(s[1..]));
    }
  }

  // A percent sign and what is no digit.
  lemma QuotedBounded(s: seq<Byte>)
    requires |s| >= 2 && s[0] == PERCENT && !Hex(s[1]) && Bounded(Redirect(s[2..]), Plain(s[2..]))
    ensures Bounded(Redirect(s), Plain(s))
  {
    if s[1] == PERCENT {
      BoundedStray(Redirect(s[2..]), Plain(s[2..]));
    } else {
      BoundedByte(s[1], Redirect(s[2..]), Plain(s[2..]));
    }
  }

  lemma BrokenSame(s: seq<Byte>)
    requires |s| >= 3 && s[0] == PERCENT && Hex(s[1]) && !Hex(s[2])
    ensures Redirect(s) == Redirect(s[3..]) && Plain(s) == Plain(s[3..])
  {
  }

  lemma {:induction false} RedirectBounded(s: seq<Byte>)
    ensures Bounded(Redirect(s), Plain(s))
  {
    if s == [] || (s[0] == PERCENT && (|s| == 1 || (|s| == 2 && Hex(s[1])))) {
    } else if s[0] != PERCENT {
      RedirectBounded(s[1..]);
      LiteralBounded(s);
    } else if !Hex(s[1]) {
      RedirectBounded(s[2..]);
      QuotedBounded(s);
    } else if !Hex(s[2]) {
      RedirectBounded(s[3..]);
      BrokenSame(s);
    } else {
      RedirectBounded(s[3..]);
      TripletBounded(s[1], s[2], s[3..]);
      Window(s);
    }
  }

  // ----- The law -----

  lemma StrayLost(rest: seq<Byte>)
    ensures Plain([PERCENT] + Redirect(rest)) != [PERCENT] + Plain(rest)
  {
    RedirectBounded(rest);
  }

  // A byte that both decoders write, and that the second one keeps.
  lemma SameByte(x: Byte, r: seq<Byte>, n: seq<Byte>)
    requires x != PERCENT
    ensures Plain([x] + r) == [x] + n <==> Plain(r) == n
  {
    LiteralPlain(x, r);
    assert ([x] + Plain(r))[1..] == Plain(r) && ([x] + n)[1..] == n;
  }

  lemma SameTriplet(h: Byte, l: Byte, r: seq<Byte>, n: seq<Byte>)
    requires Hex(h) && Hex(l)
    ensures Plain([PERCENT, h, l] + r) == [Pair(h, l)] + n <==> Plain(r) == n
  {
    TripletPlain(h, l, r);
    assert ([Pair(h, l)] + Plain(r))[1..] == Plain(r) && ([Pair(h, l)] + n)[1..] == n;
  }

  lemma StopLost(n: seq<Byte>)
    ensures Plain([QUESTION]) == [QUESTION] + n <==> n == []
  {
    LiteralPlain(QUESTION, []);
    assert [QUESTION] + [] == [QUESTION];
    assert ([QUESTION] + n)[1..] == n;
  }

  /** Plain decoding after a redirect's is plain decoding if and only if, up to the question mark where the
      redirect stops, no percent sign is taken for the digit of another, and nothing behind it decodes. */
  lemma {:induction false} RedirectLaw(s: seq<Byte>)
    ensures Plain(Redirect(s)) == Plain(s) <==> Safe(s)
  {
    if s == [] || s == [PERCENT] || (|s| == 2 && s[0] == PERCENT && Hex(s[1])) {
    } else if s[0] == QUESTION {
      VoidIsEmpty(s[1..]);
      StopLost(Plain(s[1..]));
    } else if s[0] != PERCENT {
      RedirectLaw(s[1..]);
      SameByte(s[0], Redirect(s[1..]), Plain(s[1..]));
    } else if !Hex(s[1]) {
      RedirectLaw(s[2..]);
      if s[1] == PERCENT { StrayLost(s[2..]); } else { SameByte(s[1], Redirect(s[2..]), Plain(s[2..])); }
    } else if !Hex(s[2]) {
      RedirectLaw(s[3..]);
      BrokenSame(s);
    } else {
      var v, rest := Pair(s[1], s[2]), s[3..];
      RedirectLaw(rest);
      TripletBoth(s[1], s[2], rest);
      Window(s);
      if v == QUESTION {
        VoidIsEmpty(rest);
        StopLost(Plain(rest));
      } else if PERCENT < v < 0x7f {
        SameByte(v, Redirect(rest), Plain(rest));
      } else {
        SameTriplet(s[1], s[2], Redirect(rest), Plain(rest));
      }
    }
  }

  // ----- Where every percent sign has its digits, and where one has not -----

  lemma {:induction false} CutWhole(s: seq<Byte>)
    ensures Cut(s) == s <==> s == [] || QUESTION !in s[..|s| - 1]
  {
    if |s| > 1 {
      CutWhole(s[1..]);
      assert s[..|s| - 1] == [s[0]] + s[1..][..|s| - 2];
      assert s == [s[0]] + s[1..];
    }
  }

  /** A well-formed redirect can be decoded later with nothing lost if and only if no question mark, literal or
      encoded, has anything behind it. */
  lemma RedirectPreserves(s: seq<Byte>)
    requires WellFormed(s)
    ensures Plain(Redirect(s)) == Plain(s) <==> Plain(s) == [] || QUESTION !in Plain(s)[..|Plain(s)| - 1]
  {
    RedirectStages(s);
    CutWhole(Plain(s));
  }

  /** "%%41" is decoded to an A in the end; "%x", as stray, is decoded the same either way. */
  lemma RedirectStray()
    ensures var s: seq<Byte> := [PERCENT, PERCENT, 0x34, 0x31];
      Plain(s) == [PERCENT, 0x34, 0x31] && Plain(Redirect(s)) == [0x41]
    ensures var s: seq<Byte> := [PERCENT, 0x78]; !WellFormed(s) && Safe(s) && Plain(Redirect(s)) == Plain(s) == [0x78]
  {
    var s: seq<Byte> := [PERCENT, PERCENT, 0x34, 0x31];
    var t: seq<Byte> := [PERCENT, 0x34, 0x31];
    assert s[2..] == [0x34, 0x31] && s[2..][1..] == [0x31] && t[3..] == [];
    forall m: Mode ensures Unescape(m, s).out == t {
      assert Unescape(m, s[2..][1..]).out == [0x31];
      assert Unescape(m, s[2..]).out == [0x34] + [0x31];
    }
    assert Pair(0x34, 0x31) == 0x41;
    RedirectLaw([PERCENT, 0x78]);
    assert [PERCENT, 0x78][2..] == [];
  }

  // ----- The mode of a URI -----

  function Uri(s: seq<Byte>): seq<Byte> {
    Unescape(URI_MODE, s).out
  }

  /** Window by window up to a question mark that ends decoding: none is taken for a digit, unless there is nothing
      to decode behind it. */
  predicate UriSafe(s: seq<Byte>) {
    if s == [] || s[0] == QUESTION then true
    else if s[0] != PERCENT then UriSafe(s[1..])
    else if |s| == 1 then true
    else if s[1] == QUESTION then Void(s[2..])
    else if !Hex(s[1]) then UriSafe(s[2..])
    else if |s| == 2 then true
    else if !Hex(s[2]) then UriSafe(s[3..])
    else Pair(s[1], s[2]) == QUESTION || UriSafe(s[3..])
  }

  lemma {:induction false} VoidIsEmptyUri(s: seq<Byte>)
    ensures Void(s) <==> Uri(s) == []
  {
    if |s| > 2 && s[0] == PERCENT && Hex(s[1]) && !Hex(s[2]) { VoidIsEmptyUri(s[3..]); }
  }

  lemma TripletUri(h: Byte, l: Byte, rest: seq<Byte>)
    requires Hex(h) && Hex(l)
    ensures var s, v := [PERCENT, h, l] + rest, Pair(h, l);
      Plain(s) == [v] + Plain(rest) && Uri(s) == if v == QUESTION then [v] else [v] + Uri(rest)
  {
    var s := [PERCENT, h, l] + rest;
    assert s[3..] == rest;
  }

  // A byte that both modes write.
  lemma CutByte(x: Byte, u: seq<Byte>, n: seq<Byte>)
    requires x != QUESTION
    ensures [x] + u == Cut([x] + n) <==> u == Cut(n)
  {
    assert ([x] + n)[1..] == n;
    assert ([x] + u)[1..] == u && ([x] + Cut(n))[1..] == Cut(n);
  }

  lemma CutQuestion(u: seq<Byte>, n: seq<Byte>)
    ensures [QUESTION] + u == Cut([QUESTION] + n) <==> u == []
  {
    assert |[QUESTION] + u| == 1 + |u|;
    if u == [] { assert [QUESTION] + u == [QUESTION]; }
  }

  lemma BrokenSameUri(s: seq<Byte>)
    requires |s| >= 3 && s[0] == PERCENT && Hex(s[1]) && !Hex(s[2])
    ensures Uri(s) == Uri(s[3..]) && Plain(s) == Plain(s[3..])
  {
  }

  /** Decoding a URI is plain decoding through the first question mark if and only if no question mark is taken for
      a digit with more to decode behind it: such a one does not end decoding. */
  lemma {:induction false} UriIsCutPlain(s: seq<Byte>)
    ensures Uri(s) == Cut(Plain(s)) <==> UriSafe(s)
  {
    if s == [] || (s[0] == PERCENT && (|s| == 1 || (|s| == 2 && Hex(s[1])))) {
    } else if s[0] == QUESTION {
      CutQuestion([], Plain(s[1..]));
    } else if s[0] != PERCENT {
      UriIsCutPlain(s[1..]);
      CutByte(s[0], Uri(s[1..]), Plain(s[1..]));
    } else if s[1] == QUESTION {
      VoidIsEmptyUri(s[2..]);
      CutQuestion(Uri(s[2..]), Plain(s[2..]));
    } else if !Hex(s[1]) {
      UriIsCutPlain(s[2..]);
      CutByte(s[1], Uri(s[2..]), Plain(s[2..]));
    } else if !Hex(s[2]) {
      UriIsCutPlain(s[3..]);
      BrokenSameUri(s);
    } else {
      var v, rest := Pair(s[1], s[2]), s[3..];
      UriIsCutPlain(rest);
      TripletUri(s[1], s[2], rest);
      Window(s);
      if v == QUESTION { CutQuestion([], Plain(rest)); } else { CutByte(v, Uri(rest), Plain(rest)); }
    }
  }

  /** Where every percent sign has its digits, it always is. */
  lemma {:induction false} WellFormedUri(s: seq<Byte>)
    requires WellFormed(s)
    ensures Uri(s) == Cut(Plain(s))
  {
    UriIsCutPlain(s);
    WellFormedSafe(s);
  }

  lemma {:induction false} WellFormedSafe(s: seq<Byte>)
    requires WellFormed(s)
    ensures UriSafe(s)
  {
    if s != [] {
      if s[0] != PERCENT { WellFormedSafe(s[1..]); } else { WellFormedSafe(s[3..]); }
    }
  }
}
