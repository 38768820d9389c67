/** Percent-encoding and decoding as functions on byte strings, and the laws between them. */
module UriCoding {
  import opened Folds
  import opened UriTables

  // ----- Encoding -----

  // "0123456789ABCDEF"
  const HEX: seq<Byte> := [0x30, 0x31, 0x32, 0x33, 0x34, 0x35, 0x36, 0x37, 0x38, 0x39, 0x41, 0x42, 0x43, 0x44, 0x45,
    0x46]

  function Triplet(b: Byte): seq<Byte> {
    [PERCENT, HEX[(b >> 4) as int], HEX[(b & 0xf) as int]]
  }

  function EscapeByte(table: Table): Byte -> seq<Byte> {
    b => if Escapes(table, b) then Triplet(b) else [b]
  }

  function Escape(table: Table, s: seq<Byte>): seq<Byte> {
    Flat(EscapeByte(table), s)
  }

  /** What the counting pass returns: how many bytes will be escaped. */
  function Count(table: Table, s: seq<Byte>): nat {
    if s == [] then 0 else Count(table, s[..|s| - 1]) + if Escapes(table, Last(s)) then 1 else 0
  }

  // ----- Decoding: a window of up to three bytes at a time -----

  /** The two bits of the unescape type. */
  datatype Mode = Mode(uri: bool, redirect: bool)

  const PLAIN := Mode(false, false)
  const URI_MODE := Mode(true, false)
  const REDIRECT := Mode(false, true)

  predicate Digit(ch: Byte) {
    0x30 <= ch <= 0x39
  }

  predicate HexLetter(ch: Byte) {
    0x61 <= ch | 0x20 <= 0x66
  }

  predicate Hex(ch: Byte) {
    Digit(ch) || HexLetter(ch)
  }

  function Value(ch: Byte): Byte
    requires Hex(ch)
  {
    if Digit(ch) then ch - 0x30 else (ch | 0x20) - 0x61 + 10
  }

  function Pair(h: Byte, l: Byte): Byte
    requires Hex(h) && Hex(l)
  {
    (Value(h) << 4) + Value(l)
  }

  /** A redirect keeps everything escaped that is not printable and above the percent sign. */
  predicate KeepsEscaped(m: Mode, v: Byte) {
    m.redirect && !(PERCENT < v < 0x7f)
  }

  /** Bytes a valid triplet decodes to, and whether decoding ends there. */
  function Decode(m: Mode, h: Byte, l: Byte): (seq<Byte>, bool)
    requires Hex(h) && Hex(l)
  {
    var v := Pair(h, l);
    if Digit(l) then (if KeepsEscaped(m, v) then [PERCENT, h, l] else [v], false)
    else if (m.uri || m.redirect) && v == QUESTION then ([v], true)
    else (if !m.uri && KeepsEscaped(m, v) then [PERCENT, h, l] else [v], false)
  }

  /** Bytes written and bytes read. */
  datatype Result = Result(out: seq<Byte>, used: nat)

  function After(bytes: seq<Byte>, read: nat, r: Result): Result {
    Result(bytes + r.out, read + r.used)
  }

  /** A percent sign not followed by two hex digits disappears, with the first digit and what follows it if
      there is one; a question mark ends decoding unless the mode is plain. */
  function Unescape(m: Mode, s: seq<Byte>): (r: Result)
    ensures |r.out| <= r.used <= |s|
  {
    if s == [] then Result([], 0)
    else if s[0] != PERCENT then
      if s[0] == QUESTION && (m.uri || m.redirect) then Result([s[0]], 1)
      else After([s[0]], 1, Unescape(m, s[1..]))
    else if |s| == 1 then Result([], 1)
    else if !Hex(s[1]) then After([s[1]], 2, Unescape(m, s[2..]))
    else if |s| == 2 then Result([], 2)
    else if !Hex(s[2]) then After([], 3, Unescape(m, s[3..]))
    else
      var (bytes, stop) := Decode(m, s[1], s[2]);
      if stop then Result(bytes, 3) else After(bytes, 3, Unescape(m, s[3..]))
  }

  /** Everything through the first question mark. */
  function Cut(s: seq<Byte>): seq<Byte> {
    if s == [] then [] else if s[0] == QUESTION then [s[0]] else [s[0]] + Cut(s[1..])
  }

  // ----- Encoding, then decoding -----

  lemma TripletDecodes(b: Byte)
    ensures var t := Triplet(b);
      Hex(t[1]) && Hex(t[2]) && Pair(t[1], t[2]) == b && (b == QUESTION ==> !Digit(t[2]))
  {
  }

  lemma EscapeCons(table: Table, b: Byte, s: seq<Byte>)
    ensures Escape(table, [b] + s) == EscapeByte(table)(b) + Escape(table, s)
  {
    FlatConcat(EscapeByte(table), [b], s);
    FlatSnoc(EscapeByte(table), [], b);
    assert [] + [b] == [b];
  }

  // One byte of the original at the front of the encoded form.
  lemma UnescapeEncoded(table: Table, m: Mode, b: Byte, rest: seq<Byte>)
    requires Escapes(table, PERCENT) && !m.redirect
    ensures Unescape(m, EscapeByte(table)(b) + rest).out
         == if m.uri && b == QUESTION then [b] else [b] + Unescape(m, rest).out
  {
    var s := EscapeByte(table)(b) + rest;
    if Escapes(table, b) {
      TripletDecodes(b);
      assert s[3..] == rest;
    } else {
      assert s[1..] == rest;
    }
  }

  /** Plain decoding undoes encoding; decoding a URI undoes it through the first question mark. */
  lemma {:induction false} RoundTrip(table: Table, s: seq<Byte>)
    requires Escapes(table, PERCENT)
    ensures Unescape(PLAIN, Escape(table, s)).out == s
    ensures Unescape(URI_MODE, Escape(table, s)).out == Cut(s)
  {
    if s != [] {
      RoundTrip(table, s[1..]);
      assert s == [s[0]] + s[1..];
      EscapeCons(table, s[0], s[1..]);
      UnescapeEncoded(table, PLAIN, s[0], Escape(table, s[1..]));
      UnescapeEncoded(table, URI_MODE, s[0], Escape(table, s[1..]));
    }
  }

  /** A table can be decoded, on all inputs, exactly if it escapes the percent sign. */
  lemma RoundTripLaw(table: Table)
    ensures (forall s :: Unescape(PLAIN, Escape(table, s)).out == s) <==> Escapes(table, PERCENT)
    ensures (forall s :: Unescape(URI_MODE, Escape(table, s)).out == Cut(s)) <==> Escapes(table, PERCENT)
  {
    if Escapes(table, PERCENT) {
      forall s ensures Unescape(PLAIN, Escape(table, s)).out == s
        && Unescape(URI_MODE, Escape(table, s)).out == Cut(s) {
        RoundTrip(table, s);
      }
    } else {
      var s := [PERCENT];
      EscapeCons(table, PERCENT, []);
      assert [PERCENT] + [] == s;
      assert Escape(table, s) == s;
      assert Unescape(PLAIN, s).out == [] && Unescape(URI_MODE, s).out == [];
    }
  }

  // ----- The encoded form -----

  /** Two bytes more for every byte counted. */
  lemma {:induction false} EscapeLength(table: Table, s: seq<Byte>)
    ensures |Escape(table, s)| == |s| + 2 * Count(table, s) && Count(table, s) <= |s|
  {
    if s != [] {
      EscapeLength(table, s[..|s| - 1]);
    }
  }

  lemma EscapeConcat(table: Table, a: seq<Byte>, b: seq<Byte>)
    ensures Escape(table, a + b) == Escape(table, a) + Escape(table, b)
  {
    FlatConcat(EscapeByte(table), a, b);
  }

  predicate UpperHex(ch: Byte) {
    Digit(ch) || 0x41 <= ch <= 0x46
  }

  /** Unreserved characters and triplets with upper-case digits, sections 2.1 and 2.3 of RFC 3986. */
  predicate PercentEncoded(s: seq<Byte>) {
    s == []
    || (Unreserved(s[0]) && PercentEncoded(s[1..]))
    || (|s| >= 3 && s[0] == PERCENT && UpperHex(s[1]) && UpperHex(s[2]) && PercentEncoded(s[3..]))
  }

  lemma {:induction false} ComponentForm(s: seq<Byte>)
    ensures PercentEncoded(Escape(URI_COMPONENT, s))
  {
    if s != [] {
      var b, rest := s[0], Escape(URI_COMPONENT, s[1..]);
      ComponentForm(s[1..]);
      assert s == [b] + s[1..];
      EscapeCons(URI_COMPONENT, b, s[1..]);
      ComponentEscapes(b);
      var out := EscapeByte(URI_COMPONENT)(b) + rest;
      assert if Escapes(URI_COMPONENT, b) then out[3..] == rest else out[1..] == rest;
    }
  }

  // ----- Decoding in two stages -----

  /** Every percent sign is followed by two hex digits. */
  predicate WellFormed(s: seq<Byte>) {
    s == []
    || (s[0] != PERCENT && WellFormed(s[1..]))
    || (|s| >= 3 && s[0] == PERCENT && Hex(s[1]) && Hex(s[2]) && WellFormed(s[3..]))
  }

  lemma LiteralStages(b: Byte, kept: seq<Byte>, plain: seq<Byte>)
    requires b != PERCENT && WellFormed(kept) && Unescape(PLAIN, kept).out == Cut(plain)
    ensures var r := if b == QUESTION then [b] else [b] + kept;
      WellFormed(r) && Unescape(PLAIN, r).out == Cut([b] + plain)
  {
    assert ([b] + plain)[1..] == plain && ([b] + kept)[1..] == kept && [b][1..] == [];
  }

  /** Decoding for a redirect and then plainly is decoding plainly, through the first question mark. */
  lemma {:induction false} RedirectStages(s: seq<Byte>)
    requires WellFormed(s)
    ensures var r := Unescape(REDIRECT, s).out;
      WellFormed(r) && Unescape(PLAIN, r).out == Cut(Unescape(PLAIN, s).out)
  {
    if s == [] {
    } else if s[0] != PERCENT {
      RedirectStages(s[1..]);
      LiteralStages(s[0], Unescape(REDIRECT, s[1..]).out, Unescape(PLAIN, s[1..]).out);
    } else {
      RedirectStages(s[3..]);
    }
  }
}
