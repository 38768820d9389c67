/** What the decoder does with every kind of window, its hex digits spelled out; and what the tables escape. */
module UriWindows {
  import opened UriTables
  import opened UriCoding

  const SMALL: string := "0123456789abcdef"
  const CAPITAL: string := "0123456789ABCDEF"

  /** This byte is the digit of that value, in either case. */
  predicate Spells(b: Byte, i: nat) {
    i < 16 && (b as int == SMALL[i] as int || b as int == CAPITAL[i] as int)
  }

  lemma DigitSpells(b: Byte, i: nat)
    requires i < 16
    ensures Spells(b, i) <==> (i < 10 && b as int == 48 + i) || (i >= 10 && (b as int == 87 + i || b as int == 55 + i))
  {
  }

  /** Exactly the digits spelled out are digits, and they have their values. */
  lemma HexLaw(b: Byte)
    ensures Hex(b) <==> exists i :: Spells(b, i)
    ensures forall i :: Spells(b, i) ==> Value(b) as int == i
  {
    forall i | Spells(b, i) ensures Hex(b) && Value(b) as int == i { DigitSpells(b, i); }
    if Hex(b) {
      DigitSpells(b, Value(b) as int);
      assert Spells(b, Value(b) as int);
    }
  }

  /** The byte of two digits. */
  function Byte16(i: nat, j: nat): Byte
    requires i < 16 && j < 16
  {
    16 * (i as Byte) + (j as Byte)
  }

  lemma PairLaw(h: Byte, l: Byte, i: nat, j: nat)
    requires Spells(h, i) && Spells(l, j)
    ensures Hex(h) && Hex(l) && Pair(h, l) == Byte16(i, j)
  {
    HexLaw(h);
    HexLaw(l);
  }

  lemma HighDigit(l: Byte, j: nat)
    requires Spells(l, j)
    ensures Digit(l) <==> j < 10
  {
    DigitSpells(l, j);
  }

  /** A triplet, in either case of its digits: plain decoding writes its byte; in a URI a question mark ends decoding;
      so it does in a redirect, which writes only the bytes after the percent sign and before 0x7f, and keeps the
      triplets of the others. */
  lemma TripletLaw(h: Byte, l: Byte, i: nat, j: nat, rest: seq<Byte>)
    requires Spells(h, i) && Spells(l, j)
    ensures var s, v := [PERCENT, h, l] + rest, Byte16(i, j);
      && Unescape(PLAIN, s) == After([v], 3, Unescape(PLAIN, rest))
      && Unescape(URI_MODE, s) == (if v == 0x3f then Result([v], 3) else After([v], 3, Unescape(URI_MODE, rest)))
      && Unescape(REDIRECT, s) ==
           if v == 0x3f then Result([v], 3)
           else After(if 0x25 < v < 0x7f then [v] else [PERCENT, h, l], 3, Unescape(REDIRECT, rest))
  {
    var s := [PERCENT, h, l] + rest;
    assert s[3..] == rest;
    PairLaw(h, l, i, j);
  }

  /** With both bits set a redirect's rules hold for second digits up to nine, a URI's for the others. */
  lemma BothBitsLaw(h: Byte, l: Byte, i: nat, j: nat, rest: seq<Byte>)
    requires Spells(h, i) && Spells(l, j)
    ensures var m, s, v := Mode(true, true), [PERCENT, h, l] + rest, Byte16(i, j);
      Unescape(m, s) ==
        if v == 0x3f then Result([v], 3)
        else After(if j >= 10 || 0x25 < v < 0x7f then [v] else [PERCENT, h, l], 3, Unescape(m, rest))
  {
    var s := [PERCENT, h, l] + rest;
    assert s[3..] == rest;
    PairLaw(h, l, i, j);
    HighDigit(l, j);
  }

  /** Everything else: bytes on their own, and percent signs that lack a digit, in every mode. */
  lemma BrokenLaw(m: Mode, h: Byte, i: nat, x: Byte, rest: seq<Byte>)
    requires Spells(h, i) && forall k :: !Spells(x, k)
    ensures x != PERCENT ==>
      Unescape(m, [x] + rest) == if x == 0x3f && m != PLAIN then Result([x], 1) else After([x], 1, Unescape(m, rest))
    ensures Unescape(m, [PERCENT, x] + rest) == After([x], 2, Unescape(m, rest))
    ensures Unescape(m, [PERCENT, h, x] + rest) == After([], 3, Unescape(m, rest))
    ensures Unescape(m, [PERCENT]) == Result([], 1) && Unescape(m, [PERCENT, h]) == Result([], 2)
  {
    HexLaw(h);
    HexLaw(x);
    assert ([x] + rest)[1..] == rest && ([PERCENT, x] + rest)[2..] == rest && ([PERCENT, h, x] + rest)[3..] == rest;
  }

  // ----- The tables -----

  // Control characters below the space, and from 0x7f on.
  predicate Unprintable(b: Byte) {
    b < 0x20 || b >= 0x7f
  }

  lemma UriChars(b: Byte)
    ensures Escapes(URI, b) <==> Unprintable(b) || b as char in " \"#%<>?\\^`{|}"
  {
  }

  lemma ArgsChars(b: Byte)
    ensures Escapes(ARGS, b) <==> Unprintable(b) || b as char in " \"#%&+;<>?\\^`{|}"
  {
  }

  lemma ComponentChars(b: Byte)
    ensures Escapes(URI_COMPONENT, b) <==> Unprintable(b) || b as char in " !\"#$%&'()*+,/:;<=>?@[\\]^`{|}"
  {
  }

  lemma HtmlChars(b: Byte)
    ensures Escapes(HTML, b) <==> Unprintable(b) || b as char in " \"#%'<>\\^`{|}"
  {
  }

  /** The closing brace goes through, the tilde does not. */
  lemma RefreshChars(b: Byte)
    ensures Escapes(REFRESH, b) <==> Unprintable(b) || b as char in " \"'<>\\^`{|~"
  {
  }

  lemma MemcachedChars(b: Byte)
    ensures Escapes(MEMCACHED, b) <==> b < 0x20 || b as char in " %"
  {
  }

  const PRINTABLE: seq<string> := [
    " \"#%<>?\\^`{|}", " \"#%&+;<>?\\^`{|}", " !\"#$%&'()*+,/:;<=>?@[\\]^`{|}", " \"#%'<>\\^`{|}",
    " \"'<>\\^`{|~", " %", " %"]

  /** What each escape type escapes, by its number: uri, args, uri_component, html, refresh, memcached, mail_auth. */
  lemma TableLaw(kind: nat, b: Byte)
    requires kind < 7
    ensures Escapes(TABLES[kind], b) <==>
      (if kind < 5 then Unprintable(b) else b < 0x20) || b as char in PRINTABLE[kind]
  {
    match kind
    case 0 => UriChars(b);
    case 1 => ArgsChars(b);
    case 2 => ComponentChars(b);
    case 3 => HtmlChars(b);
    case 4 => RefreshChars(b);
    case _ => MemcachedChars(b);
  }
}
