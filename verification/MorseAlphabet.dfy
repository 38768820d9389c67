/** The alphabet and its codes spelled out, independently of how the programs find them. */
module MorseAlphabet {
  import opened Options
  import opened MorseCode

  const UPPER: string := "ABCDEFGHIJKLMNOPQRSTUVWXYZ"
  const LOWER: string := "abcdefghijklmnopqrstuvwxyz"
  const DIGITS: string := "0123456789"

  lemma LettersLie(c: char)
    ensures forall k :: 0 <= k < 26 ==> UPPER[k] as int == 65 + k
    ensures c in UPPER <==> 'A' <= c <= 'Z'
  {
    if 'A' <= c <= 'Z' { assert UPPER[c as int - 65] == c; }
  }

  lemma SmallLie(c: char)
    ensures forall k :: 0 <= k < 26 ==> LOWER[k] as int == 97 + k
    ensures c in LOWER <==> 'a' <= c <= 'z'
  {
    if 'a' <= c <= 'z' { assert LOWER[c as int - 97] == c; }
  }

  /** Either case of a letter has the letter's code. */
  lemma LetterCodes(k: nat)
    requires k < 26
    ensures GetMorseCode(UPPER[k]) == GetMorseCode(LOWER[k]) == Some(TABLE[k])
  {
    LettersLie(UPPER[k]);
    SmallLie(LOWER[k]);
  }

  /** A digit has its own. */
  lemma DigitCodes(k: nat)
    requires k < 10
    ensures GetMorseCode(DIGITS[k]) == Some(TABLE[26 + k])
  {
  }

  /** The space has its mark, and nothing else has a code. */
  lemma NoOtherCodes(c: char)
    ensures GetMorseCode(' ') == Some("/")
    ensures GetMorseCode(c) == None <==> c !in UPPER && c !in LOWER && c !in DIGITS && c != ' '
  {
    LettersLie(c);
    SmallLie(c);
  }

  /** The International Morse code by length; within a length dots come before dashes. */
  const LEVELS: seq<string> := ["ET", "IANM", "SURWDKGO", "HVF L PJBXCYZQ  ", "54 3   2       16       7   8 90"]

  function Place(code: string): nat {
    if code == "" then 0 else 2 * Place(code[..|code| - 1]) + Bit(code[|code| - 1])
  }

  function Bit(symbol: char): nat {
    if symbol == '-' then 1 else 0
  }

  lemma ShortPlaces(a: char, b: char, c: char, d: char)
    ensures Place([a]) == Bit(a) && Place([a, b]) == 2 * Bit(a) + Bit(b)
    ensures Place([a, b, c]) == 4 * Bit(a) + 2 * Bit(b) + Bit(c)
    ensures Place([a, b, c, d]) == 8 * Bit(a) + 4 * Bit(b) + 2 * Bit(c) + Bit(d)
  {
    assert "" + [a] == [a] && [a] + [b] == [a, b] && [a, b] + [c] == [a, b, c] && [a, b, c] + [d] == [a, b, c, d];
  }

  lemma LongPlace(a: char, b: char, c: char, d: char, e: char)
    ensures Place([a, b, c, d, e]) == 16 * Bit(a) + 8 * Bit(b) + 4 * Bit(c) + 2 * Bit(d) + Bit(e)
  {
    ShortPlaces(a, b, c, d);
    assert [a, b, c, d] + [e] == [a, b, c, d, e];
  }

  lemma FourPlace(code: string)
    requires |code| == 4
    ensures Place(code) == 8 * Bit(code[0]) + 4 * Bit(code[1]) + 2 * Bit(code[2]) + Bit(code[3])
  {
    ShortPlaces(code[0], code[1], code[2], code[3]);
    assert code == [code[0], code[1], code[2], code[3]];
  }

  /** The table's code of a character stands where International Morse has that character. */
  ghost predicate Morse(i: nat)
    requires i < 36
  {
    var code := TABLE[i];
    1 <= |code| <= 5 && Place(code) < |LEVELS[|code| - 1]| && LEVELS[|code| - 1][Place(code)] == CharAt(i)
  }

  lemma OneIsMorse(i: nat)
    requires i < 26 && |TABLE[i]| == 1
    ensures Morse(i)
  {
    var code := TABLE[i];
    TableShape(i);
    ShortPlaces(code[0], '.', '.', '.');
    assert code == [code[0]];
  }

  lemma TwoIsMorse(i: nat)
    requires i < 26 && |TABLE[i]| == 2
    ensures Morse(i)
  {
    var code := TABLE[i];
    TableShape(i);
    ShortPlaces(code[0], code[1], '.', '.');
    assert code == [code[0], code[1]];
  }

  lemma ThreeIsMorse(i: nat)
    requires i < 13 && |TABLE[i]| == 3
    ensures Morse(i)
  {
    var code := TABLE[i];
    TableShape(i);
    ShortPlaces(code[0], code[1], code[2], '.');
    assert code == [code[0], code[1], code[2]];
  }

  lemma ThreeIsMorseToo(i: nat)
    requires 13 <= i < 26 && |TABLE[i]| == 3
    ensures Morse(i)
  {
    var code := TABLE[i];
    TableShape(i);
    ShortPlaces(code[0], code[1], code[2], '.');
    assert code == [code[0], code[1], code[2]];
  }

  lemma FourIsMorse(i: nat)
    requires i < 13 && |TABLE[i]| == 4
    ensures Morse(i)
  {
    var code := TABLE[i];
    TableShape(i);
    FourPlace(code);
  }

  lemma FourIsMorseToo(i: nat)
    requires 13 <= i < 26 && |TABLE[i]| == 4
    ensures Morse(i)
  {
    var code := TABLE[i];
    TableShape(i);
    FourPlace(code);
  }

  lemma LongIsMorse(i: nat)
    requires 26 <= i < 36
    ensures Morse(i)
  {
    var code := TABLE[i];
    TableShape(i);
    LongPlace(code[0], code[1], code[2], code[3], code[4]);
    assert code == [code[0], code[1], code[2], code[3], code[4]];
  }

  // ----- Upper case, letter for letter -----

  /** Where a character first stands, the length if nowhere. */
  function Position(s: string, c: char): (k: nat)
    ensures k <= |s| && (k < |s| ==> s[k] == c) && forall j :: 0 <= j < k ==> s[j] != c
  {
    if s == "" || s[0] == c then 0 else 1 + Position(s[1..], c)
  }

  /** A small letter's capital; anything else is its own. */
  function Capital(c: char): char {
    var k := Position(LOWER, c);
    if k < 26 then UPPER[k] else c
  }

  predicate Listed(c: char) {
    c in UPPER || c in DIGITS
  }

  /** What a character contributes to a text: the end of a word, a capital or digit, or nothing. */
  datatype Piece = Gap | Sign(u: char)

  function PieceOf(c: char): seq<Piece> {
    var u := Capital(c);
    if u == ' ' then [Gap] else if Listed(u) then [Sign(u)] else []
  }

  lemma CapitalIsToUpper(c: char)
    ensures Capital(c) == ToUpper(c)
  {
    LettersLie(c);
    SmallLie(c);
  }

  /** The sender's upper-casing, and its idea of what has a code, are those of the alphabets. */
  lemma PieceIsToUpper(c: char)
    ensures var u := ToUpper(c); PieceOf(c) == if u == ' ' then [Gap] else if IsLetter(u) then [Sign(u)] else []
  {
    CapitalIsToUpper(c);
    LettersLie(ToUpper(c));
  }

  lemma TableIsMorse(i: nat)
    requires i < 36
    ensures Morse(i)
  {
    TableShape(i);
    if i >= 26 {
      LongIsMorse(i);
    } else {
      match |TABLE[i]|
      case 1 => OneIsMorse(i);
      case 2 => TwoIsMorse(i);
      case 3 => if i < 13 { ThreeIsMorse(i); } else { ThreeIsMorseToo(i); }
      case _ => if i < 13 { FourIsMorse(i); } else { FourIsMorseToo(i); }
    }
  }
}
