/** The Morse alphabet shared by both labs' senders and receivers. */
module MorseCode {
  import opened Options

  // Letters A to Z, then digits 0 to 9.
  const TABLE: seq<string> := [
    ".-", "-...", "-.-.", "-..", ".", "..-.", "--.", "....", "..", ".---", "-.-", ".-..", "--",
    "-.", "---", ".--.", "--.-", ".-.", "...", "-", "..-", "...-", ".--", "-..-", "-.--", "--..",
    "-----", ".----", "..---", "...--", "....-", ".....", "-....", "--...", "---..", "----."]

  predicate IsLetter(c: char) {
    'A' <= c <= 'Z' || '0' <= c <= '9'
  }

  type Glyph = c: char | IsLetter(c) witness 'A'

  function ToUpper(c: char): char {
    if 'a' <= c <= 'z' then (c as int - 32) as char else c
  }

  /** The character whose code is entry `i` of the table. */
  function CharAt(i: nat): char
    requires i < 36
  {
    if i < 26 then (65 + i) as char else (48 + i - 26) as char
  }

  function IndexOf(c: Glyph): (i: nat)
    ensures i < 36
  {
    if 'A' <= c <= 'Z' then c as int - 65 else 26 + (c as int - 48)
  }

  function Code(c: Glyph): string {
    TABLE[IndexOf(c)]
  }

  /** The sender's lookup: "/" stands for the space, None for a character with no code. */
  function GetMorseCode(c: char): Option<string> {
    var u := ToUpper(c);
    if IsLetter(u) then Some(Code(u)) else if u == ' ' then Some("/") else None
  }

  /** What the receivers print for a buffered pattern. */
  ghost function Lookup(pattern: string): char {
    if pattern == "" then '\0'
    else if exists i: nat :: i < 36 && TABLE[i] == pattern then
      var i: nat :| i < 36 && TABLE[i] == pattern; CharAt(i)
    else '?'
  }

  lemma TableShape(i: nat)
    requires i < 36
    ensures if i < 26 then 1 <= |TABLE[i]| <= 4 else |TABLE[i]| == 5
    ensures forall k :: 0 <= k < |TABLE[i]| ==> TABLE[i][k] == '.' || TABLE[i][k] == '-'
  {
  }

  lemma LettersDistinct(i: nat, j: nat)
    requires i < j < 26
    ensures TABLE[i] != TABLE[j]
  {
  }

  lemma DigitsDistinct(i: nat, j: nat)
    requires 26 <= i < j < 36
    ensures TABLE[i] != TABLE[j]
  {
  }

  lemma TableDistinct(i: nat, j: nat)
    requires i < j < 36
    ensures TABLE[i] != TABLE[j]
  {
    TableShape(i);
    TableShape(j);
    if j < 26 { LettersDistinct(i, j); } else if 26 <= i { DigitsDistinct(i, j); }
  }

  lemma LookupEntry(i: nat)
    requires i < 36
    ensures Lookup(TABLE[i]) == CharAt(i)
  {
    TableShape(i);
    var p := TABLE[i];
    var k: nat :| k < 36 && TABLE[k] == p && Lookup(p) == CharAt(k);
    if k < i { TableDistinct(k, i); } else if i < k { TableDistinct(i, k); }
  }

  lemma LookupHit(pattern: string) returns (i: nat)
    requires IsLetter(Lookup(pattern))
    ensures i < 36 && TABLE[i] == pattern && CharAt(i) == Lookup(pattern)
  {
    var k: nat :| k < 36 && TABLE[k] == pattern && Lookup(pattern) == CharAt(k);
    i := k;
  }

  /** A pattern decodes to a letter or digit exactly when it is that character's code. */
  lemma LookupInvertsCode(pattern: string, c: Glyph)
    ensures Lookup(pattern) == c <==> pattern == Code(c)
  {
    LookupEntry(IndexOf(c));
    if Lookup(pattern) == c {
      var i := LookupHit(pattern);
    }
  }

  /** No code is longer than five symbols. */
  lemma LongPatternUnknown(pattern: string)
    requires |pattern| > 5
    ensures Lookup(pattern) == '?'
  {
    forall i: nat | i < 36 ensures TABLE[i] != pattern { TableShape(i); }
  }

  /** The receivers' search: letters first, then digits, '?' when neither loop hits. */
  method DecodeMorse(pattern: string) returns (c: char)
    ensures c == Lookup(pattern)
  {
    if |pattern| == 0 { return '\0'; }
    for i := 0 to 26
      invariant forall k :: 0 <= k < i ==> TABLE[k] != pattern
    {
      if pattern == TABLE[i] {
        LookupEntry(i);
        return (65 + i) as char;
      }
    }
    for i := 0 to 10
      invariant forall k :: 0 <= k < 26 + i ==> TABLE[k] != pattern
    {
      if pattern == TABLE[26 + i] {
        LookupEntry(26 + i);
        return (48 + i) as char;
      }
    }
    return '?';
  }
}
