/** The text a message carries over the link: its words, upper-cased and cleaned. */
module MorseText {
  import opened Folds
  import opened MorseCode
  import opened MorseAlphabet
  import opened Waveform
  import opened Decoding

  type Parts = ws: seq<string> | ws != [] witness [""]

  function AddPiece(ws: Parts, piece: Piece): Parts {
    match piece
    case Gap => ws + [""]
    case Sign(u) => ws[..|ws| - 1] + [Last(ws) + [u]]
  }

  function PutPieces(ws: Parts, pieces: seq<Piece>): Parts {
    Fold<Parts, Piece>(AddPiece, ws, pieces)
  }

  /** The message split at its spaces, small letters made capitals, characters without a code dropped. */
  function Words(message: string): Parts {
    PutPieces([""], Flat(PieceOf, message))
  }

  /** Non-empty words joined by a space, or by `far` where empty words stood in between. */
  function Join(ws: seq<string>, far: string): string {
    if ws == [] then ""
    else
      var init, w := ws[..|ws| - 1], Last(ws);
      var text := Join(init, far);
      if w == "" then text
      else if text == "" then w
      else text + (if Last(init) == "" then far else " ") + w
  }

  /** `text` repeated, single spaces in between. */
  function Copies(text: string, reps: nat): string {
    if reps == 0 then "" else if reps == 1 then text else Copies(text, reps - 1) + " " + text
  }

  /** Three units print nothing, seven a space, eleven or more the far separator. */
  ghost predicate Separates(sep: nat -> string, far: string) {
    sep(3) == "" && sep(7) == " " && forall u :: u >= 11 ==> sep(u) == far
  }

  // How many empty words a silence of this length stands for.
  ghost predicate QuietAgrees(ws: seq<string>, quiet: nat) {
    if ws == [] || Last(ws) != "" then quiet == 3
    else if |ws| >= 2 && ws[|ws| - 2] != "" then quiet == 7
    else quiet >= 11
  }

  ghost predicate ProseAgrees(p: Prose, ws: seq<string>, far: string) {
    p.text == Join(ws, far) && (p.text != "" ==> QuietAgrees(ws, p.quiet))
  }

  lemma JoinSnoc(ws: seq<string>, w: string, far: string)
    ensures var text := Join(ws, far);
      Join(ws + [w], far) ==
        if w == "" then text
        else if text == "" then w
        else text + (if Last(ws) == "" then far else " ") + w
  {
    assert (ws + [w])[..|ws|] == ws;
  }

  // What a further letter is preceded by, when there is text already.
  function Between(ws: seq<string>, far: string): string
    requires ws != []
  {
    if Last(ws) != "" then "" else if |ws| >= 2 && ws[|ws| - 2] != "" then " " else far
  }

  lemma JoinExtend(ws: seq<string>, u: char, far: string)
    requires ws != []
    ensures var text := Join(ws, far);
      Join(ws[..|ws| - 1] + [Last(ws) + [u]], far) == (if text == "" then "" else text + Between(ws, far)) + [u]
  {
    var init, w := ws[..|ws| - 1], Last(ws);
    JoinSnoc(init, w, far);
    assert ws == init + [w];
    JoinSnoc(init, w + [u], far);
  }

  lemma AgreesSpace(p: Prose, ws: seq<string>, sep: nat -> string, far: string)
    requires ws != [] && ProseAgrees(p, ws, far)
    ensures ProseAgrees(ReadToken(p, Pause(4), sep), ws + [""], far)
  {
    JoinSnoc(ws, "", far);
  }

  lemma QuietBetween(ws: seq<string>, quiet: nat, sep: nat -> string, far: string)
    requires Separates(sep, far) && ws != []
    ensures QuietAgrees(ws, quiet) ==> sep(quiet) == Between(ws, far)
  {
  }

  lemma AgreesLetter(p: Prose, ws: seq<string>, u: Glyph, sep: nat -> string, far: string)
    requires Separates(sep, far)
    requires ws != [] && ProseAgrees(p, ws, far)
    ensures ProseAgrees(ReadToken(p, Letter(u), sep), ws[..|ws| - 1] + [Last(ws) + [u]], far)
  {
    JoinExtend(ws, u, far);
    var vs := ws[..|ws| - 1] + [Last(ws) + [u]];
    assert Last(vs) == Last(ws) + [u];
    QuietBetween(ws, p.quiet, sep, far);
  }

  lemma ReadOne(ts: seq<Token>, t: Token, sep: nat -> string)
    ensures Read(ts + [t], sep) == ReadToken(Read(ts, sep), t, sep)
  {
    FoldSnoc(Reader(sep), Prose("", 0), ts, t);
  }

  lemma PutOne(ws: Parts, piece: Piece)
    ensures PutPieces(ws, [piece]) == AddPiece(ws, piece) && PutPieces(ws, []) == ws
  {
    FoldSnoc<Parts, Piece>(AddPiece, ws, [], piece);
    assert [] + [piece] == [piece];
  }

  lemma AgreesSign(ts: seq<Token>, ws: Parts, u: Glyph, sep: nat -> string, far: string)
    requires Separates(sep, far) && ProseAgrees(Read(ts, sep), ws, far)
    ensures ProseAgrees(Read(ts + [Letter(u)], sep), PutPieces(ws, [Sign(u)]), far)
  {
    PutOne(ws, Sign(u));
    ReadOne(ts, Letter(u), sep);
    AgreesLetter(Read(ts, sep), ws, u, sep, far);
  }

  lemma AgreesGap(ts: seq<Token>, ws: Parts, sep: nat -> string, far: string)
    requires Separates(sep, far) && ProseAgrees(Read(ts, sep), ws, far)
    ensures ProseAgrees(Read(ts + [Pause(4)], sep), PutPieces(ws, [Gap]), far)
  {
    PutOne(ws, Gap);
    ReadOne(ts, Pause(4), sep);
    AgreesSpace(Read(ts, sep), ws, sep, far);
  }

  /** A character's token and its piece mean the same. */
  predicate Match(tokens: seq<Token>, pieces: seq<Piece>) {
    || (tokens == [] && pieces == [])
    || (tokens == [Pause(4)] && pieces == [Gap])
    || (|tokens| == 1 && tokens[0].Letter? && pieces == [Sign(tokens[0].c)])
  }

  lemma CharMatches(c: char)
    ensures Match(TokenOf(c), PieceOf(c))
  {
    PieceIsToUpper(c);
  }

  lemma AgreesMatch(ts: seq<Token>, ws: Parts, tokens: seq<Token>, pieces: seq<Piece>, sep: nat -> string, far: string)
    requires Separates(sep, far) && ProseAgrees(Read(ts, sep), ws, far) && Match(tokens, pieces)
    ensures ProseAgrees(Read(ts + tokens, sep), PutPieces(ws, pieces), far)
  {
    if tokens == [] {
      PutOne(ws, Gap);
      assert ts + [] == ts;
    } else if tokens[0].Letter? {
      AgreesSign(ts, ws, tokens[0].c, sep, far);
      assert tokens == [Letter(tokens[0].c)];
    } else {
      AgreesGap(ts, ws, sep, far);
    }
  }

  // Tokens and pieces that match, character by character.
  lemma {:induction false} TextAgrees(f: char -> seq<Token>, g: char -> seq<Piece>, message: string,
                                      sep: nat -> string, far: string)
    requires Separates(sep, far) && forall c :: Match(f(c), g(c))
    ensures ProseAgrees(Read(Flat(f, message), sep), PutPieces([""], Flat(g, message)), far)
  {
    if message == "" {
      JoinSnoc([], "", far);
      assert [] + [""] == [""];
    } else {
      var init, c := message[..|message| - 1], Last(message);
      TextAgrees(f, g, init, sep, far);
      AgreesMatch(Flat(f, init), PutPieces([""], Flat(g, init)), f(c), g(c), sep, far);
      FoldConcat<Parts, Piece>(AddPiece, [""], Flat(g, init), g(c));
    }
  }

  /** Reading off a message's tokens gives its cleaned words. */
  lemma MessageText(message: string, sep: nat -> string, far: string)
    requires Separates(sep, far)
    ensures ProseAgrees(Read(TokensOf(message), sep), Words(message), far)
  {
    forall c ensures Match(TokenOf(c), PieceOf(c)) { CharMatches(c); }
    TextAgrees(TokenOf, PieceOf, message, sep, far);
  }

  // ----- Repetitions -----

  function Repeated(message: string, reps: nat): string {
    if reps == 0 then "" else if reps == 1 then message else Repeated(message, reps - 1) + " " + message
  }

  ghost predicate SameProse(p: Prose, q: Prose) {
    p.text == q.text && (p.text != "" ==> (p.quiet == q.quiet == 3) || (p.quiet >= 7 && q.quiet >= 7))
  }

  /** With every silence of seven units or more a space, the exact length of a silence does not matter. */
  lemma {:induction false} ReadBoth(p: Prose, q: Prose, ts: seq<Token>, sep: nat -> string)
    requires forall u :: u >= 7 ==> sep(u) == " "
    requires SameProse(p, q) && LongPauses(ts)
    ensures SameProse(Fold(Reader(sep), p, ts), Fold(Reader(sep), q, ts))
  {
    if ts != [] {
      ReadBoth(p, q, ts[..|ts| - 1], sep);
    }
  }

  lemma {:induction false} PiecesBehind(ws: seq<string>, vs: Parts, pieces: seq<Piece>)
    ensures PutPieces(ws + vs, pieces) == ws + PutPieces(vs, pieces)
  {
    if pieces != [] {
      PiecesBehind(ws, vs, pieces[..|pieces| - 1]);
      var us := PutPieces(vs, pieces[..|pieces| - 1]);
      assert (ws + us)[..|ws + us| - 1] == ws + us[..|us| - 1];
    }
  }

  lemma WordsConcat(a: string, b: string)
    ensures Words(a + " " + b) == Words(a) + Words(b)
  {
    var before, after := Flat(PieceOf, a), Flat(PieceOf, b);
    FlatConcat(PieceOf, a + " ", b);
    FlatSnoc(PieceOf, a, ' ');
    assert a + [' '] == a + " ";
    PieceIsToUpper(' ');
    FoldConcat<Parts, Piece>(AddPiece, [""], before + [Gap], after);
    FoldSnoc<Parts, Piece>(AddPiece, [""], before, Gap);
    PiecesBehind(Words(a), [""], after);
  }

  lemma {:induction false} JoinConcat(a: seq<string>, b: seq<string>)
    ensures Join(a + b, " ") ==
      var s, t := Join(a, " "), Join(b, " ");
      if t == "" then s else if s == "" then t else s + " " + t
  {
    if b == [] {
      assert a + b == a;
    } else {
      var init := b[..|b| - 1];
      JoinConcat(a, init);
      assert (a + b)[..|a + b| - 1] == a + init;
    }
  }

  /** Cleaned words joined by single spaces: the text the fast link promises. */
  function NormalForm(message: string): string {
    Join(Words(message), " ")
  }

  ghost predicate LongPauses(ts: seq<Token>) {
    forall i :: 0 <= i < |ts| && ts[i].Pause? ==> ts[i].units >= 4
  }

  lemma {:induction false} TransmissionShape(message: string, reps: nat, rest: nat)
    requires rest >= 4
    ensures LongPauses(Transmission(message, reps, rest))
  {
    MessageShape(message);
    if reps > 1 {
      TransmissionShape(message, reps - 1, rest);
    }
  }

  lemma {:induction false} MessageShape(message: string)
    ensures LongPauses(TokensOf(message))
  {
    if message != "" {
      MessageShape(message[..|message| - 1]);
    }
  }

  /** A letter is followed by three units of silence, or by seven and more. */
  lemma {:induction false} QuietShape(ts: seq<Token>, sep: nat -> string)
    requires LongPauses(ts)
    ensures var p := Read(ts, sep); p.text != "" ==> p.quiet == 3 || p.quiet >= 7
  {
    if ts != [] {
      QuietShape(ts[..|ts| - 1], sep);
    }
  }

  lemma NormalConcat(a: string, b: string)
    ensures NormalForm(a + " " + b) ==
      var s, t := NormalForm(a), NormalForm(b);
      if t == "" then s else if s == "" then t else s + " " + t
  {
    WordsConcat(a, b);
    JoinConcat(Words(a), Words(b));
  }

  lemma CopiesStep(text: string, reps: nat, before: string, whole: string)
    requires reps >= 1 && before == if text == "" then "" else Copies(text, reps)
    requires whole == if text == "" then before else if before == "" then text else before + " " + text
    ensures whole == if text == "" then "" else Copies(text, reps + 1)
  {
    assert text != "" ==> Copies(text, reps) != "";
  }

  lemma {:induction false} RepeatedText(message: string, reps: nat)
    requires reps >= 1
    ensures NormalForm(Repeated(message, reps))
         == if NormalForm(message) == "" then "" else Copies(NormalForm(message), reps)
  {
    if reps > 1 {
      var before := Repeated(message, reps - 1);
      RepeatedText(message, reps - 1);
      NormalConcat(before, message);
      CopiesStep(NormalForm(message), reps - 1, NormalForm(before), NormalForm(before + " " + message));
    }
  }

  lemma RepeatedTokens(message: string, reps: nat)
    requires reps > 1
    ensures TokensOf(Repeated(message, reps)) == TokensOf(Repeated(message, reps - 1)) + [Pause(4)] + TokensOf(message)
  {
    var before := Repeated(message, reps - 1);
    FlatConcat(TokenOf, before + " ", message);
    FlatSnoc(TokenOf, before, ' ');
    assert before + [' '] == before + " ";
  }

  /** The rest between repetitions reads as a space. */
  lemma {:induction false} TransmissionProse(message: string, reps: nat, rest: nat, sep: nat -> string)
    requires rest >= 4 && forall u :: u >= 7 ==> sep(u) == " "
    ensures SameProse(Read(Transmission(message, reps, rest), sep), Read(TokensOf(Repeated(message, reps)), sep))
  {
    MessageShape(message);
    if reps == 1 {
      QuietShape(TokensOf(message), sep);
    } else if reps > 1 {
      var a, b := Transmission(message, reps - 1, rest), TokensOf(Repeated(message, reps - 1));
      TransmissionProse(message, reps - 1, rest, sep);
      ReadOne(a, Pause(rest), sep);
      ReadOne(b, Pause(4), sep);
      RepeatedTokens(message, reps);
      FoldConcat(Reader(sep), Prose("", 0), a + [Pause(rest)], TokensOf(message));
      FoldConcat(Reader(sep), Prose("", 0), b + [Pause(4)], TokensOf(message));
      ReadBoth(Read(a + [Pause(rest)], sep), Read(b + [Pause(4)], sep), TokensOf(message), sep);
    }
  }

  /** A repeated message reads as copies of its normal form, single spaces in between. */
  lemma TransmissionText(message: string, reps: nat, rest: nat, sep: nat -> string)
    requires reps >= 1 && rest >= 4 && sep(3) == "" && forall u :: u >= 7 ==> sep(u) == " "
    ensures Read(Transmission(message, reps, rest), sep).text
         == if NormalForm(message) == "" then "" else Copies(NormalForm(message), reps)
  {
    TransmissionProse(message, reps, rest, sep);
    MessageText(Repeated(message, reps), sep, " ");
    RepeatedText(message, reps);
  }
}
