/** The transmitter programs: a message becomes an LED driven on and off with sleeps in between. */
module MorseSender {
  import opened Folds
  import opened MorseCode
  import opened Waveform

  // Lab 5.1's dot in microseconds.
  const SLOW_DOT: int := 100000

  function MessageItems(message: string, dot: int): seq<Item> {
    ItemsOf(TokensOf(message), dot)
  }

  /** Lab 5.3's dot for a number of characters a second, in microseconds. */
  function DotFor(speed: real): int
    requires speed > 0.0
  {
    (1.0 / (speed * 10.0) * 1000000.0).Floor
  }

  lemma TimesMore(a: real, b: real, c: real)
    requires c > 0.0 && a < b
    ensures a * c < b * c
  {
  }

  /** Less than one microsecond is lost. */
  lemma Between(lo: real, micros: real, speed: real)
    requires speed > 0.0 && lo <= micros < lo + 1.0 && micros * speed == 100000.0
    ensures lo * speed <= 100000.0 < (lo + 1.0) * speed
  {
    TimesMore(micros, lo + 1.0, speed);
    if lo < micros { TimesMore(lo, micros, speed); }
  }

  lemma Micros(speed: real)
    requires speed > 0.0
    ensures var micros := 1.0 / (speed * 10.0) * 1000000.0; micros * speed == 100000.0 && micros > 0.0
  {
    var seconds := 1.0 / (speed * 10.0);
    assert seconds * (speed * 10.0) == 1.0;
    assert seconds * 1000000.0 * speed == seconds * (speed * 10.0) * 100000.0;
  }

  /** Ten dots take no longer than a character's time, and no longer whole ones would do. */
  lemma DotLaw(speed: real)
    requires speed > 0.0
    ensures DotFor(speed) >= 0
    ensures DotFor(speed) as real * speed <= 100000.0 < (DotFor(speed) as real + 1.0) * speed
  {
    Micros(speed);
    Between(DotFor(speed) as real, 1.0 / (speed * 10.0) * 1000000.0, speed);
  }

  class Sender {
    var dot: int
    var dash: int
    var symbolGap: int
    var letterGap: int
    var wordGap: int
    // Extra silence between two repetitions.
    var restGap: int
    ghost var restUnits: nat

    var led: bool
    var trace: seq<Item>

    ghost predicate Valid()
      reads this
    {
      dash == 3 * dot && symbolGap == dot && letterGap == 3 * dot && wordGap == 7 * dot
      && restGap == restUnits * dot
    }

    /** Lab 5.3: ten dots a character, everything else follows from the dot length, the rest is two word gaps. */
    constructor CalculateTiming(speed: real)
      requires speed > 0.0
      ensures Valid() && dot == DotFor(speed) && restUnits == 14 && !led && trace == []
    {
      var dotDurationSec := 1.0 / (speed * 10.0);
      var dotDuration := (dotDurationSec * 1000000.0).Floor;
      dot := dotDuration;
      dash := dotDuration * 3;
      symbolGap := dotDuration;
      letterGap := dotDuration * 3;
      wordGap := dotDuration * 7;
      restGap, restUnits := (dotDuration * 7) * 2, 14;
      led, trace := false, [];
    }

    /** Lab 5.1: a fixed dot, the rest is one word gap. */
    constructor FixedTiming()
      ensures Valid() && dot == SLOW_DOT && restUnits == 7 && !led && trace == []
    {
      dot := SLOW_DOT;
      dash := SLOW_DOT * 3;
      symbolGap := SLOW_DOT;
      letterGap := SLOW_DOT * 3;
      wordGap := SLOW_DOT * 7;
      restGap, restUnits := SLOW_DOT * 7, 7;
      led, trace := false, [];
    }

    method Write(on: bool)
      modifies `led
      ensures led == on
    {
      led := on;
    }

    method Sleep(duration: int)
      modifies `trace
      ensures trace == old(trace) + [Item(led, duration)]
    {
      trace := trace + [Item(led, duration)];
    }

    method SendDot()
      requires Valid()
      modifies `led, `trace
      ensures !led && trace == old(trace) + SymbolItems('.', dot)
    {
      Write(true);
      Sleep(dot);
      Write(false);
      Sleep(symbolGap);
    }

    method SendDash()
      requires Valid()
      modifies `led, `trace
      ensures !led && trace == old(trace) + SymbolItems('-', dot)
    {
      Write(true);
      Sleep(dash);
      Write(false);
      Sleep(symbolGap);
    }

    method SendMorseChar(morse: string)
      requires Valid() && !led
      modifies `led, `trace
      ensures !led && trace == old(trace) + MorseItems(morse, dot)
    {
      if morse == "/" {
        Sleep(wordGap - letterGap);
        return;
      }
      ghost var start := trace;
      for i := 0 to |morse|
        invariant !led && trace == start + CodeItems(morse[..i], dot)
      {
        CodeItemsNext(morse, i, dot);
        if morse[i] == '.' {
          SendDot();
        } else if morse[i] == '-' {
          SendDash();
        }
      }
      assert morse[..|morse|] == morse;
      Sleep(letterGap - symbolGap);
    }

    method SendMessage(message: string)
      requires Valid() && !led
      modifies `led, `trace
      ensures !led && trace == old(trace) + MessageItems(message, dot)
    {
      ghost var start, sent := trace, [];
      for i := 0 to |message|
        invariant !led && trace == start + sent && sent == MessageItems(message[..i], dot)
      {
        MessageItemsNext(message, i, dot);
        var morse := GetMorseCode(message[i]);
        if morse.Some? {
          SendMorseChar(morse.value);
          Append3(start, sent, MorseItems(morse.value, dot));
          sent := sent + MorseItems(morse.value, dot);
        }
      }
      assert message[..|message|] == message;
    }

    /** The main program's loop over repetitions. */
    method Transmit(message: string, reps: nat)
      requires Valid() && !led
      modifies `led, `trace
      ensures !led && trace == old(trace) + ItemsOf(Transmission(message, reps, restUnits), dot)
    {
      ghost var start, sent := trace, [];
      for i := 0 to reps
        invariant !led && trace == start + sent && sent == Sent(message, i, reps, restUnits, dot)
      {
        SentNext(message, i, reps, restUnits, dot);
        SendMessage(message);
        Append3(start, sent, MessageItems(message, dot));
        sent := sent + MessageItems(message, dot);
        if i < reps - 1 {
          Sleep(restGap);
          Append3(start, sent, [Item(false, restGap)]);
          sent := sent + [Item(false, restGap)];
        }
      }
    }
  }

  // Everything on the line when repetition `i` is about to begin.
  ghost function Sent(message: string, i: nat, reps: nat, rest: nat, dot: int): seq<Item> {
    ItemsOf(Transmission(message, i, rest), dot) + if 0 < i < reps then [Item(false, rest * dot)] else []
  }

  lemma SentNext(message: string, i: nat, reps: nat, rest: nat, dot: int)
    requires i < reps
    ensures Sent(message, i + 1, reps, rest, dot)
         == Sent(message, i, reps, rest, dot) + MessageItems(message, dot)
          + if i < reps - 1 then [Item(false, rest * dot)] else []
  {
    if i > 0 {
      var f, ts := TokenMap(dot), Transmission(message, i, rest);
      FlatConcat(f, ts + [Pause(rest)], TokensOf(message));
      FlatSnoc(f, ts, Pause(rest));
    }
  }

  /** What one table entry, or "/" for a space, puts on the line. */
  function MorseItems(morse: string, dot: int): seq<Item> {
    if morse == "/" then [Item(false, 4 * dot)] else CodeItems(morse, dot) + [Item(false, 2 * dot)]
  }

  lemma TokenMorse(c: char, dot: int)
    ensures var morse := GetMorseCode(c);
      if morse.None? then TokenOf(c) == []
      else |TokenOf(c)| == 1 && TokenItems(TokenOf(c)[0], dot) == MorseItems(morse.value, dot)
  {
    var u := ToUpper(c);
    if IsLetter(u) {
      TableShape(IndexOf(u));
      assert Code(u)[0] != '/';
    }
  }

  lemma CodeItemsNext(code: string, i: nat, dot: int)
    requires i < |code|
    ensures CodeItems(code[..i + 1], dot) == CodeItems(code[..i], dot) + SymbolItems(code[i], dot)
  {
    assert code[..i + 1] == code[..i] + [code[i]];
    FlatSnoc(SymbolMap(dot), code[..i], code[i]);
  }

  lemma MessageItemsNext(message: string, i: nat, dot: int)
    requires i < |message|
    ensures var morse := GetMorseCode(message[i]);
      MessageItems(message[..i + 1], dot)
        == MessageItems(message[..i], dot) + if morse.None? then [] else MorseItems(morse.value, dot)
  {
    var init, c := message[..i], message[i];
    assert message[..i + 1] == init + [c];
    TokenMorse(c, dot);
    FlatSnoc(TokenOf, init, c);
    FlatConcat(TokenMap(dot), TokensOf(init), TokenOf(c));
    if TokenOf(c) != [] {
      FlatSnoc(TokenMap(dot), [], TokenOf(c)[0]);
      assert [] + [TokenOf(c)[0]] == TokenOf(c);
    }
  }
}
