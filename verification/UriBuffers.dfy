/** The C routines: bytes read from one buffer and written to another, or to the same one. */
module UriBuffers {
  import opened Folds
  import opened UriTables
  import opened UriCoding
  import opened UriMachine

  /** The counting pass, with no destination. */
  method CountEscaped(src: array<Byte>, from: nat, size: nat, kind: nat) returns (n: nat)
    requires from + size <= src.Length && kind < |TABLES|
    ensures n == Count(TABLES[kind], src[from..from + size])
  {
    var table := TABLES[kind];
    n := 0;
    for i := 0 to size
      invariant n == Count(table, src[from..from + i])
    {
      assert src[from..from + i + 1][..i] == src[from..from + i];
      if Escapes(table, src[from + i]) {
        n := n + 1;
      }
    }
  }

  /** `*d++ = b`: one byte more behind what was written from `to` on. */
  method Put(dst: array<Byte>, ghost to: nat, d: nat, b: Byte) returns (e: nat)
    requires to <= d < dst.Length
    modifies dst
    ensures e == d + 1 && dst[to..e] == old(dst[to..d]) + [b]
    ensures forall i :: 0 <= i < dst.Length && i != d ==> dst[i] == old(dst[i])
  {
    dst[d] := b;
    e := d + 1;
  }

  // Only what lies between two positions has changed.
  twostate predicate Outside(dst: array<Byte>, to: nat, d: nat)
    reads dst
  {
    forall i :: 0 <= i < dst.Length && !(to <= i < d) ==> dst[i] == old(dst[i])
  }

  /** What was written from `to` on lies in the buffer, the rest of which is as it was. */
  ghost predicate Written(bytes: seq<Byte>, was: seq<Byte>, to: nat, d: nat, out: seq<Byte>) {
    && |was| == |bytes| && d == to + |out| && d <= |bytes| && bytes[to..d] == out
    && forall i :: 0 <= i < |bytes| && !(to <= i < d) ==> bytes[i] == was[i]
  }

  /** The input is still there, but for what lies under the bytes written if they go into the same buffer. */
  ghost predicate Unread(bytes: seq<Byte>, from: nat, input: seq<Byte>, same: bool, d: nat) {
    && from + |input| <= |bytes|
    && forall i :: 0 <= i < |input| && (same ==> d <= from + i) ==> bytes[from + i] == input[i]
  }

  // Only what lies between two positions differs.
  ghost predicate Differs(bytes: seq<Byte>, now: seq<Byte>, d: nat, e: nat) {
    |now| == |bytes| && forall i :: 0 <= i < |bytes| && !(d <= i < e) ==> now[i] == bytes[i]
  }

  lemma WrittenMore(bytes: seq<Byte>, now: seq<Byte>, was: seq<Byte>, to: nat, d: nat, sent: seq<Byte>, e: nat,
      out: seq<Byte>)
    requires Written(bytes, was, to, d, sent) && Differs(bytes, now, d, e)
    requires d <= e == to + |out| && e <= |now| && now[to..e] == out
    ensures Written(now, was, to, e, out)
  {
  }

  lemma UnreadLess(bytes: seq<Byte>, now: seq<Byte>, from: nat, input: seq<Byte>, same: bool, d: nat, e: nat)
    requires Unread(bytes, from, input, same, d) && d <= e && (if same then Differs(bytes, now, d, e) else now == bytes)
    ensures Unread(now, from, input, same, e)
  {
  }

  lemma EscapeNext(table: Table, input: seq<Byte>, i: nat)
    requires i < |input|
    ensures Escape(table, input[..i + 1]) == Escape(table, input[..i]) + EscapeByte(table)(input[i])
    ensures |Escape(table, input[..i + 1])| <= |Escape(table, input)|
  {
    assert input[..i + 1] == input[..i] + [input[i]];
    FlatSnoc(EscapeByte(table), input[..i], input[i]);
    assert input == input[..i + 1] + input[i + 1..];
    EscapeConcat(table, input[..i + 1], input[i + 1..]);
  }

  method PutTriplet(dst: array<Byte>, ghost to: nat, d: nat, b: Byte) returns (e: nat)
    requires to <= d && d + 3 <= dst.Length
    modifies dst
    ensures e == d + 3 && dst[to..e] == old(dst[to..d]) + Triplet(b)
    ensures forall i :: 0 <= i < dst.Length && !(d <= i < e) ==> dst[i] == old(dst[i])
  {
    e := Put(dst, to, d, PERCENT);
    e := Put(dst, to, e, HEX[(b >> 4) as int]);
    e := Put(dst, to, e, HEX[(b & 0xf) as int]);
  }

  /** Encoding within one buffer: when a byte is read, writing has not got to it. */
  ghost predicate Ahead(table: Table, input: seq<Byte>, to: nat, from: nat) {
    forall i :: 0 <= i < |input| ==> to + |Escape(table, input[..i])| <= from + i
  }

  /** A caller can tell from the counting pass over all but the last byte. */
  lemma AheadLaw(table: Table, input: seq<Byte>, to: nat, from: nat)
    ensures Ahead(table, input, to, from) <==> input == [] || to + 2 * Count(table, input[..|input| - 1]) <= from
  {
    if input != [] {
      var n := |input| - 1;
      EscapeLength(table, input[..n]);
      forall i | 0 <= i < |input| ensures |Escape(table, input[..i])| == i + 2 * Count(table, input[..i]) {
        EscapeLength(table, input[..i]);
      }
      forall i | 0 <= i < |input| ensures Count(table, input[..i]) <= Count(table, input[..n]) {
        CountGrows(table, input[..n], i);
        assert input[..n][..i] == input[..i];
      }
    }
  }

  lemma {:induction false} CountGrows(table: Table, s: seq<Byte>, i: nat)
    requires i <= |s|
    ensures Count(table, s[..i]) <= Count(table, s)
  {
    if i < |s| {
      CountGrows(table, s[..|s| - 1], i);
      assert s[..|s| - 1][..i] == s[..i];
    } else {
      assert s[..i] == s;
    }
  }

  /** One byte of the loop. */
  method EscapeOne(table: Table, dst: array<Byte>, ghost was: seq<Byte>, ghost to: nat, d: nat, b: Byte,
      ghost sent: seq<Byte>)
    returns (e: nat)
    requires Written(dst[..], was, to, d, sent) && d + |EscapeByte(table)(b)| <= dst.Length
    modifies dst
    ensures d <= e && Written(dst[..], was, to, e, sent + EscapeByte(table)(b)) && Differs(old(dst[..]), dst[..], d, e)
  {
    ghost var bytes := dst[..];
    if Escapes(table, b) {
      e := PutTriplet(dst, to, d, b);
    } else {
      e := Put(dst, to, d, b);
    }
    WrittenMore(bytes, dst[..], was, to, d, sent, e, sent + EscapeByte(table)(b));
  }

  /** One turn of the loop. */
  method EscapeTurn(table: Table, dst: array<Byte>, ghost was: seq<Byte>, ghost to: nat, d: nat, src: array<Byte>,
                    from: nat, ghost input: seq<Byte>, i: nat, ghost sent: seq<Byte>)
    returns (e: nat, ghost more: seq<Byte>)
    requires Written(dst[..], was, to, d, sent) && Unread(src[..], from, input, dst == src, d)
    requires i < |input| && sent == Escape(table, input[..i]) && to + |Escape(table, input)| <= dst.Length
    requires dst == src ==> Ahead(table, input, to, from)
    modifies dst
    ensures Written(dst[..], was, to, e, more) && Unread(src[..], from, input, dst == src, e)
    ensures more == Escape(table, input[..i + 1])
  {
    var b := src[from + i];
    EscapeNext(table, input, i);
    ghost var source := src[..];
    e := EscapeOne(table, dst, was, to, d, b, sent);
    UnreadLess(source, src[..], from, input, dst == src, d, e);
    more := sent + EscapeByte(table)(b);
  }

  /** The encoding pass. Source and destination may be one buffer if writing stays behind reading. */
  method EscapeWith(table: Table, dst: array<Byte>, to: nat, src: array<Byte>, from: nat, size: nat) returns (d: nat)
    requires from + size <= src.Length && (dst == src ==> Ahead(table, src[from..from + size], to, from))
    requires to + |Escape(table, src[from..from + size])| <= dst.Length
    modifies dst
    ensures var out := Escape(table, old(src[from..from + size]));
      d == to + |out| && dst[to..d] == out && Outside(dst, to, d)
  {
    ghost var was, input, sent := dst[..], src[from..from + size], [];
    d := to;
    for i := 0 to size
      invariant sent == Escape(table, input[..i])
      invariant Written(dst[..], was, to, d, sent) && Unread(src[..], from, input, dst == src, d)
    {
      d, sent := EscapeTurn(table, dst, was, to, d, src, from, input, i, sent);
    }
    assert input[..size] == input;
  }

  /** The encoder; the result is the position behind the last byte written. */
  method EscapeUri(dst: array<Byte>, to: nat, src: array<Byte>, from: nat, size: nat, kind: nat) returns (d: nat)
    requires from + size <= src.Length && kind < |TABLES|
    requires dst == src ==> Ahead(TABLES[kind], src[from..from + size], to, from)
    requires to + |Escape(TABLES[kind], src[from..from + size])| <= dst.Length
    modifies dst
    ensures var out := Escape(TABLES[kind], old(src[from..from + size]));
      d == to + |out| && dst[to..d] == out && Outside(dst, to, d)
  {
    d := EscapeWith(TABLES[kind], dst, to, src, from, size);
  }

  /** The triplet again, its digits read back from the source, which may be what is being written. */
  method PutBack(dst: array<Byte>, ghost to: nat, d: nat, src: array<Byte>, s: nat) returns (e: nat)
    requires to <= d && d + 3 <= dst.Length && 2 <= s <= src.Length
    requires dst == src ==> d + 3 <= s
    modifies dst
    ensures e == d + 3 && dst[to..e] == old(dst[to..d]) + [PERCENT, old(src[s - 2]), old(src[s - 1])]
    ensures forall i :: 0 <= i < dst.Length && !(d <= i < e) ==> dst[i] == old(dst[i])
  {
    e := Put(dst, to, d, PERCENT);
    e := Put(dst, to, e, src[s - 2]);
    e := Put(dst, to, e, src[s - 1]);
  }

  /** The second hex digit: the decoded byte, or the triplet again, and whether decoding ends. */
  method PutDecoded(dst: array<Byte>, ghost to: nat, d: nat, src: array<Byte>, s: nat, m: Mode, decoded: Byte, ch: Byte,
                    ghost first: Byte) returns (e: nat, stop: bool)
    requires 2 <= s <= src.Length && src[s - 2] == first && src[s - 1] == ch
    requires Hex(first) && Hex(ch) && decoded == Value(first)
    requires to <= d && d + |Decode(m, first, ch).0| <= dst.Length && (dst == src ==> d + 3 <= s)
    modifies dst
    ensures var (bytes, ends) := Decode(m, first, ch);
      e == d + |bytes| && dst[to..e] == old(dst[to..d]) + bytes && stop == ends
    ensures forall i :: 0 <= i < dst.Length && !(d <= i < e) ==> dst[i] == old(dst[i])
  {
    stop := false;
    if 0x30 <= ch <= 0x39 {
      var v := (decoded << 4) + (ch - 0x30);
      if m.redirect && !(v > PERCENT && v < 0x7f) {
        e := PutBack(dst, to, d, src, s);
      } else {
        e := Put(dst, to, d, v);
      }
    } else {
      var c := ch | 0x20;
      var v := (decoded << 4) + (c - 0x61) + 10;
      assert v == Pair(first, ch);
      if m.uri {
        stop := v == QUESTION;
        e := Put(dst, to, d, v);
      } else if m.redirect {
        if v == QUESTION || (v > PERCENT && v < 0x7f) {
          stop := v == QUESTION;
          e := Put(dst, to, d, v);
        } else {
          e := PutBack(dst, to, d, src, s);
        }
      } else {
        e := Put(dst, to, d, v);
      }
    }
  }

  datatype SwState = SwUsual | SwQuoted | SwQuotedSecond

  ghost predicate Represents(state: SwState, decoded: Byte, s: State) {
    match s
    case Usual => state == SwUsual
    case Quoted => state == SwQuoted
    case QuotedSecond(first) => state == SwQuotedSecond && decoded == Value(first)
  }

  /** The first hex digit behind a percent sign. */
  method DigitValue(ch: Byte) returns (decoded: Byte)
    requires Hex(ch)
    ensures decoded == Value(ch)
  {
    if 0x30 <= ch <= 0x39 {
      decoded := ch - 0x30;
    } else {
      var c := ch | 0x20;
      decoded := c - 0x61 + 10;
    }
  }

  /** One byte through the switch. */
  method Advance(dst: array<Byte>, ghost to: nat, d: nat, src: array<Byte>, s: nat, m: Mode,
                 state: SwState, decoded: Byte, ghost c: Machine)
    returns (e: nat, next: SwState, value: Byte, done: bool)
    requires s < src.Length && to <= d <= dst.Length && dst[to..d] == c.written && !c.done
    requires Represents(state, decoded, c.state)
    requires c.state.QuotedSecond? ==> s >= 1 && src[s - 1] == c.state.first
    requires dst == src ==> d + c.state.Held() <= s
    requires to + |Step(m, c, src[s]).written| <= dst.Length
    modifies dst
    ensures var n := Step(m, c, old(src[s]));
      e == to + |n.written| && dst[to..e] == n.written && done == n.done && (!done ==> Represents(next, value, n.state))
    ensures d <= e && forall i :: 0 <= i < dst.Length && !(d <= i < e) ==> dst[i] == old(dst[i])
  {
    var ch := src[s];
    e, next, value, done := d, SwUsual, decoded, false;
    match state
    case SwUsual =>
      if ch == QUESTION && (m.uri || m.redirect) {
        e := Put(dst, to, d, ch);
        done := true;
      } else if ch == PERCENT {
        next := SwQuoted;
      } else {
        e := Put(dst, to, d, ch);
      }
    case SwQuoted =>
      if Hex(ch) {
        value := DigitValue(ch);
        next := SwQuotedSecond;
      } else {
        e := Put(dst, to, d, ch);
      }
    case SwQuotedSecond =>
      if Hex(ch) {
        e, done := PutDecoded(dst, to, d, src, s + 1, m, decoded, ch, c.state.first);
      }
  }

  ghost function RunOf(m: Mode, input: seq<Byte>): Machine {
    Fold(Stepper(m), RESET, input)
  }

  /** The machine after `k` bytes, and the switch's variables. */
  ghost predicate At(c: Machine, m: Mode, input: seq<Byte>, k: nat, state: SwState, decoded: Byte) {
    && k <= |input| && c == RunOf(m, input[..k]) && Sane(c) && c.read == k
    && (!c.done ==> Represents(state, decoded, c.state))
    && (c.state.QuotedSecond? ==> k >= 1 && input[k - 1] == c.state.first)
  }

  // The machine's next step is the switch's.
  lemma NextAt(c: Machine, m: Mode, input: seq<Byte>, k: nat, state: SwState, decoded: Byte, next: SwState, value: Byte)
    requires At(c, m, input, k, state, decoded) && k < |input| && !c.done
    requires var n := Step(m, c, input[k]); !n.done ==> Represents(next, value, n.state)
    ensures var n := Step(m, c, input[k]);
      At(n, m, input, k + 1, next, value) && |c.written| <= |n.written| <= |RunOf(m, input).written|
      && (n.done ==> n == RunOf(m, input))
  {
    NextGrows(m, input, k);
    StepShape(m, c, input[k]);
  }

  /** One turn of the loop. */
  method Turn(dst: array<Byte>, ghost was: seq<Byte>, ghost to: nat, d: nat, src: array<Byte>, from: nat,
              ghost input: seq<Byte>, k: nat, m: Mode, state: SwState, decoded: Byte, ghost c: Machine)
    returns (e: nat, next: SwState, value: Byte, done: bool, ghost n: Machine)
    requires At(c, m, input, k, state, decoded) && Written(dst[..], was, to, d, c.written)
      && Unread(src[..], from, input, dst == src, d)
    requires k < |input| && !c.done && (dst == src ==> to <= from)
    requires to + |RunOf(m, input).written| <= dst.Length
    modifies dst
    ensures At(n, m, input, k + 1, next, value) && Written(dst[..], was, to, e, n.written)
      && Unread(src[..], from, input, dst == src, e)
    ensures done == n.done && (done ==> n == RunOf(m, input))
  {
    n := Step(m, c, input[k]);
    ghost var bytes, source := dst[..], src[..];
    NextGrows(m, input, k);
    e, next, value, done := Advance(dst, to, d, src, from + k, m, state, decoded, c);
    NextAt(c, m, input, k, state, decoded, next, value);
    WrittenMore(bytes, dst[..], was, to, d, c.written, e, n.written);
    UnreadLess(source, src[..], from, input, dst == src, d, e);
  }

  lemma AtStart(m: Mode, input: seq<Byte>)
    ensures At(RESET, m, input, 0, SwUsual, 0)
  {
    assert input[..0] == [];
  }

  // The loop ends because the machine has, or the input.
  lemma AtEnd(c: Machine, m: Mode, input: seq<Byte>, k: nat, state: SwState, decoded: Byte)
    requires At(c, m, input, k, state, decoded) && (c.done ==> c == RunOf(m, input)) && (!c.done ==> k == |input|)
    ensures c == RunOf(m, input) && k == c.read
  {
    assert input[..|input|] == input;
  }

  method RunMachine(dst: array<Byte>, to: nat, src: array<Byte>, from: nat, size: nat, m: Mode, ghost input: seq<Byte>)
    returns (d: nat, s: nat)
    requires from + size <= src.Length && src[from..from + size] == input && (dst == src ==> to <= from)
    requires to + |RunOf(m, input).written| <= dst.Length
    modifies dst
    ensures Written(dst[..], old(dst[..]), to, d, RunOf(m, input).written) && s == from + RunOf(m, input).read
  {
    d, s := to, from;
    var state, decoded, done := SwUsual, 0 as Byte, false;
    ghost var was, c := dst[..], RESET;
    AtStart(m, input);
    while s < from + size && !done
      invariant from <= s <= from + size && c.done == done && (done ==> c == RunOf(m, input))
      invariant At(c, m, input, s - from, state, decoded)
      invariant Written(dst[..], was, to, d, c.written) && Unread(src[..], from, input, dst == src, d)
    {
      d, state, decoded, done, c := Turn(dst, was, to, d, src, from, input, s - from, m, state, decoded, c);
      s := s + 1;
    }
    AtEnd(c, m, input, s - from, state, decoded);
  }

  /** The decoder. Destination and source may be the same buffer as long as writing starts no further than
      reading; it then never catches up, and the bytes are those a separate buffer would receive. */
  method UnescapeUri(dst: array<Byte>, to: nat, src: array<Byte>, from: nat, size: nat, m: Mode)
      returns (d: nat, s: nat)
    requires from + size <= src.Length && (dst == src ==> to <= from)
    requires to + |Unescape(m, src[from..from + size]).out| <= dst.Length
    modifies dst
    ensures var r := Unescape(m, old(src[from..from + size]));
      d == to + |r.out| && s == from + r.used && dst[to..d] == r.out && Outside(dst, to, d)
    ensures d - to <= s - from
  {
    MachineIsUnescape(m, src[from..from + size]);
    d, s := RunMachine(dst, to, src, from, size, m, src[from..from + size]);
  }

  /** Encodes for a URI component and returns the number of bytes written, in 32 bits; 0 without a buffer. */
  method UriEncode(dest: array?<Byte>, src: array?<Byte>, len: nat) returns (n: nat)
    requires src != null ==> len <= src.Length
    requires src != null && dest != null ==> |Escape(URI_COMPONENT, src[..len])| <= dest.Length
    requires src != null && dest == src ==> Ahead(URI_COMPONENT, src[..len], 0, 0)
    modifies dest
    ensures if src == null || dest == null then n == 0
      else
        var out := Escape(URI_COMPONENT, old(src[..len]));
        n == |out| % 0x1_0000_0000 && dest[..|out|] == out && Outside(dest, 0, |out|)
  {
    if src == null || dest == null {
      return 0;
    }
    assert src[0..0 + len] == src[..len];
    var d := EscapeUri(dest, 0, src, 0, len, 2);
    n := d % 0x1_0000_0000;
  }

  /** Decodes a URI, through its first question mark; the caller is not told where the result ends. */
  method UriDecode(dest: array?<Byte>, src: array?<Byte>, len: nat)
    requires src != null ==> len <= src.Length
    requires src != null && dest != null ==> |Unescape(URI_MODE, src[..len]).out| <= dest.Length
    modifies dest
    ensures src != null && dest != null ==>
      var out := Unescape(URI_MODE, old(src[..len])).out;
      dest[..|out|] == out && Outside(dest, 0, |out|)
  {
    if src == null || dest == null {
      return;
    }
    assert src[0..0 + len] == src[..len];
    var d, s := UnescapeUri(dest, 0, src, 0, len, URI_MODE);
  }
}
