/** Left-to-right accumulation over a sequence, and how it meets concatenation. */
module Folds {

  function Last<T>(s: seq<T>): T
    requires s != []
  {
    s[|s| - 1]
  }

  function Fold<S, T>(f: (S, T) -> S, start: S, ts: seq<T>): S {
    if ts == [] then start else f(Fold(f, start, ts[..|ts| - 1]), Last(ts))
  }

  lemma FoldSnoc<S, T>(f: (S, T) -> S, start: S, ts: seq<T>, t: T)
    ensures Fold(f, start, ts + [t]) == f(Fold(f, start, ts), t)
  {
    assert (ts + [t])[..|ts|] == ts;
  }

  lemma FoldNext<S, T>(f: (S, T) -> S, start: S, ts: seq<T>, i: nat)
    requires i < |ts|
    ensures Fold(f, start, ts[..i + 1]) == f(Fold(f, start, ts[..i]), ts[i])
  {
    assert ts[..i + 1] == ts[..i] + [ts[i]];
    FoldSnoc(f, start, ts[..i], ts[i]);
  }

  lemma {:induction false} FoldConcat<S, T>(f: (S, T) -> S, start: S, a: seq<T>, b: seq<T>)
    ensures Fold(f, start, a + b) == Fold(f, Fold(f, start, a), b)
  {
    if b == [] {
      assert a + b == a;
    } else {
      FoldConcat(f, start, a, b[..|b| - 1]);
      assert (a + b)[..|a + b| - 1] == a + b[..|b| - 1];
    }
  }

  /** The images of the elements, one after another. */
  function Flat<S, T>(f: S -> seq<T>, s: seq<S>): seq<T> {
    if s == [] then [] else Flat(f, s[..|s| - 1]) + f(Last(s))
  }

  lemma FlatSnoc<S, T>(f: S -> seq<T>, s: seq<S>, x: S)
    ensures Flat(f, s + [x]) == Flat(f, s) + f(x)
  {
    assert (s + [x])[..|s|] == s;
  }

  lemma {:induction false} FlatConcat<S, T>(f: S -> seq<T>, a: seq<S>, b: seq<S>)
    ensures Flat(f, a + b) == Flat(f, a) + Flat(f, b)
  {
    if b == [] {
      assert a + b == a;
    } else {
      FlatConcat(f, a, b[..|b| - 1]);
      assert (a + b)[..|a + b| - 1] == a + b[..|b| - 1];
    }
  }

  /** Mapping out to sequences and then folding is one fold of folds. */
  lemma {:induction false} FoldFlat<S, T, U>(f: (S, T) -> S, g: U -> seq<T>, h: (S, U) -> S, start: S, us: seq<U>)
    requires forall k :: 0 <= k < |us| ==>
      Fold(f, Fold(h, start, us[..k]), g(us[k])) == h(Fold(h, start, us[..k]), us[k])
    ensures Fold(f, start, Flat(g, us)) == Fold(h, start, us)
  {
    if us != [] {
      var n := |us| - 1;
      forall k | 0 <= k < n ensures us[..n][..k] == us[..k] {}
      FoldFlat(f, g, h, start, us[..n]);
      FoldConcat(f, start, Flat(g, us[..n]), g(us[n]));
    }
  }

  lemma Append3<T>(a: seq<T>, b: seq<T>, c: seq<T>)
    ensures a + b + c == a + (b + c)
  {
  }
}
