/** The moving average over the last eight samples of each axis of the accelerometer. */
module RingFilter {

  function Sum(s: seq<real>): real {
    if s == [] then 0.0 else Sum(s[..|s| - 1]) + s[|s| - 1]
  }

  /** The last samples, eight of them at most, oldest first. */
  function Window(h: seq<real>): seq<real> {
    if |h| <= 8 then h else h[|h| - 8..]
  }

  function Mean(s: seq<real>): real {
    if s == [] then 0.0 else Sum(s) / |s| as real
  }

  /** The cells hold the window, turned so that the oldest sample lies where the next one goes. */
  predicate Holds(cells: seq<real>, h: seq<real>, next: nat) {
    && |cells| == 8 && next < 8
    && if |h| < 8 then cells[..next] == h && forall k :: next <= k < 8 ==> cells[k] == 0.0
       else cells[next..] + cells[..next] == Window(h)
  }

  // One further, in the low three bits.
  function NextSlot(i: nat): nat {
    if i == 7 then 0 else i + 1
  }

  /** Where the next sample goes after n of them. */
  function Slot(n: nat): nat {
    if n == 0 then 0 else NextSlot(Slot(n - 1))
  }

  lemma {:induction false} SlotIsCount(n: nat)
    ensures Slot(n) == n % 8
  {
    if n != 0 { SlotIsCount(n - 1); }
  }

  lemma Filled(cells: seq<real>, h: seq<real>, x: real)
    requires Holds(cells, h, |h|)
    ensures Holds(cells[|h| := x], h + [x], NextSlot(|h|))
  {
    var now := cells[|h| := x];
    assert now[..|h| + 1] == cells[..|h|] + [x];
    if |h| == 8 - 1 {
      assert now[0..] + now[..0] == now[..|h| + 1];
    }
  }

  lemma PushHolds(cells: seq<real>, h: seq<real>, i: nat, x: real)
    requires Holds(cells, h, i)
    ensures Holds(cells[i := x], h + [x], NextSlot(i))
  {
    if |h| < 8 {
      assert i == |h|;
      Filled(cells, h, x);
    }
  }

  lemma {:induction false} SumConcat(a: seq<real>, b: seq<real>)
    ensures Sum(a + b) == Sum(a) + Sum(b)
  {
    if b == [] {
      assert a + b == a;
    } else {
      SumConcat(a, b[..|b| - 1]);
      assert (a + b)[..|a + b| - 1] == a + b[..|b| - 1];
    }
  }

  /** Adding the cells up in the order they lie adds up the window. */
  lemma CellsSum(cells: seq<real>, h: seq<real>, i: nat)
    requires Holds(cells, h, i)
    ensures h != [] ==> Sum(cells[..|Window(h)|]) == Sum(Window(h))
    ensures h == [] ==> Sum(cells[..1]) == 0.0
  {
    if h == [] {
      assert cells[..1] == [0.0] && [0.0][..0] == [];
    } else if |h| >= 8 {
      assert cells[..8] == cells[..i] + cells[i..];
      SumConcat(cells[..i], cells[i..]);
      SumConcat(cells[i..], cells[..i]);
    }
  }

  lemma {:induction false} SumBounds(s: seq<real>, lo: real, hi: real)
    requires forall i :: 0 <= i < |s| ==> lo <= s[i] <= hi
    ensures lo * |s| as real <= Sum(s) <= hi * |s| as real
  {
    if s != [] {
      SumBounds(s[..|s| - 1], lo, hi);
      var k := (|s| - 1) as real;
      assert |s| as real == k + 1.0 && lo * (k + 1.0) == lo * k + lo && hi * (k + 1.0) == hi * k + hi;
    }
  }

  lemma SumNext(s: seq<real>, i: nat)
    requires i < |s|
    ensures Sum(s[..i + 1]) == Sum(s[..i]) + s[i]
  {
    assert s[..i + 1][..i] == s[..i];
  }

  /** What a pass over the filled cells, or over one of an empty filter, comes to. */
  lemma CellsMean(cells: seq<real>, h: seq<real>, i: nat, k: nat)
    requires Holds(cells, h, i) && k == if h == [] then 1 else |Window(h)|
    ensures Sum(cells[..k]) / k as real == Mean(Window(h))
  {
    CellsSum(cells, h, i);
  }

  /** The filter stays within the samples it averages; eight equal samples in a row are its output. */
  lemma MeanBounds(h: seq<real>, lo: real, hi: real)
    requires h != [] && forall i :: 0 <= i < |Window(h)| ==> lo <= Window(h)[i] <= hi
    ensures lo <= Mean(Window(h)) <= hi
  {
    SumBounds(Window(h), lo, hi);
    var n, sum := |Window(h)| as real, Sum(Window(h));
    assert n > 0.0 && sum == Mean(Window(h)) * n && lo * n <= sum <= hi * n;
  }

  method Store(cells: array<real>, i: nat, x: real, ghost h: seq<real>)
    requires Holds(cells[..], h, i)
    modifies cells
    ensures Holds(cells[..], h + [x], NextSlot(i))
  {
    PushHolds(cells[..], h, i, x);
    cells[i] := x;
    assert cells[..] == old(cells[..])[i := x];
  }

  class Filter {
    const xs: array<real>
    const ys: array<real>
    const zs: array<real>
    var idx: nat
    var n: nat
    // All samples since the filter was made.
    ghost var hx: seq<real>
    ghost var hy: seq<real>
    ghost var hz: seq<real>

    ghost predicate Valid()
      reads this, xs, ys, zs
    {
      && xs != ys && ys != zs && xs != zs
      && |hx| == |hy| == |hz| && idx == Slot(|hx|) && n == (if |hx| < 8 then |hx| else 8)
      && Holds(xs[..], hx, idx) && Holds(ys[..], hy, idx) && Holds(zs[..], hz, idx)
    }

    constructor ()
      ensures Valid() && hx == hy == hz == []
    {
      xs := new real[8](_ => 0.0);
      ys := new real[8](_ => 0.0);
      zs := new real[8](_ => 0.0);
      idx, n, hx, hy, hz := 0, 0, [], [], [];
    }

    method Push(x: real, y: real, z: real)
      requires Valid()
      modifies this, xs, ys, zs
      ensures Valid() && hx == old(hx) + [x] && hy == old(hy) + [y] && hz == old(hz) + [z]
    {
      Store(xs, idx, x, hx);
      Store(ys, idx, y, hy);
      Store(zs, idx, z, hz);
      assert Slot(|hx| + 1) == NextSlot(idx) && |hx + [x]| == |hx| + 1;
      idx := NextSlot(idx);
      if n < 8 { n := n + 1; }
      hx, hy, hz := hx + [x], hy + [y], hz + [z];
    }

    method Get() returns (x: real, y: real, z: real)
      requires Valid()
      ensures x == Mean(Window(hx)) && y == Mean(Window(hy)) && z == Mean(Window(hz))
    {
      var k := if n != 0 then n else 1;
      var sx, sy, sz := 0.0, 0.0, 0.0;
      for i := 0 to k
        invariant sx == Sum(xs[..][..i]) && sy == Sum(ys[..][..i]) && sz == Sum(zs[..][..i])
      {
        SumNext(xs[..], i);
        SumNext(ys[..], i);
        SumNext(zs[..], i);
        sx, sy, sz := sx + xs[i], sy + ys[i], sz + zs[i];
      }
      CellsMean(xs[..], hx, idx, k);
      CellsMean(ys[..], hy, idx, k);
      CellsMean(zs[..], hz, idx, k);
      x, y, z := sx / k as real, sy / k as real, sz / k as real;
    }
  }
}
