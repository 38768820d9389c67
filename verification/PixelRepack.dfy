/** The flush callback's pixel loops: a row-major bitmap, MSB first, becomes an inverted one in vertical pages. */
module PixelRepack {
  import opened Folds

  // LVGL puts two colours of four bytes in front of the bitmap.
  const PALETTE_SIZE: nat := 8

  /** `1 << k` */
  function Mask(k: nat): bv8
    requires k < 8
  {
    if k < 4 then (if k < 2 then (if k == 0 then 0x01 else 0x02) else if k == 2 then 0x04 else 0x08)
    else if k < 6 then (if k == 4 then 0x10 else 0x20) else if k == 6 then 0x40 else 0x80
  }

  predicate Has(b: bv8, mask: bv8) {
    b & mask != 0
  }

  predicate Bit(b: bv8, k: nat)
    requires k < 8
  {
    Has(b, Mask(k))
  }

  /** A lit pixel clears its bit, a dark one sets it. */
  function Painted(b: bv8, mask: bv8, lit: bool): bv8 {
    if lit then b & !mask else b | mask
  }

  /** The source bit of a pixel: eight pixels a byte, the leftmost in the highest bit. */
  predicate SourcePixel(image: seq<bv8>, width: nat, x: nat, y: nat)
    requires PALETTE_SIZE + (width / 8) * y + x / 8 < |image|
  {
    Bit(image[PALETTE_SIZE + (width / 8) * y + x / 8], 7 - x % 8)
  }

  /** The display bit of a pixel: eight pixels a byte, one below the other, the topmost in the lowest bit. */
  predicate DisplayPixel(buffer: seq<bv8>, width: nat, x: nat, y: nat)
    requires width * (y / 8) + x < |buffer|
  {
    Bit(buffer[width * (y / 8) + x], y % 8)
  }

  /** A display of `width` by `height` pixels, eight of which share a byte, and a bitmap for it. */
  predicate Screen(width: nat, height: nat, buffer: nat, image: nat) {
    width % 8 == 0 && height % 8 == 0 && buffer == width * height / 8 && image == PALETTE_SIZE + width / 8 * height
  }

  lemma MasksApart(k: nat, j: nat)
    requires k < 8 && j < 8
    ensures Mask(k) != 0 && (k != j ==> Mask(k) & Mask(j) == 0)
  {
  }

  lemma PaintSame(b: bv8, m: bv8, lit: bool)
    requires m != 0
    ensures Has(Painted(b, m, lit), m) <==> !lit
  {
    assert (b | m) & m == m;
  }

  lemma PaintOther(b: bv8, m: bv8, n: bv8, lit: bool)
    requires m & n == 0
    ensures Has(Painted(b, m, lit), n) <==> Has(b, n)
  {
    assert (b | m) & n == b & n && (b & !m) & n == b & n;
  }

  // Painting one bit leaves the others alone.
  lemma PaintBit(b: bv8, k: nat, j: nat, lit: bool)
    requires k < 8 && j < 8
    ensures Bit(Painted(b, Mask(k), lit), j) <==> if j == k then !lit else Bit(b, j)
  {
    MasksApart(k, j);
    if k == j { PaintSame(b, Mask(k), lit); } else { PaintOther(b, Mask(k), Mask(j), lit); }
  }

  lemma {:induction false} NextMultiple(w: nat, a: nat, b: nat)
    requires a < b
    ensures w * a + w <= w * b
  {
    if a + 1 < b {
      NextMultiple(w, a, b - 1);
      assert w * b == w * (b - 1) + w;
    } else {
      assert w * b == w * a + w;
    }
  }

  lemma MulOrder(w: nat, a: nat, b: nat)
    ensures a <= b ==> w * a <= w * b
  {
    assert w * b - w * a == w * (b - a);
  }

  lemma EighthOf(w: nat, h: nat)
    requires h % 8 == 0
    ensures w * h / 8 == w * (h / 8)
  {
    var rows := h / 8;
    assert w * (8 * rows) == 8 * (w * rows);
  }

  lemma PixelInside(width: nat, height: nat, x: nat, y: nat)
    requires height % 8 == 0 && x < width && y < height
    ensures width * (y / 8) + x < width * height / 8
    ensures width % 8 == 0 ==> (width / 8) * y + x / 8 < width / 8 * height
  {
    EighthOf(width, height);
    NextMultiple(width, y / 8, height / 8);
    NextMultiple(width / 8, y, height);
  }

  /** Two pixels share a display byte only in one column and one page. */
  lemma SameCell(width: nat, x: nat, page: nat, u: nat, other: nat)
    requires x < width && u < width && width * page + x == width * other + u
    ensures x == u && page == other
  {
    if page < other {
      NextMultiple(width, page, other);
    } else if other < page {
      NextMultiple(width, other, page);
    }
  }

  /** Every bit of the display buffer is some pixel: nothing else is there to be disturbed. */
  lemma EveryBitIsAPixel(width: nat, height: nat, i: nat, k: nat) returns (x: nat, y: nat)
    requires height % 8 == 0 && i < width * height / 8 && k < 8
    ensures x < width && y < height && Cell(width, x, y) == i && y % 8 == k
  {
    EighthOf(width, height);
    assert width > 0;
    x := i % width;
    var page := i / width;
    MulOrder(width, height / 8, page);
    y := 8 * page + k;
    assert y / 8 == page && y % 8 == k;
  }

  // ----- The two layouts, read bit after bit -----

  /** A byte's bits from the highest down. */
  function Falling(b: bv8): seq<bool> {
    [b & 0x80 != 0, b & 0x40 != 0, b & 0x20 != 0, b & 0x10 != 0, b & 0x08 != 0, b & 0x04 != 0, b & 0x02 != 0,
      b & 0x01 != 0]
  }

  /** A byte's bits from the lowest up. */
  function Rising(b: bv8): seq<bool> {
    [b & 0x01 != 0, b & 0x02 != 0, b & 0x04 != 0, b & 0x08 != 0, b & 0x10 != 0, b & 0x20 != 0, b & 0x40 != 0,
      b & 0x80 != 0]
  }

  lemma {:induction false} FlatAt(bits: bv8 -> seq<bool>, bytes: seq<bv8>, i: nat, k: nat)
    requires (forall j :: 0 <= j < |bytes| ==> |bits(bytes[j])| == 8) && i < |bytes| && k < 8
    ensures |bits(bytes[i])| == 8 && |Flat(bits, bytes)| == 8 * |bytes|
    ensures Flat(bits, bytes)[8 * i + k] == bits(bytes[i])[k]
  {
    var init := bytes[..|bytes| - 1];
    if init != [] { FlatAt(bits, init, if i < |init| then i else 0, k); }
  }

  lemma RisingBit(b: bv8, k: nat)
    requires k < 8
    ensures Bit(b, k) == Rising(b)[k]
  {
    if k < 4 {
      assert k == 0 || k == 1 || k == 2 || k == 3;
    } else {
      assert k == 4 || k == 5 || k == 6 || k == 7;
    }
  }

  lemma FallingBit(b: bv8, k: nat)
    requires k < 8
    ensures Falling(b)[7 - k] == Rising(b)[k]
  {
    if k < 4 {
      assert k == 0 || k == 1 || k == 2 || k == 3;
    } else {
      assert k == 4 || k == 5 || k == 6 || k == 7;
    }
  }

  lemma RowMajor(width: nat, x: nat, y: nat)
    requires width % 8 == 0
    ensures 8 * ((width / 8) * y + x / 8) + x % 8 == width * y + x
  {
    var w := width / 8;
    assert (8 * w) * y == 8 * (w * y);
  }

  /** Behind the palette the image is its pixels row after row, from left to right, each byte from its highest bit. */
  lemma SourceLaw(image: seq<bv8>, width: nat, x: nat, y: nat)
    requires width % 8 == 0 && PALETTE_SIZE + (width / 8) * y + x / 8 < |image|
    ensures var bits := Flat(Falling, image[PALETTE_SIZE..]);
      width * y + x < |bits| && (SourcePixel(image, width, x, y) <==> bits[width * y + x])
  {
    var i := (width / 8) * y + x / 8;
    FlatAt(Falling, image[PALETTE_SIZE..], i, x % 8);
    RowMajor(width, x, y);
    RisingBit(image[PALETTE_SIZE + i], 7 - x % 8);
    FallingBit(image[PALETTE_SIZE + i], 7 - x % 8);
  }

  /** The display is its pages one after the other, each from left to right, each byte from its lowest bit. */
  lemma DisplayLaw(buffer: seq<bv8>, width: nat, x: nat, y: nat)
    requires width * (y / 8) + x < |buffer|
    ensures var bits := Flat(Rising, buffer);
      && 8 * (width * (y / 8) + x) + y % 8 < |bits|
      && (DisplayPixel(buffer, width, x, y) <==> bits[8 * (width * (y / 8) + x) + y % 8])
  {
    FlatAt(Rising, buffer, width * (y / 8) + x, y % 8);
    RisingBit(buffer[width * (y / 8) + x], y % 8);
  }

  function Cell(width: nat, x: nat, y: nat): nat {
    width * (y / 8) + x
  }

  // One byte, one bit: one pixel.
  lemma OnePixel(was: seq<bv8>, now: seq<bv8>, width: nat, x: nat, y: nat, lit: bool, u: nat, v: nat)
    requires x < width && u < width && Cell(width, x, y) < |was| && Cell(width, u, v) < |was|
    requires var i := Cell(width, x, y); now == was[i := Painted(was[i], Mask(y % 8), lit)]
    ensures DisplayPixel(now, width, u, v) <==> if u == x && v == y then !lit else DisplayPixel(was, width, u, v)
  {
    var i, j := Cell(width, x, y), Cell(width, u, v);
    if i == j {
      SameCell(width, x, y / 8, u, v / 8);
      PaintBit(was[i], y % 8, v % 8, lit);
    }
  }

  /** Columns `x1` to `x2` of the rows from `y1` to above `y`, and of row `y` as far as left of `x`. */
  datatype Sweep = Sweep(x1: nat, x2: nat, y1: nat, y: nat, x: nat) {
    predicate Covers(u: nat, v: nat) {
      x1 <= u <= x2 && y1 <= v && (v < y || (v == y && u < x))
    }
  }

  /** The pixel shows the inverse of the image where the sweep has passed, what it showed before elsewhere. */
  ghost predicate ShowsAt(buffer: seq<bv8>, was: seq<bv8>, image: seq<bv8>, width: nat, height: nat, s: Sweep, u: nat,
      v: nat)
    requires |buffer| == |was| && Screen(width, height, |buffer|, |image|)
  {
    u < width && v < height ==>
      (PixelInside(width, height, u, v);
       DisplayPixel(buffer, width, u, v) <==>
         if s.Covers(u, v) then !SourcePixel(image, width, u, v) else DisplayPixel(was, width, u, v))
  }

  ghost predicate Shows(buffer: seq<bv8>, was: seq<bv8>, image: seq<bv8>, width: nat, height: nat, s: Sweep)
    requires |buffer| == |was| && Screen(width, height, |buffer|, |image|)
  {
    forall u: nat, v: nat :: ShowsAt(buffer, was, image, width, height, s, u, v)
  }

  lemma TurnShows(was: seq<bv8>, before: seq<bv8>, after: seq<bv8>, image: seq<bv8>, width: nat, height: nat, s: Sweep)
    requires |after| == |before| == |was| && Screen(width, height, |was|, |image|)
    requires s.x1 <= s.x <= s.x2 < width && s.y1 <= s.y < height
    requires Cell(width, s.x, s.y) < |was| && PALETTE_SIZE + (width / 8) * s.y + s.x / 8 < |image|
    requires var i := Cell(width, s.x, s.y);
      after == before[i := Painted(before[i], Mask(s.y % 8), SourcePixel(image, width, s.x, s.y))]
    requires Shows(before, was, image, width, height, s)
    ensures Shows(after, was, image, width, height, s.(x := s.x + 1))
  {
    var t := s.(x := s.x + 1);
    forall u: nat, v: nat ensures ShowsAt(after, was, image, width, height, t, u, v) {
      if u < width && v < height {
        PixelInside(width, height, u, v);
        assert ShowsAt(before, was, image, width, height, s, u, v);
        OnePixel(before, after, width, s.x, s.y, SourcePixel(image, width, s.x, s.y), u, v);
      }
    }
  }

  // Sweeps that cover the same pixels show the same.
  lemma SameSweep(buffer: seq<bv8>, was: seq<bv8>, image: seq<bv8>, width: nat, height: nat, s: Sweep, t: Sweep)
    requires |buffer| == |was| && Screen(width, height, |was|, |image|)
    requires Shows(buffer, was, image, width, height, s)
    requires forall u: nat, v: nat :: s.Covers(u, v) <==> t.Covers(u, v)
    ensures Shows(buffer, was, image, width, height, t)
  {
    forall u: nat, v: nat ensures ShowsAt(buffer, was, image, width, height, t, u, v) {
      assert ShowsAt(buffer, was, image, width, height, s, u, v);
      assert s.Covers(u, v) <==> t.Covers(u, v);
    }
  }

  /** One pixel into the display buffer. */
  method WritePixel(buffer: array<bv8>, image: array<bv8>, width: nat, x: nat, y: nat)
    requires buffer != image && Cell(width, x, y) < buffer.Length
    requires PALETTE_SIZE + (width / 8) * y + x / 8 < image.Length
    modifies buffer
    ensures var i := Cell(width, x, y);
      buffer[..] == old(buffer[..])[i := Painted(old(buffer[i]), Mask(y % 8), SourcePixel(image[..], width, x, y))]
  {
    var lit := image[PALETTE_SIZE + (width / 8) * y + x / 8] & Mask(7 - x % 8) != 0;
    var i := width * (y / 8) + x;
    if lit {
      buffer[i] := buffer[i] & !Mask(y % 8);
    } else {
      buffer[i] := buffer[i] | Mask(y % 8);
    }
  }

  /** Pixels inside the area show the inverted image, all others what they showed before. */
  method Flush(buffer: array<bv8>, image: array<bv8>, width: nat, height: nat, x1: nat, x2: nat, y1: nat, y2: nat)
    requires Screen(width, height, buffer.Length, image.Length) && buffer != image
    requires x2 < width && y2 < height
    modifies buffer
    ensures Shows(buffer[..], old(buffer[..]), image[..], width, height, Sweep(x1, x2, y1, y2 + 1, 0))
  {
    ghost var was := buffer[..];
    var y := y1;
    while y <= y2
      invariant y1 <= y && (y <= y2 + 1 || y == y1)
      invariant Shows(buffer[..], was, image[..], width, height, Sweep(x1, x2, y1, y, 0))
    {
      var x := x1;
      SameSweep(buffer[..], was, image[..], width, height, Sweep(x1, x2, y1, y, 0), Sweep(x1, x2, y1, y, x));
      while x <= x2
        invariant x1 <= x && (x <= x2 + 1 || x == x1)
        invariant Shows(buffer[..], was, image[..], width, height, Sweep(x1, x2, y1, y, x))
      {
        ghost var before := buffer[..];
        PixelInside(width, height, x, y);
        WritePixel(buffer, image, width, x, y);
        TurnShows(was, before, buffer[..], image[..], width, height, Sweep(x1, x2, y1, y, x));
        x := x + 1;
      }
      SameSweep(buffer[..], was, image[..], width, height, Sweep(x1, x2, y1, y, x), Sweep(x1, x2, y1, y + 1, 0));
      y := y + 1;
    }
    SameSweep(buffer[..], was, image[..], width, height, Sweep(x1, x2, y1, y, 0), Sweep(x1, x2, y1, y2 + 1, 0));
  }
}
