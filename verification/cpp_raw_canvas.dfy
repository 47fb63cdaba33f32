/**
 * `RawCanvas`: a width x height picture stored row by row in one byte
 * vector, three bytes per pixel (blue, green, red) or four with alpha.
 * The grid view `Flatten` ties a picture held as rows of pixels to that
 * byte layout.
 */
module CppRawCanvas {
  import opened Common

  /** The bytes per pixel. */
  function Channels(alpha: bool): (c: nat)
    ensures alpha <==> c == 4
    ensures !alpha <==> c == 3
  {
    if alpha then 4 else 3
  }

  datatype RawCanvas = RawCanvas(width: nat, height: nat, alpha: bool, pixels: seq<Byte>)

  /** The buffer holds exactly one slot per pixel. */
  predicate Valid(c: RawCanvas)
  {
    |c.pixels| == c.width * c.height * Channels(c.alpha)
  }

  /** The constructor: a zero-filled buffer of `w * h * channels` bytes. */
  function NewCanvas(w: nat, h: nat, useAlpha: bool): (c: RawCanvas)
    ensures c.width == w && c.height == h && c.alpha == useAlpha && Valid(c)
    ensures forall k | 0 <= k < |c.pixels| :: c.pixels[k] == 0
  {
    RawCanvas(w, h, useAlpha, seq(w * h * Channels(useAlpha), _ => 0))
  }

  lemma MulLeft(a: nat, b: nat, c: nat)
    requires a <= b
    ensures a * c <= b * c
  {
  }

  lemma OneMoreRow(w: nat, h: nat, ch: nat)
    requires h > 0
    ensures w * ch + w * (h - 1) * ch == w * h * ch
  {
    assert w * h == w * (h - 1) + w;
  }

  /** Row-major position `y * w + x` of an in-bounds pixel lies below `w * h`. */
  lemma PositionBound(w: nat, h: nat, x: nat, y: nat)
    requires x < w && y < h
    ensures y * w + x < w * h
  {
    MulLeft(y + 1, h, w);
    assert (y + 1) * w == y * w + w;
  }

  /** `pixel(x, y)`: the offset of the pixel's first byte; coordinates outside the picture are refused. */
  function PixelOffset(c: RawCanvas, x: int, y: int): (o: nat)
    requires Valid(c)
    requires 0 <= x < c.width && 0 <= y < c.height
    ensures o % Channels(c.alpha) == 0
    ensures o + Channels(c.alpha) <= |c.pixels|
  {
    var p := y * c.width + x;
    PositionBound(c.width, c.height, x, y);
    MulLeft(p + 1, c.width * c.height, Channels(c.alpha));
    p * Channels(c.alpha)
  }

  /** Row-major positions of distinct pixels differ. */
  lemma PositionsDistinct(w: nat, x1: nat, y1: nat, x2: nat, y2: nat)
    requires x1 < w && x2 < w && (x1, y1) != (x2, y2)
    ensures y1 * w + x1 != y2 * w + x2
  {
    if y1 == y2 {
    } else if y1 < y2 {
      MulLeft(y1 + 1, y2, w);
    } else {
      MulLeft(y2 + 1, y1, w);
    }
  }

  /** Distinct pixels own disjoint slots of the buffer. */
  lemma SlotsDisjoint(c: RawCanvas, x1: int, y1: int, x2: int, y2: int)
    requires Valid(c)
    requires 0 <= x1 < c.width && 0 <= y1 < c.height
    requires 0 <= x2 < c.width && 0 <= y2 < c.height
    requires (x1, y1) != (x2, y2)
    ensures PixelOffset(c, x1, y1) + Channels(c.alpha) <= PixelOffset(c, x2, y2) ||
            PixelOffset(c, x2, y2) + Channels(c.alpha) <= PixelOffset(c, x1, y1)
  {
    var p1 := y1 * c.width + x1;
    var p2 := y2 * c.width + x2;
    PositionsDistinct(c.width, x1, y1, x2, y2);
    if p1 < p2 {
      MulLeft(p1 + 1, p2, Channels(c.alpha));
    } else {
      MulLeft(p2 + 1, p1, Channels(c.alpha));
    }
  }

  /** Every byte of the buffer belongs to some pixel's slot. */
  lemma SlotsCover(c: RawCanvas, k: nat)
    requires Valid(c) && k < |c.pixels|
    ensures c.width > 0
    ensures var p := k / Channels(c.alpha);
            var x := p % c.width;
            var y := p / c.width;
            0 <= y < c.height && PixelOffset(c, x, y) <= k < PixelOffset(c, x, y) + Channels(c.alpha)
  {
    var ch := Channels(c.alpha);
    var p := k / ch;
    assert k == p * ch + k % ch;
    var x := p % c.width;
    var y := p / c.width;
    assert p == y * c.width + x;
    if y >= c.height {
      MulLeft(c.height, y, c.width);
    }
  }

  /** A picture held as rows of pixels, each pixel a run of channel bytes. */
  type Grid = seq<seq<seq<Byte>>>

  /** `g` has `h` rows of `w` pixels of `ch` bytes each. */
  predicate Shaped(g: Grid, w: nat, h: nat, ch: nat)
  {
    |g| == h &&
    (forall y | 0 <= y < h :: |g[y]| == w) &&
    (forall y, x | 0 <= y < h && 0 <= x < |g[y]| :: |g[y][x]| == ch)
  }

  /** One row's pixels, one after the other. */
  function FlattenRow(row: seq<seq<Byte>>): seq<Byte>
    decreases |row|
  {
    if |row| == 0 then [] else row[0] + FlattenRow(row[1..])
  }

  /** The rows, one after the other: the layout `RawCanvas` stores. */
  function Flatten(g: Grid): seq<Byte>
    decreases |g|
  {
    if |g| == 0 then [] else FlattenRow(g[0]) + Flatten(g[1..])
  }

  lemma {:induction false} FlattenRowAt(row: seq<seq<Byte>>, ch: nat, x: nat, k: nat)
    requires forall i | 0 <= i < |row| :: |row[i]| == ch
    requires x < |row| && k < ch
    ensures |FlattenRow(row)| == |row| * ch
    ensures x * ch + k < |FlattenRow(row)| && FlattenRow(row)[x * ch + k] == row[x][k]
    decreases |row|
  {
    var rest := row[1..];
    assert FlattenRow(row) == row[0] + FlattenRow(rest);
    assert |row| * ch == ch + |rest| * ch;
    hide FlattenRow;
    if x == 0 {
      FlattenRowLength(rest, ch);
    } else {
      FlattenRowAt(rest, ch, x - 1, k);
      assert x * ch + k == ch + ((x - 1) * ch + k);
    }
  }

  lemma {:induction false} FlattenRowLength(row: seq<seq<Byte>>, ch: nat)
    requires forall i | 0 <= i < |row| :: |row[i]| == ch
    ensures |FlattenRow(row)| == |row| * ch
    decreases |row|
  {
    if |row| > 0 {
      FlattenRowLength(row[1..], ch);
    }
  }

  lemma {:induction false} FlattenLength(g: Grid, w: nat, h: nat, ch: nat)
    requires Shaped(g, w, h, ch)
    ensures |Flatten(g)| == w * h * ch
    decreases h
  {
    if h > 0 {
      var rest := g[1..];
      assert Shaped(rest, w, h - 1, ch);
      FlattenRowLength(g[0], ch);
      FlattenLength(rest, w, h - 1, ch);
      assert |Flatten(g)| == w * ch + w * (h - 1) * ch;
      OneMoreRow(w, h, ch);
    }
  }

  /** The position of byte `k` of pixel (x, y) in a row-major buffer of `w`-pixel rows with `ch` bytes per pixel. */
  function ByteIndex(w: nat, x: nat, y: nat, ch: nat, k: nat): nat
  {
    (y * w + x) * ch + k
  }

  /** In the first row the index is the one within the row; each row further down moves it on by one row's bytes. */
  lemma ByteIndexFacts(w: nat, x: nat, y: nat, ch: nat, k: nat)
    ensures y == 0 ==> ByteIndex(w, x, y, ch, k) == x * ch + k
    ensures y > 0 ==> ByteIndex(w, x, y, ch, k) == w * ch + ByteIndex(w, x, y - 1, ch, k)
  {
    if y > 0 {
      assert y * w == w + (y - 1) * w;
      assert (w + ((y - 1) * w + x)) * ch == w * ch + ((y - 1) * w + x) * ch;
    }
  }

  /** Byte `k` of pixel (x, y) sits at `ByteIndex` of the flattened grid. */
  lemma {:induction false} FlattenAt(g: Grid, w: nat, h: nat, ch: nat, x: nat, y: nat, k: nat)
    requires Shaped(g, w, h, ch)
    requires x < w && y < h && k < ch
    ensures ByteIndex(w, x, y, ch, k) < |Flatten(g)|
    ensures Flatten(g)[ByteIndex(w, x, y, ch, k)] == g[y][x][k]
    decreases h
  {
    var rest := g[1..];
    assert Flatten(g) == FlattenRow(g[0]) + Flatten(rest);
    FlattenRowAt(g[0], ch, if y == 0 then x else 0, k);
    assert |FlattenRow(g[0])| == w * ch;
    ByteIndexFacts(w, x, y, ch, k);
    hide Flatten, FlattenRow, ByteIndex;
    if y > 0 {
      assert Shaped(rest, w, h - 1, ch);
      FlattenAt(rest, w, h - 1, ch, x, y - 1, k);
    }
  }

  /**
   * The byte layout: the flattened grid is a valid canvas buffer, and the
   * slot `pixel(x, y)` points at holds exactly the grid's pixel (x, y).
   */
  lemma FlattenLayout(g: Grid, w: nat, h: nat, alpha: bool, x: nat, y: nat, k: nat)
    requires Shaped(g, w, h, Channels(alpha))
    requires x < w && y < h && k < Channels(alpha)
    ensures Valid(RawCanvas(w, h, alpha, Flatten(g)))
    ensures Flatten(g)[PixelOffset(RawCanvas(w, h, alpha, Flatten(g)), x, y) + k] == g[y][x][k]
  {
    var ch := Channels(alpha);
    FlattenLength(g, w, h, ch);
    var c := RawCanvas(w, h, alpha, Flatten(g));
    assert PixelOffset(c, x, y) == ByteIndex(w, x, y, ch, 0);
    FlattenAt(g, w, h, ch, x, y, k);
  }

}
