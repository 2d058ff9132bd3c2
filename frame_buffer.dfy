/**
 * The 64 × 32 monochrome framebuffer: a flat row-major array of booleans whose
 * coordinates wrap around on every access.
 */
module FrameBuffers {
  import opened Bytes

  const Width: byte := 64
  const Height: byte := 32
  const Size: nat := 64 * 32

  /** The cleared screen: every pixel off. */
  function Blank(): (r: seq<bool>)
    ensures |r| == Size && forall k :: 0 <= k < |r| ==> !r[k]
  {
    seq(Size, _ => false)
  }

  /**
   * The row-major cell of (x, y) in a w × h grid after wrapping x into
   * 0..w-1 and y into 0..h-1. The column and row can be read back from it.
   */
  function CalculateIndex(x: byte, y: byte, w: byte, h: byte): (r: nat)
    requires w > 0 && h > 0
    ensures r < w * h
    ensures r % w == x % w && r / w == y % h
  {
    var col, row := x % w, y % h;
    assert row * w <= (h - 1) * w by {
      MulMonotone(row, h - 1, w);
    }
    DivUnique(row * w + col, w, row, col);
    row * w + col
  }

  lemma MulMonotone(a: nat, b: nat, w: nat)
    requires a <= b
    ensures a * w <= b * w
  {
    assert b * w == a * w + (b - a) * w;
  }

  /** Two coordinate pairs name the same cell exactly when they agree after wrapping. */
  lemma SameCell(x: byte, y: byte, x': byte, y': byte)
    ensures CalculateIndex(x, y, Width, Height) == CalculateIndex(x', y', Width, Height)
        <==> x % Width == x' % Width && y % Height == y' % Height
  {
  }

  /** The sample values the source's unit test pins down for a 10 × 10 grid. */
  lemma CalculateIndexExamples()
    ensures CalculateIndex(0, 0, 10, 10) == 0
    ensures CalculateIndex(0, 1, 10, 10) == 10
    ensures CalculateIndex(7, 5, 10, 10) == 57
  {
  }

  /** The pixel at (x, y), coordinates wrapped. */
  function PixelAt(screen: seq<bool>, x: byte, y: byte): bool
    requires |screen| == Size
  {
    screen[CalculateIndex(x, y, Width, Height)]
  }

  /** Reading a pixel only depends on the coordinates modulo the screen size. */
  lemma GetPixelWraps(screen: seq<bool>, x: byte, y: byte)
    requires |screen| == Size
    ensures PixelAt(screen, x, y) == PixelAt(screen, x % Width, y % Height)
  {
    SameCell(x, y, x % Width, y % Height);
  }

  /** The screen with the pixel at (x, y), coordinates wrapped, toggled. */
  function Flipped(screen: seq<bool>, x: byte, y: byte): (r: seq<bool>)
    requires |screen| == Size
    ensures |r| == Size
  {
    var k := CalculateIndex(x, y, Width, Height);
    screen[k := !screen[k]]
  }

  /** Flipping toggles the wrapped cell and no other, seen through coordinates. */
  lemma FlipTogglesOnlyItsCell(screen: seq<bool>, x: byte, y: byte, x': byte, y': byte)
    requires |screen| == Size
    ensures PixelAt(Flipped(screen, x, y), x', y')
         == (PixelAt(screen, x', y') != (x' % Width == x % Width && y' % Height == y % Height))
  {
    SameCell(x, y, x', y');
  }

  /** Flipping the same coordinates twice restores the screen. */
  lemma FlipTwiceRestores(screen: seq<bool>, x: byte, y: byte)
    requires |screen| == Size
    ensures Flipped(Flipped(screen, x, y), x, y) == screen
  {
    var k := CalculateIndex(x, y, Width, Height);
    assert Flipped(Flipped(screen, x, y), x, y) == screen[k := !screen[k]][k := screen[k]];
  }

  class FrameBuffer {
    const pixels: array<bool>

    ghost predicate Valid()
      reads this
    {
      pixels.Length == Size
    }

    constructor ()
      ensures Valid() && fresh(pixels)
      ensures pixels[..] == Blank()
    {
      pixels := new bool[Size](_ => false);
    }

    function GetPixel(x: byte, y: byte): bool
      reads this, pixels
      requires Valid()
    {
      PixelAt(pixels[..], x, y)
    }

    method FlipPixel(x: byte, y: byte)
      requires Valid()
      modifies pixels
      ensures pixels[..] == Flipped(old(pixels[..]), x, y)
    {
      var k := CalculateIndex(x, y, Width, Height);
      pixels[k] := !pixels[k];
    }

    method Clear()
      requires Valid()
      modifies pixels
      ensures pixels[..] == Blank()
    {
      var k := 0;
      while k < pixels.Length
        invariant 0 <= k <= pixels.Length
        invariant forall j :: 0 <= j < k ==> !pixels[j]
      {
        pixels[k] := false;
        k := k + 1;
      }
      assert pixels[..] == Blank();
    }
  }
}
