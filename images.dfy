/**
 * Grayscale images stored as a row-major list of integer pixels
 * (labs/lab1/lab.py, class Image).
 */
module Images {

  const MinValue: int := 0
  const MaxValue: int := 255

  /** The list position that a Python index `i` into a list of length `n` denotes. */
  function ListSlot(i: int, n: nat): (k: int)
    requires -(n as int) <= i < n
    ensures 0 <= k < n
    ensures 0 <= i ==> k == i
    ensures i < 0 ==> k == n + i
  {
    if i < 0 then n + i else i
  }

  /** `_transform_coordinate`: moves a coordinate outside `[0, maxX)` onto the nearest edge. */
  function TransformCoordinate(x: int, maxX: int): (r: int)
    ensures 1 <= maxX ==> 0 <= r < maxX
    ensures 0 <= x < maxX ==> r == x
    ensures x < 0 && 1 <= maxX ==> r == 0
    ensures maxX <= x ==> r == maxX - 1
  {
    var nonNegative := if 0 < x then x else 0;
    if nonNegative < maxX - 1 then nonNegative else maxX - 1
  }

  /** The integer case of the clipping done by `_clip`: `min(255, max(0, c))`. */
  function ClipValue(c: int): (r: int)
    ensures MinValue <= r <= MaxValue
    ensures MinValue <= c <= MaxValue ==> r == c
    ensures c < MinValue ==> r == MinValue
    ensures MaxValue < c ==> r == MaxValue
  {
    var atLeast := if MinValue < c then c else MinValue;
    if atLeast < MaxValue then atLeast else MaxValue
  }

  /** A kernel is usable when each of its rows is at least as long as the kernel is tall. */
  predicate SquareKernel(kernel: seq<seq<int>>) {
    forall dy :: 0 <= dy < |kernel| ==> |kernel| <= |kernel[dy]|
  }

  /** Row-major positions: (x, y) with x < width and y < height sits at y * width + x. */
  lemma RowMajorBound(width: nat, height: nat, x: int, y: int)
    requires 0 <= x < width && 0 <= y < height
    ensures 0 <= y * width + x < width * height
  {
    assert y * width <= (height - 1) * width;
  }

  /** Every position of a width-by-height buffer is the row-major position of exactly one (x, y). */
  lemma RowMajorCover(width: nat, height: nat, i: int)
    requires 0 <= i < width * height
    ensures 0 <= i % width < width && 0 <= i / width < height
    ensures (i / width) * width + i % width == i
  {
  }

  /** Distinct in-bounds coordinates have distinct row-major positions. */
  lemma RowMajorInjective(width: nat, x1: int, y1: int, x2: int, y2: int)
    requires 0 <= x1 < width && 0 <= x2 < width && 0 <= y1 && 0 <= y2
    requires y1 * width + x1 == y2 * width + x2
    ensures x1 == x2 && y1 == y2
  {
    RowStep(y1, y2, width);
    RowStep(y2, y1, width);
  }

  /** A later row starts at least one full row further on. */
  lemma {:induction false} RowStep(a: int, b: int, width: nat)
    ensures a < b ==> a * width + width <= b * width
    decreases b - a
  {
    if a < b - 1 {
      RowStep(a, b - 1, width);
      assert (b - 1) * width + width == b * width;
    }
  }

  class Image {
    var width: nat
    var height: nat
    var pixels: seq<int>

    /** `Image(width, height, pixels)`: the fields are taken as given. */
    constructor (width: nat, height: nat, pixels: seq<int>)
      ensures this.width == width && this.height == height && this.pixels == pixels
    {
      this.width := width;
      this.height := height;
      this.pixels := pixels;
    }

    /** The pixel list holds one entry per (x, y) position. */
    predicate Valid()
      reads this
    {
      |pixels| == width * height
    }

    /** `Image.new`: a blank (all 0) image of the given size. */
    static method New(width: nat, height: nat) returns (r: Image)
      ensures fresh(r) && r.Valid()
      ensures r.width == width && r.height == height
      ensures forall i :: 0 <= i < |r.pixels| ==> r.pixels[i] == 0
    {
      r := new Image(width, height, seq(width * height, _ => 0));
    }

    /** `_get_index`: the row-major position of (x, y). */
    function GetIndex(x: int, y: int): (i: int)
      reads this
      ensures 0 <= x < width && 0 <= y < height ==> 0 <= i < width * height
    {
      if 0 <= x < width && 0 <= y < height then RowMajorBound(width, height, x, y); y * width + x
      else y * width + x
    }

    /** `get_pixel`, with Python's list indexing (a negative index counts from the end). */
    function GetPixel(x: int, y: int): (c: int)
      reads this
      requires -|pixels| <= GetIndex(x, y) < |pixels|
      ensures Valid() && 0 <= x < width && 0 <= y < height ==> c == pixels[y * width + x]
    {
      pixels[ListSlot(GetIndex(x, y), |pixels|)]
    }

    /** `get_unbounded_pixel`: the pixel at the nearest in-bounds position. */
    function GetUnboundedPixel(x: int, y: int): (c: int)
      reads this
      requires Valid() && 1 <= width && 1 <= height
      ensures 0 <= x < width && 0 <= y < height ==> c == GetPixel(x, y)
      ensures c == pixels[GetIndex(TransformCoordinate(x, width), TransformCoordinate(y, height))]
    {
      var tx := TransformCoordinate(x, width);
      var ty := TransformCoordinate(y, height);
      RowMajorBound(width, height, tx, ty);
      GetPixel(tx, ty)
    }

    /** `set_pixel`: writes one list slot and nothing else. */
    method SetPixel(x: int, y: int, c: int)
      requires -|pixels| <= GetIndex(x, y) < |pixels|
      modifies this`pixels
      ensures |pixels| == |old(pixels)|
      ensures pixels == old(pixels)[ListSlot(GetIndex(x, y), |pixels|) := c]
      ensures Valid() && 0 <= x < width && 0 <= y < height ==>
        GetPixel(x, y) == c &&
        forall x', y' :: 0 <= x' < width && 0 <= y' < height && (x' != x || y' != y) ==>
          GetPixel(x', y') == old(GetPixel(x', y'))
    {
      pixels := pixels[ListSlot(GetIndex(x, y), |pixels|) := c];
      if Valid() && 0 <= x < width && 0 <= y < height {
        forall x', y' | 0 <= x' < width && 0 <= y' < height && (x' != x || y' != y)
          ensures GetPixel(x', y') == old(GetPixel(x', y'))
        {
          if y' * width + x' == y * width + x {
            RowMajorInjective(width, x', y', x, y);
          }
          RowMajorBound(width, height, x', y');
        }
      }
    }

    /** Both images hold the same pixel list in the same shape (`__eq__`). */
    function Equals(other: Image): (b: bool)
      reads this, other
      ensures Valid() && other.Valid() ==>
        (b <==> width == other.width && height == other.height &&
                forall x, y :: 0 <= x < width && 0 <= y < height ==> GetPixel(x, y) == other.GetPixel(x, y))
    {
      var same := height == other.height && width == other.width && pixels == other.pixels;
      assert Valid() && other.Valid() && height == other.height && width == other.width &&
             (forall x, y :: 0 <= x < width && 0 <= y < height ==> GetPixel(x, y) == other.GetPixel(x, y))
             ==> pixels == other.pixels by {
        if Valid() && other.Valid() && height == other.height && width == other.width &&
           forall x, y :: 0 <= x < width && 0 <= y < height ==> GetPixel(x, y) == other.GetPixel(x, y) {
          PixelwiseToList(other);
        }
      }
      same
    }

    /** Two valid images of one shape that agree at every (x, y) have equal pixel lists. */
    lemma PixelwiseToList(other: Image)
      requires Valid() && other.Valid() && width == other.width && height == other.height
      requires forall x, y :: 0 <= x < width && 0 <= y < height ==> GetPixel(x, y) == other.GetPixel(x, y)
      ensures pixels == other.pixels
    {
      forall i | 0 <= i < |pixels| ensures pixels[i] == other.pixels[i] {
        RowMajorCover(width, height, i);
        assert GetPixel(i % width, i / width) == other.GetPixel(i % width, i / width);
      }
    }

    /** `apply_per_pixel`: a new image of the same shape holding `func` of every pixel. */
    method ApplyPerPixel(func: int -> int) returns (r: Image)
      requires Valid()
      ensures fresh(r) && r.Valid() && r.width == width && r.height == height
      ensures forall x, y :: 0 <= x < width && 0 <= y < height ==> r.GetPixel(x, y) == func(GetPixel(x, y))
      ensures forall i :: 0 <= i < |pixels| ==> r.pixels[i] == func(pixels[i])
    {
      r := New(width, height);
      for x := 0 to r.width
        invariant fresh(r) && r.Valid() && r.width == width && r.height == height
        invariant forall x', y' :: 0 <= x' < x && 0 <= y' < height ==>
          r.GetPixel(x', y') == func(GetPixel(x', y'))
      {
        for y := 0 to r.height
          invariant fresh(r) && r.Valid() && r.width == width && r.height == height
          invariant forall x', y' :: 0 <= x' < width && 0 <= y' < height && (x' < x || (x' == x && y' < y)) ==>
            r.GetPixel(x', y') == func(GetPixel(x', y'))
        {
          var color := GetPixel(x, y);
          var newColor := func(color);
          r.SetPixel(x, y, newColor);
        }
      }
      forall i | 0 <= i < |pixels| ensures r.pixels[i] == func(pixels[i]) {
        RowMajorCover(width, height, i);
        assert r.GetPixel(i % width, i / width) == func(GetPixel(i % width, i / width));
      }
    }

    /** `inverted`: every pixel c becomes 255 - c. */
    method Inverted() returns (r: Image)
      requires Valid()
      ensures fresh(r) && r.Valid() && r.width == width && r.height == height
      ensures forall x, y :: 0 <= x < width && 0 <= y < height ==> r.GetPixel(x, y) == MaxValue - GetPixel(x, y)
      ensures forall i :: 0 <= i < |pixels| ==> r.pixels[i] == MaxValue - pixels[i]
    {
      r := ApplyPerPixel(c => MaxValue - c);
    }

    /**
     * The weighted sum that `correlate` stores at the position whose kernel
     * window starts at (x, y): the sum over dx < |kernel| and dy < rows of
     * the unbounded pixel at (x + dx, y + dy) times kernel[dy][dx].
     */
    ghost function WindowSum(kernel: seq<seq<int>>, x: int, y: int, columns: nat, rows: nat): int
      reads this
      requires Valid() && 1 <= width && 1 <= height && SquareKernel(kernel)
      requires columns <= |kernel| && rows <= |kernel|
      decreases columns, rows
    {
      if columns == 0 then 0
      else if rows == 0 then WindowSum(kernel, x, y, columns - 1, |kernel|)
      else WindowSum(kernel, x, y, columns, rows - 1)
           + GetUnboundedPixel(x + columns - 1, y + rows - 1) * kernel[rows - 1][columns - 1]
    }

    /** The value `correlate(kernel)` gives the pixel at (baseX, baseY). */
    ghost function CorrelationAt(kernel: seq<seq<int>>, baseX: int, baseY: int): int
      reads this
      requires Valid() && 1 <= width && 1 <= height && SquareKernel(kernel)
    {
      WindowSum(kernel, baseX - |kernel| / 2, baseY - |kernel| / 2, |kernel|, |kernel|)
    }

    /**
     * The `dx`/`dy` accumulation loops of `correlate` for the output pixel
     * at (baseX, baseY), whose window starts at (x, y) = (baseX - center, baseY - center).
     */
    method WeightedSum(kernel: seq<seq<int>>, baseX: int, baseY: int, center: int) returns (c: int)
      requires Valid() && 1 <= width && 1 <= height && SquareKernel(kernel)
      requires center == |kernel| / 2
      ensures c == CorrelationAt(kernel, baseX, baseY)
    {
      var x, y := baseX - center, baseY - center;
      c := 0;
      for dx := 0 to |kernel|
        invariant c == WindowSum(kernel, x, y, dx, |kernel|)
      {
        for dy := 0 to |kernel|
          invariant c == WindowSum(kernel, x, y, dx + 1, dy)
        {
          c := c + GetUnboundedPixel(x + dx, y + dy) * kernel[dy][dx];
        }
      }
    }

    /** `correlate`: a new image of the same shape holding the kernel's weighted sums. */
    method Correlate(kernel: seq<seq<int>>) returns (r: Image)
      requires Valid()
      requires 1 <= width && 1 <= height ==> SquareKernel(kernel)
      ensures fresh(r) && r.Valid() && r.width == width && r.height == height
      ensures forall x, y :: 0 <= x < width && 0 <= y < height ==> r.GetPixel(x, y) == CorrelationAt(kernel, x, y)
    {
      r := New(width, height);
      var kernSize := |kernel|;
      var center := kernSize / 2;
      for baseX := 0 to width
        invariant fresh(r) && r != this && r.Valid() && r.width == width && r.height == height
        invariant forall x', y' :: 0 <= x' < baseX && 0 <= y' < height ==>
          r.GetPixel(x', y') == CorrelationAt(kernel, x', y')
      {
        CorrelateColumn(kernel, r, baseX, center);
      }
    }

    /** The inner `for y` loop of `correlate`: fills column baseX of `r`. */
    method CorrelateColumn(kernel: seq<seq<int>>, r: Image, baseX: int, center: int)
      requires Valid() && (1 <= height ==> SquareKernel(kernel)) && center == |kernel| / 2
      requires r != this && r.Valid() && r.width == width && r.height == height && 0 <= baseX < width
      modifies r`pixels
      ensures r.Valid()
      ensures forall x', y' :: 0 <= x' < width && 0 <= y' < height && x' != baseX ==>
        r.GetPixel(x', y') == old(r.GetPixel(x', y'))
      ensures forall y' :: 0 <= y' < height ==> r.GetPixel(baseX, y') == CorrelationAt(kernel, baseX, y')
    {
      for baseY := 0 to height
        invariant r.Valid()
        invariant forall x', y' :: 0 <= x' < width && 0 <= y' < height && x' != baseX ==>
          r.GetPixel(x', y') == old(r.GetPixel(x', y'))
        invariant forall y' :: 0 <= y' < baseY ==> r.GetPixel(baseX, y') == CorrelationAt(kernel, baseX, y')
      {
        var c := WeightedSum(kernel, baseX, baseY, center);
        r.SetPixel(baseX, baseY, c);
      }
    }

    /** `_clip` on integer pixels: every pixel is forced into [0, 255]. */
    method Clip() returns (r: Image)
      ensures fresh(r) && r.width == width && r.height == height && |r.pixels| == |pixels|
      ensures forall i :: 0 <= i < |pixels| ==> r.pixels[i] == ClipValue(pixels[i])
      ensures forall i :: 0 <= i < |pixels| ==> MinValue <= r.pixels[i] <= MaxValue
      ensures forall i :: 0 <= i < |pixels| && MinValue <= pixels[i] <= MaxValue ==> r.pixels[i] == pixels[i]
    {
      var p := pixels;
      r := new Image(width, height, seq(|p|, i requires 0 <= i < |p| => ClipValue(p[i])));
    }
  }

  /** The 3-by-3 identity kernel of labs/lab1/test.py. */
  const Identity: seq<seq<int>> := [[0, 0, 0], [0, 1, 0], [0, 0, 0]]

  /** Correlating with the identity kernel reproduces every pixel. */
  lemma IdentityWindow(im: Image, x: int, y: int)
    requires im.Valid() && 0 <= x < im.width && 0 <= y < im.height
    ensures im.CorrelationAt(Identity, x, y) == im.GetPixel(x, y)
  {
    assert SquareKernel(Identity);
    var x0, y0 := x - 1, y - 1;
    assert im.WindowSum(Identity, x0, y0, 1, 0) == 0;
    assert im.WindowSum(Identity, x0, y0, 1, 1) == 0;
    assert im.WindowSum(Identity, x0, y0, 1, 2) == 0;
    assert im.WindowSum(Identity, x0, y0, 1, 3) == 0;
    assert im.WindowSum(Identity, x0, y0, 2, 1) == 0;
    assert im.WindowSum(Identity, x0, y0, 2, 3) == im.GetUnboundedPixel(x, y);
    assert im.WindowSum(Identity, x0, y0, 3, 1) == im.GetUnboundedPixel(x, y);
    assert im.WindowSum(Identity, x0, y0, 3, 2) == im.GetUnboundedPixel(x, y);
  }

  /** `correlate` with the identity kernel yields an image equal to the input. */
  method CorrelateIdentity(im: Image) returns (r: Image)
    requires im.Valid()
    ensures r.Equals(im)
  {
    r := im.Correlate(Identity);
    forall x, y | 0 <= x < im.width && 0 <= y < im.height
      ensures r.GetPixel(x, y) == im.GetPixel(x, y)
    {
      IdentityWindow(im, x, y);
    }
  }

  /** Inverting an image twice gives back an equal image. */
  method InvertTwice(im: Image) returns (twice: Image)
    requires im.Valid()
    ensures twice.Equals(im)
  {
    var once := im.Inverted();
    twice := once.Inverted();
  }

  /** The `inverted` vector of labs/lab1/test.py. */
  method InvertedExample() returns (result: seq<int>)
    ensures result == [231, 162, 115, 58]
  {
    var im := new Image(4, 1, [24, 93, 140, 197]);
    var inverted := im.Inverted();
    result := inverted.pixels;
  }

  /** The `get_unbounded_pixel` vectors of labs/lab1/test.py on its 3-by-3 image. */
  method UnboundedPixelExample() returns (values: seq<int>)
    ensures values == [21, 57, 167, 215, 32, 209, 2, 98, 182]
  {
    var im := new Image(3, 3, [21, 57, 167, 215, 32, 209, 2, 98, 182]);
    values := [im.GetUnboundedPixel(-2, -1), im.GetUnboundedPixel(1, -2), im.GetUnboundedPixel(4, -3),
               im.GetUnboundedPixel(-1, 1), im.GetUnboundedPixel(1, 1), im.GetUnboundedPixel(5, 1),
               im.GetUnboundedPixel(-3, 3), im.GetUnboundedPixel(1, 4), im.GetUnboundedPixel(5, 3)];
  }
}
