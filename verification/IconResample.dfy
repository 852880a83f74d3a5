/** The box filter that scales icons: `resample` in src-tauri/src/icons.rs. */
module IconResample {
  import opened Wrappers

  type Channel = c: int | 0 <= c < 256

  const ALPHA := 3

  /** Rows of pixels of four channels each; the colours are not multiplied by alpha. */
  datatype Image = Image(rgba: seq<Channel>, width: nat, height: nat)
  {
    ghost predicate Valid() {
      width > 0 && height > 0 && |rgba| == width * height * 4
    }

    predicate Inside(x: nat, y: nat) {
      x < width && y < height
    }

    function At(x: nat, y: nat, c: nat): Channel
      requires Valid() && Inside(x, y) && c < 4
    {
      PixelIndex(width, height, x, y);
      rgba[(y * width + x) * 4 + c]
    }
  }

  lemma PixelIndex(width: nat, height: nat, x: nat, y: nat)
    requires x < width && y < height
    ensures 0 <= y * width + x < width * height
  {
    assert (y + 1) * width <= height * width;
  }

  // Boxes

  /** Where the box of target column (or row) `i` starts, with `n` in the source. */
  function Start(i: nat, n: nat, size: nat): nat
    requires size > 0
  {
    i * n / size
  }

  function End(i: nat, n: nat, size: nat): int
    requires size > 0
  {
    Min(Max(Start(i + 1, n, size), Start(i, n, size) + 1), n)
  }

  lemma Scale(a: int, b: int, d: nat)
    ensures a <= b ==> a * d <= b * d
  {
  }

  lemma QuotientBounds(a: nat, d: nat)
    requires d > 0
    ensures (a / d) * d <= a < (a / d + 1) * d
  {
    assert a == (a / d) * d + a % d;
  }

  lemma QuotientAtLeast(a: nat, d: nat, q: nat)
    requires d > 0 && q * d <= a
    ensures q <= a / d
  {
    QuotientBounds(a, d);
    Scale(a / d + 1, q, d);
  }

  lemma QuotientBelow(a: nat, d: nat, q: nat)
    requires d > 0 && a < q * d
    ensures a / d < q
  {
    QuotientBounds(a, d);
    Scale(q, a / d, d);
  }

  lemma Quotient(a: nat, d: nat, q: nat)
    requires d > 0 && q * d <= a < (q + 1) * d
    ensures a / d == q
  {
    QuotientAtLeast(a, d, q);
    QuotientBelow(a, d, q + 1);
  }

  /** Every box is inside the source and not empty. */
  lemma BoxIsInside(i: nat, n: nat, size: nat)
    requires i < size && n > 0
    ensures Start(i, n, size) < End(i, n, size) <= n
  {
    assert i * n < size * n;
    QuotientBelow(i * n, size, n);
  }

  lemma Ends(n: nat, size: nat)
    requires size > 0
    ensures Start(0, n, size) == 0 && Start(size, n, size) == n
  {
    Quotient(size * n, size, n);
    assert 0 * n == 0;
  }

  /** When nothing is enlarged each box ends where the next one starts. */
  lemma BoxesMeet(i: nat, n: nat, size: nat)
    requires i < size <= n
    ensures Start(i, n, size) < End(i, n, size) == Start(i + 1, n, size) <= n
  {
    var s, a := Start(i, n, size), i * n;
    QuotientBounds(a, size);
    NextMultiple(s, size);
    NextMultiple(i, n);
    QuotientAtLeast(a + n, size, s + 1);
    Scale(i + 1, size, n);
    NextMultiple(n, size);
    QuotientBelow(a + n, size, n + 1);
  }

  lemma NextMultiple(k: nat, d: nat)
    ensures (k + 1) * d == k * d + d
  {
  }

  /** When nothing is reduced each box is a single pixel. */
  lemma BoxesArePoints(i: nat, n: nat, size: nat)
    requires i < size && 0 < n <= size
    ensures End(i, n, size) == Start(i, n, size) + 1
  {
    var s := Start(i, n, size);
    BoxIsInside(i, n, size);
    QuotientBounds(i * n, size);
    NextMultiple(i, n);
    NextMultiple(s + 1, size);
    QuotientBelow((i + 1) * n, size, s + 2);
  }

  /** The boxes tile the source: each position is in exactly one. */
  lemma {:induction false} BoxesTile(p: nat, n: nat, size: nat) returns (i: nat)
    requires p < n && 0 < size <= n
    ensures i < size && Start(i, n, size) <= p < End(i, n, size)
    ensures forall j: nat :: j < size && Start(j, n, size) <= p < End(j, n, size) ==> j == i
  {
    Ends(n, size);
    i := 0;
    while Start(i + 1, n, size) <= p
      invariant i < size && Start(i, n, size) <= p
      decreases size - i
    {
      i := i + 1;
    }
    BoxesMeet(i, n, size);
    forall j: nat | j < size && Start(j, n, size) <= p < End(j, n, size) ensures j == i {
      BoxesMeet(j, n, size);
      if j < i {
        StartsAscend(j + 1, i, n, size);
      } else if i < j {
        StartsAscend(i + 1, j, n, size);
      }
    }
  }

  lemma StartsAscend(i: nat, j: nat, n: nat, size: nat)
    requires i <= j && size > 0
    ensures Start(i, n, size) <= Start(j, n, size)
  {
    assert i * n <= j * n;
    QuotientBounds(i * n, size);
    QuotientAtLeast(j * n, size, Start(i, n, size));
  }

  // Sums

  /** What one pixel adds to the sum of a channel. */
  function Term(img: Image, c: nat, x: nat, y: nat): nat
    requires img.Valid() && img.Inside(x, y) && c < 4
  {
    if c == ALPHA then img.At(x, y, ALPHA) else img.At(x, y, c) * img.At(x, y, ALPHA)
  }

  function RowSum(img: Image, c: nat, y: nat, x0: nat, x1: nat): nat
    requires img.Valid() && c < 4 && y < img.height && x0 <= x1 <= img.width
  {
    if x0 == x1 then 0 else RowSum(img, c, y, x0, x1 - 1) + Term(img, c, x1 - 1, y)
  }

  function BoxSum(img: Image, c: nat, x0: nat, x1: nat, y0: nat, y1: nat): nat
    requires img.Valid() && c < 4 && x0 <= x1 <= img.width && y0 <= y1 <= img.height
  {
    if y0 == y1 then 0 else BoxSum(img, c, x0, x1, y0, y1 - 1) + RowSum(img, c, y1 - 1, x0, x1)
  }

  lemma RowStep(img: Image, y: nat, x0: nat, x1: nat)
    requires img.Valid() && y < img.height && x0 <= x1 < img.width
    ensures forall c :: 0 <= c < 4 ==> RowSum(img, c, y, x0, x1 + 1) == RowSum(img, c, y, x0, x1) + Term(img, c, x1, y)
  {
  }

  lemma BoxStep(img: Image, x0: nat, x1: nat, y0: nat, y1: nat)
    requires img.Valid() && x0 <= x1 <= img.width && y0 <= y1 < img.height
    ensures forall c :: 0 <= c < 4 ==>
              BoxSum(img, c, x0, x1, y0, y1 + 1) == BoxSum(img, c, x0, x1, y0, y1) + RowSum(img, c, y1, x0, x1)
  {
  }

  lemma NoSums(img: Image, x0: nat, x1: nat, y0: nat)
    requires img.Valid() && x0 <= x1 <= img.width && y0 <= img.height
    ensures forall c :: 0 <= c < 4 ==> BoxSum(img, c, x0, x1, y0, y0) == 0
    ensures forall c :: 0 <= c < 4 && y0 < img.height ==> RowSum(img, c, y0, x0, x0) == 0
  {
  }

  lemma TermsOf(img: Image, x: nat, y: nat)
    requires img.Valid() && img.Inside(x, y)
    ensures var p := (y * img.width + x) * 4;
            && 0 <= p && p + 3 < |img.rgba|
            && (forall c :: 0 <= c < 3 ==> Term(img, c, x, y) == (img.rgba[p + c] as int) * img.rgba[p + 3])
            && Term(img, ALPHA, x, y) == img.rgba[p + 3]
  {
    PixelIndex(img.width, img.height, x, y);
  }

  type Sums = (nat, nat, nat, nat)

  ghost predicate AreBoxSums(sum: Sums, img: Image, x0: nat, x1: nat, y0: nat, y1: nat)
    requires img.Valid() && x0 <= x1 <= img.width && y0 <= y1 <= img.height
  {
    && sum.0 == BoxSum(img, 0, x0, x1, y0, y1) && sum.1 == BoxSum(img, 1, x0, x1, y0, y1)
    && sum.2 == BoxSum(img, 2, x0, x1, y0, y1) && sum.3 == BoxSum(img, ALPHA, x0, x1, y0, y1)
  }

  ghost predicate AreMoreByRow(sum: Sums, above: Sums, img: Image, y: nat, x0: nat, x1: nat)
    requires img.Valid() && x0 <= x1 <= img.width && y < img.height
  {
    && sum.0 == above.0 + RowSum(img, 0, y, x0, x1) && sum.1 == above.1 + RowSum(img, 1, y, x0, x1)
    && sum.2 == above.2 + RowSum(img, 2, y, x0, x1) && sum.3 == above.3 + RowSum(img, ALPHA, y, x0, x1)
  }

  lemma NoneYet(sum: Sums, img: Image, y: nat, x0: nat, x1: nat)
    requires img.Valid() && x0 <= x1 <= img.width
    ensures y <= img.height ==> AreBoxSums((0, 0, 0, 0), img, x0, x1, y, y)
    ensures y < img.height ==> AreMoreByRow(sum, sum, img, y, x0, x0)
  {
    if y <= img.height {
      NoSums(img, x0, x1, y);
    }
  }

  /** The sums with one more pixel. */
  function WithPixel(sum: Sums, img: Image, x: nat, y: nat): Sums
    requires img.Valid() && img.Inside(x, y)
  {
    PixelIndex(img.width, img.height, x, y);
    var p := (y * img.width + x) * 4;
    var alpha: nat := img.rgba[p + 3];
    (sum.0 + img.rgba[p] as int * alpha, sum.1 + img.rgba[p + 1] as int * alpha,
     sum.2 + img.rgba[p + 2] as int * alpha, sum.3 + alpha)
  }

  lemma PixelAdds(sum: Sums, above: Sums, img: Image, y: nat, x0: nat, x: nat)
    requires img.Valid() && x0 <= x < img.width && y < img.height && AreMoreByRow(sum, above, img, y, x0, x)
    ensures AreMoreByRow(WithPixel(sum, img, x, y), above, img, y, x0, x + 1)
  {
    hide RowSum, Term, Image.At;
    RowStep(img, y, x0, x);
    TermsOf(img, x, y);
    var p := (y * img.width + x) * 4;
    assert Term(img, 0, x, y) == img.rgba[p + 0] as int * img.rgba[p + 3];
    assert Term(img, 1, x, y) == img.rgba[p + 1] as int * img.rgba[p + 3];
    assert Term(img, 2, x, y) == img.rgba[p + 2] as int * img.rgba[p + 3];
  }

  lemma RowAdds(sum: Sums, above: Sums, img: Image, x0: nat, x1: nat, y0: nat, y: nat)
    requires img.Valid() && x0 <= x1 <= img.width && y0 <= y < img.height
    requires AreBoxSums(above, img, x0, x1, y0, y) && AreMoreByRow(sum, above, img, y, x0, x1)
    ensures AreBoxSums(sum, img, x0, x1, y0, y + 1)
  {
    hide RowSum, BoxSum;
    BoxStep(img, x0, x1, y0, y);
  }

  /** The sums and the number of pixels of a box. */
  method SumBox(img: Image, x0: nat, x1: nat, y0: nat, y1: nat) returns (sum: Sums, count: nat)
    requires img.Valid() && x0 <= x1 <= img.width && y0 <= y1 <= img.height
    ensures AreBoxSums(sum, img, x0, x1, y0, y1)
    ensures count == (y1 - y0) * (x1 - x0)
  {
    hide AreBoxSums, AreMoreByRow, WithPixel;
    sum, count := (0, 0, 0, 0), 0;
    NoneYet(sum, img, y0, x0, x1);
    for sy := y0 to y1
      invariant AreBoxSums(sum, img, x0, x1, y0, sy)
      invariant count == (sy - y0) * (x1 - x0)
    {
      ghost var above, counted := sum, count;
      NoneYet(sum, img, sy, x0, x1);
      for sx := x0 to x1
        invariant AreMoreByRow(sum, above, img, sy, x0, sx)
        invariant count == counted + (sx - x0)
      {
        PixelAdds(sum, above, img, sy, x0, sx);
        sum := WithPixel(sum, img, sx, sy);
        count := count + 1;
      }
      RowAdds(sum, above, img, x0, x1, y0, sy);
      Distribute(x1 - x0, sy - y0, 1);
    }
  }

  /** All pixels of a box that can be seen have a channel between two bounds. */
  ghost predicate VisibleBetween(img: Image, c: nat, x0: nat, x1: nat, y0: nat, y1: nat, lo: nat, hi: nat)
    requires img.Valid() && c < 4 && x0 <= x1 <= img.width && y0 <= y1 <= img.height
  {
    forall x, y :: x0 <= x < x1 && y0 <= y < y1 && img.At(x, y, ALPHA) > 0 ==> lo <= img.At(x, y, c) <= hi
  }

  lemma TermBetween(value: nat, alpha: nat, lo: nat, hi: nat)
    requires alpha > 0 ==> lo <= value <= hi
    ensures lo * alpha <= value * alpha <= hi * alpha
  {
  }

  lemma {:induction false} RowBetween(img: Image, c: nat, y: nat, x0: nat, x1: nat, lo: nat, hi: nat)
    requires img.Valid() && c < ALPHA && y < img.height && x0 <= x1 <= img.width
    requires VisibleBetween(img, c, x0, x1, y, y + 1, lo, hi)
    ensures lo * RowSum(img, ALPHA, y, x0, x1) <= RowSum(img, c, y, x0, x1) <= hi * RowSum(img, ALPHA, y, x0, x1)
  {
    if x0 < x1 {
      RowBetween(img, c, y, x0, x1 - 1, lo, hi);
      var value, alpha := img.At(x1 - 1, y, c), img.At(x1 - 1, y, ALPHA);
      TermBetween(value, alpha, lo, hi);
      Distribute(lo, RowSum(img, ALPHA, y, x0, x1 - 1), alpha);
      Distribute(hi, RowSum(img, ALPHA, y, x0, x1 - 1), alpha);
    }
  }

  lemma Distribute(a: int, b: int, c: int)
    ensures a * (b + c) == a * b + a * c
  {
  }

  lemma {:induction false} BoxBetween(img: Image, c: nat, x0: nat, x1: nat, y0: nat, y1: nat, lo: nat, hi: nat)
    requires img.Valid() && c < ALPHA && x0 <= x1 <= img.width && y0 <= y1 <= img.height
    requires VisibleBetween(img, c, x0, x1, y0, y1, lo, hi)
    ensures lo * BoxSum(img, ALPHA, x0, x1, y0, y1) <= BoxSum(img, c, x0, x1, y0, y1)
         <= hi * BoxSum(img, ALPHA, x0, x1, y0, y1)
  {
    if y0 < y1 {
      BoxBetween(img, c, x0, x1, y0, y1 - 1, lo, hi);
      RowBetween(img, c, y1 - 1, x0, x1, lo, hi);
      var above, row := BoxSum(img, ALPHA, x0, x1, y0, y1 - 1), RowSum(img, ALPHA, y1 - 1, x0, x1);
      Distribute(lo, above, row);
      Distribute(hi, above, row);
    }
  }

  ghost predicate AlphaBetween(img: Image, x0: nat, x1: nat, y0: nat, y1: nat, lo: nat, hi: nat)
    requires img.Valid() && x0 <= x1 <= img.width && y0 <= y1 <= img.height
  {
    forall x, y :: x0 <= x < x1 && y0 <= y < y1 ==> lo <= img.At(x, y, ALPHA) <= hi
  }

  lemma {:induction false} RowAlphaBetween(img: Image, y: nat, x0: nat, x1: nat, lo: nat, hi: nat)
    requires img.Valid() && y < img.height && x0 <= x1 <= img.width
    requires AlphaBetween(img, x0, x1, y, y + 1, lo, hi)
    ensures lo * (x1 - x0) <= RowSum(img, ALPHA, y, x0, x1) <= hi * (x1 - x0)
  {
    if x0 < x1 {
      RowAlphaBetween(img, y, x0, x1 - 1, lo, hi);
      Distribute(lo, x1 - 1 - x0, 1);
      Distribute(hi, x1 - 1 - x0, 1);
    }
  }

  lemma {:induction false} BoxAlphaBetween(img: Image, x0: nat, x1: nat, y0: nat, y1: nat, lo: nat, hi: nat)
    requires img.Valid() && x0 <= x1 <= img.width && y0 <= y1 <= img.height
    requires AlphaBetween(img, x0, x1, y0, y1, lo, hi)
    ensures lo * ((y1 - y0) * (x1 - x0)) <= BoxSum(img, ALPHA, x0, x1, y0, y1) <= hi * ((y1 - y0) * (x1 - x0))
  {
    hide BoxSum, RowSum, Image.At;
    NoSums(img, x0, x1, y0);
    if y0 < y1 {
      BoxStep(img, x0, x1, y0, y1 - 1);
      BoxAlphaBetween(img, x0, x1, y0, y1 - 1, lo, hi);
      RowAlphaBetween(img, y1 - 1, x0, x1, lo, hi);
      OneRowMore(lo, y1 - 1 - y0, x1 - x0);
      OneRowMore(hi, y1 - 1 - y0, x1 - x0);
    }
  }

  lemma OneRowMore(a: nat, rows: nat, n: nat)
    ensures a * ((rows + 1) * n) == a * (rows * n) + a * n
  {
    Distribute(n, rows, 1);
    Distribute(a, rows * n, n);
  }

  /** The 64-bit sums cannot overflow for images of fewer than 2^47 pixels. */
  lemma SumsFit(img: Image, c: nat, x0: nat, x1: nat, y0: nat, y1: nat)
    requires img.Valid() && c < 4 && x0 <= x1 <= img.width && y0 <= y1 <= img.height
    requires img.width * img.height < 0x8000_0000_0000
    ensures BoxSum(img, c, x0, x1, y0, y1) < 0x1_0000_0000_0000_0000
  {
    hide BoxSum, Image.At;
    BoxAlphaBetween(img, x0, x1, y0, y1, 0, 255);
    AreaWithin(y1 - y0, x1 - x0, img.height, img.width);
    if c < ALPHA {
      BoxBetween(img, c, x0, x1, y0, y1, 0, 255);
    }
  }

  lemma AreaWithin(rows: nat, columns: nat, height: nat, width: nat)
    requires rows <= height && columns <= width
    ensures rows * columns <= width * height
  {
    Scale(rows, height, columns);
    Scale(columns, width, height);
    assert height * columns == columns * height;
  }

  lemma AverageBetween(sum: nat, total: nat, lo: nat, hi: nat)
    requires total > 0 && lo * total <= sum <= hi * total
    ensures lo <= sum / total <= hi
  {
    QuotientAtLeast(sum, total, lo);
    assert (hi + 1) * total == hi * total + total;
    QuotientBelow(sum, total, hi + 1);
  }

  // The target

  /** Channel `c` of a target pixel: an average weighted by alpha, and for alpha itself a plain
      one; nothing where nothing can be seen. */
  function Target(img: Image, size: nat, x: nat, y: nat, c: nat): nat
    requires img.Valid() && x < size && y < size && c < 4
  {
    BoxIsInside(x, img.width, size);
    BoxIsInside(y, img.height, size);
    var x0, x1 := Start(x, img.width, size), End(x, img.width, size);
    var y0, y1 := Start(y, img.height, size), End(y, img.height, size);
    var total := BoxSum(img, ALPHA, x0, x1, y0, y1);
    if total == 0 then 0
    else if c == ALPHA then total / Area(x0, x1, y0, y1)
    else BoxSum(img, c, x0, x1, y0, y1) / total
  }

  function Area(x0: nat, x1: nat, y0: nat, y1: nat): (n: nat)
    requires x0 <= x1 && y0 <= y1
    ensures x0 < x1 && y0 < y1 ==> n > 0
  {
    (y1 - y0) * (x1 - x0)
  }

  /** Something can be seen in the box of a target pixel. */
  ghost predicate IsVisible(img: Image, size: nat, x: nat, y: nat)
    requires img.Valid() && x < size && y < size
  {
    BoxIsInside(x, img.width, size);
    BoxIsInside(y, img.height, size);
    BoxSum(img, ALPHA, Start(x, img.width, size), End(x, img.width, size),
           Start(y, img.height, size), End(y, img.height, size)) > 0
  }

  /** The visible pixels in the box of a target pixel have a channel between two bounds. */
  ghost predicate BoxVisibleBetween(img: Image, size: nat, x: nat, y: nat, c: nat, lo: nat, hi: nat)
    requires img.Valid() && x < size && y < size && c < 4
  {
    BoxIsInside(x, img.width, size);
    BoxIsInside(y, img.height, size);
    VisibleBetween(img, c, Start(x, img.width, size), End(x, img.width, size),
                   Start(y, img.height, size), End(y, img.height, size), lo, hi)
  }

  /** All pixels in the box of a target pixel have their alpha between two bounds. */
  ghost predicate BoxAllBetween(img: Image, size: nat, x: nat, y: nat, lo: nat, hi: nat)
    requires img.Valid() && x < size && y < size
  {
    BoxIsInside(x, img.width, size);
    BoxIsInside(y, img.height, size);
    AlphaBetween(img, Start(x, img.width, size), End(x, img.width, size),
                 Start(y, img.height, size), End(y, img.height, size), lo, hi)
  }

  /** A colour channel of a target pixel with something to see lies between the bounds of the
      visible pixels in its box; one with nothing to see is all zeros. */
  lemma ColourBetween(img: Image, size: nat, x: nat, y: nat, c: nat, lo: nat, hi: nat)
    requires img.Valid() && x < size && y < size && c < ALPHA
    requires BoxVisibleBetween(img, size, x, y, c, lo, hi)
    ensures if IsVisible(img, size, x, y) then lo <= Target(img, size, x, y, c) <= hi
            else Target(img, size, x, y, c) == 0
  {
    BoxIsInside(x, img.width, size);
    BoxIsInside(y, img.height, size);
    hide BoxSum, Start, End, VisibleBetween;
    var x0, x1 := Start(x, img.width, size), End(x, img.width, size);
    var y0, y1 := Start(y, img.height, size), End(y, img.height, size);
    BoxBetween(img, c, x0, x1, y0, y1, lo, hi);
    var total := BoxSum(img, ALPHA, x0, x1, y0, y1);
    if total > 0 {
      AverageBetween(BoxSum(img, c, x0, x1, y0, y1), total, lo, hi);
    }
  }

  /** Alpha lies between the bounds of all pixels in the box. */
  lemma AlphaStaysBetween(img: Image, size: nat, x: nat, y: nat, lo: nat, hi: nat)
    requires img.Valid() && x < size && y < size
    requires BoxAllBetween(img, size, x, y, lo, hi)
    ensures lo <= Target(img, size, x, y, ALPHA) <= hi
  {
    BoxIsInside(x, img.width, size);
    BoxIsInside(y, img.height, size);
    hide BoxSum, Start, End, AlphaBetween;
    var x0, x1 := Start(x, img.width, size), End(x, img.width, size);
    var y0, y1 := Start(y, img.height, size), End(y, img.height, size);
    BoxAlphaBetween(img, x0, x1, y0, y1, lo, hi);
    AverageBetween(BoxSum(img, ALPHA, x0, x1, y0, y1), Area(x0, x1, y0, y1), lo, hi);
  }

  /** It is the average rounded down. For a colour that can be seen the weights are the alphas; for
      alpha itself every pixel of the box counts the same. */
  lemma RoundsDown(img: Image, size: nat, x: nat, y: nat, c: nat)
    requires img.Valid() && x < size && y < size && c < 4 && IsVisible(img, size, x, y)
    ensures var x0, x1 := Start(x, img.width, size), End(x, img.width, size);
            var y0, y1 := Start(y, img.height, size), End(y, img.height, size);
            && x0 < x1 <= img.width && y0 < y1 <= img.height
            && (var sum, value := BoxSum(img, c, x0, x1, y0, y1), Target(img, size, x, y, c);
                var weight := if c == ALPHA then Area(x0, x1, y0, y1) else BoxSum(img, ALPHA, x0, x1, y0, y1);
                value * weight <= sum < (value + 1) * weight)
  {
    BoxIsInside(x, img.width, size);
    BoxIsInside(y, img.height, size);
    hide BoxSum, Start, End, Area;
    var x0, x1 := Start(x, img.width, size), End(x, img.width, size);
    var y0, y1 := Start(y, img.height, size), End(y, img.height, size);
    QuotientBounds(BoxSum(img, c, x0, x1, y0, y1),
                   if c == ALPHA then Area(x0, x1, y0, y1) else BoxSum(img, ALPHA, x0, x1, y0, y1));
  }

  /** Every result fits a channel. */
  lemma TargetFits(img: Image, size: nat, x: nat, y: nat, c: nat)
    requires img.Valid() && x < size && y < size && c < 4
    ensures Target(img, size, x, y, c) < 256
  {
    hide Target, Start, End, BoxSum, Image.At;
    if c == ALPHA {
      AlphaStaysBetween(img, size, x, y, 0, 255);
    } else {
      ColourBetween(img, size, x, y, c, 0, 255);
    }
  }

  predicate Done(out: seq<Channel>, img: Image, size: nat, k: nat)
    requires img.Valid() && size > 0 && k <= size * size && |out| == size * size * 4
  {
    forall j, c :: 0 <= j < k && 0 <= c < 4 ==> out[j * 4 + c] == TargetAt(img, size, j, c)
  }

  /** The target pixels in the order of the buffer. */
  function TargetAt(img: Image, size: nat, j: nat, c: nat): nat
    requires img.Valid() && j < size * size && c < 4
  {
    RowAndColumn(size, j);
    Target(img, size, j % size, j / size, c)
  }

  lemma RowAndColumn(size: nat, j: nat)
    requires j < size * size
    ensures size > 0 && j % size < size && j / size < size
  {
    QuotientBelow(j, size, size);
  }

  lemma Position(size: nat, x: nat, y: nat)
    requires x < size && y < size
    ensures y * size + x < size * size
    ensures (y * size + x) % size == x && (y * size + x) / size == y
  {
    PixelIndex(size, size, x, y);
    assert (y + 1) * size == y * size + size;
    Quotient(y * size + x, size, y);
    QuotientBounds(y * size + x, size);
    assert y * size + x == ((y * size + x) / size) * size + (y * size + x) % size;
  }

  /** `resample`. */
  method Resample(img: Image, size: nat) returns (out: array<Channel>)
    requires img.Valid() && size > 0
    ensures fresh(out) && out.Length == size * size * 4
    ensures img.width == size && img.height == size ==> out[..] == img.rgba
    ensures !(img.width == size && img.height == size) ==> Done(out[..], img, size, size * size)
  {
    hide Target, BoxSum, Start, End, Done, AreBoxSums, IsSumOf;
    if img.width == size && img.height == size {
      out := Copy(img);
      return;
    }
    out := new Channel[size * size * 4](_ => 0);
    NothingDone(out[..], img, size);
    ghost var row := 0;
    for y := 0 to size
      invariant row == y * size <= size * size
      invariant Done(out[..], img, size, row)
      invariant forall i :: row * 4 <= i < out.Length ==> out[i] == 0
    {
      var y0, y1 := BoxOf(y, img.height, size);
      NextRow(size, y);
      for x := 0 to size
        invariant Done(out[..], img, size, row + x)
        invariant forall i :: (row + x) * 4 <= i < out.Length ==> out[i] == 0
      {
        var x0, x1 := BoxOf(x, img.width, size);
        Position(size, x, y);
        var k := y * size + x;
        var sum, count := SumBox(img, x0, x1, y0, y1);
        AreSumsOf(img, size, x, y, sum, count);
        ghost var before := out[..];
        if sum.3 > 0 {
          Averages(img, size, x, y, sum, count);
          WritePixel(out, k, sum.0 / sum.3, sum.1 / sum.3, sum.2 / sum.3, sum.3 / count);
        } else {
          Invisible(img, size, x, y, sum, count);
        }
        OneMore(before, out[..], img, size, x, y, k);
      }
      row := row + size;
    }
  }

  method Copy(img: Image) returns (out: array<Channel>)
    ensures fresh(out) && out[..] == img.rgba
  {
    out := new Channel[|img.rgba|](i requires 0 <= i < |img.rgba| => img.rgba[i]);
  }

  method BoxOf(i: nat, n: nat, size: nat) returns (from: nat, to: nat)
    requires i < size && n > 0
    ensures from == Start(i, n, size) && to == End(i, n, size) && from < to <= n
  {
    BoxIsInside(i, n, size);
    from, to := Start(i, n, size), End(i, n, size);
  }

  method WritePixel(out: array<Channel>, k: nat, r: Channel, g: Channel, b: Channel, alpha: Channel)
    requires k * 4 + 3 < out.Length
    modifies out
    ensures out[k * 4] == r && out[k * 4 + 1] == g && out[k * 4 + 2] == b && out[k * 4 + 3] == alpha
    ensures forall i :: 0 <= i < out.Length && !(k * 4 <= i < k * 4 + 4) ==> out[i] == old(out[i])
  {
    out[k * 4], out[k * 4 + 1], out[k * 4 + 2], out[k * 4 + 3] := r, g, b, alpha;
  }

  lemma NextRow(size: nat, y: nat)
    requires y < size
    ensures (y + 1) * size == y * size + size <= size * size
  {
    Scale(y + 1, size, size);
  }

  lemma AreSumsOf(img: Image, size: nat, x: nat, y: nat, sum: Sums, count: nat)
    requires img.Valid() && x < size && y < size
    requires Start(x, img.width, size) < End(x, img.width, size) <= img.width
    requires Start(y, img.height, size) < End(y, img.height, size) <= img.height
    requires AreBoxSums(sum, img, Start(x, img.width, size), End(x, img.width, size),
                        Start(y, img.height, size), End(y, img.height, size))
    requires count == (End(y, img.height, size) - Start(y, img.height, size))
                    * (End(x, img.width, size) - Start(x, img.width, size))
    ensures IsSumOf(img, size, x, y, sum, count)
  {
    hide Start, End, AreBoxSums;
    var area := Area(Start(x, img.width, size), End(x, img.width, size),
                     Start(y, img.height, size), End(y, img.height, size));
  }

  lemma NothingDone(out: seq<Channel>, img: Image, size: nat)
    requires img.Valid() && size > 0 && |out| == size * size * 4
    ensures Done(out, img, size, 0)
  {
  }

  ghost predicate IsSumOf(img: Image, size: nat, x: nat, y: nat, sum: Sums, count: nat)
    requires img.Valid() && x < size && y < size
  {
    BoxIsInside(x, img.width, size);
    BoxIsInside(y, img.height, size);
    var x0, x1 := Start(x, img.width, size), End(x, img.width, size);
    var y0, y1 := Start(y, img.height, size), End(y, img.height, size);
    AreBoxSums(sum, img, x0, x1, y0, y1) && count == Area(x0, x1, y0, y1) && count > 0
  }

  lemma Averages(img: Image, size: nat, x: nat, y: nat, sum: Sums, count: nat)
    requires img.Valid() && x < size && y < size
    requires IsSumOf(img, size, x, y, sum, count) && sum.3 > 0
    ensures count > 0
    ensures sum.0 / sum.3 == Target(img, size, x, y, 0) < 256
    ensures sum.1 / sum.3 == Target(img, size, x, y, 1) < 256
    ensures sum.2 / sum.3 == Target(img, size, x, y, 2) < 256
    ensures sum.3 / count == Target(img, size, x, y, ALPHA) < 256
  {
    hide BoxSum, Start, End;
    TargetFits(img, size, x, y, 0);
    TargetFits(img, size, x, y, 1);
    TargetFits(img, size, x, y, 2);
    TargetFits(img, size, x, y, ALPHA);
  }

  lemma Invisible(img: Image, size: nat, x: nat, y: nat, sum: Sums, count: nat)
    requires img.Valid() && x < size && y < size
    requires IsSumOf(img, size, x, y, sum, count) && sum.3 == 0
    ensures forall c :: 0 <= c < 4 ==> Target(img, size, x, y, c) == 0
  {
    hide BoxSum, Start, End;
  }

  lemma OneMore(before: seq<Channel>, out: seq<Channel>, img: Image, size: nat, x: nat, y: nat, k: nat)
    requires img.Valid() && x < size && y < size && |before| == |out| == size * size * 4
    requires k == y * size + x < size * size
    requires Done(before, img, size, k)
    requires forall i :: 0 <= i < k * 4 ==> out[i] == before[i]
    requires forall c :: 0 <= c < 4 ==> out[k * 4 + c] == Target(img, size, x, y, c)
    ensures Done(out, img, size, k + 1)
  {
    hide Target;
    Position(size, x, y);
  }

  lemma OwnBox(i: nat, size: nat)
    requires i < size
    ensures Start(i, size, size) == i && End(i, size, size) == i + 1
  {
    Quotient(i * size, size, i);
    BoxesArePoints(i, size, size);
  }

  lemma OwnSum(img: Image, c: nat, x: nat, y: nat)
    requires img.Valid() && img.Inside(x, y) && c < 4
    ensures BoxSum(img, c, x, x + 1, y, y + 1) == Term(img, c, x, y)
  {
    hide Term;
    NoSums(img, x, x + 1, y);
    RowStep(img, y, x, x);
    BoxStep(img, x, x + 1, y, y);
  }

  lemma OwnTarget(img: Image, x: nat, y: nat, c: nat)
    requires img.Valid() && img.width == img.height && img.Inside(x, y) && c < 4
    ensures Target(img, img.width, x, y, c) == if img.At(x, y, ALPHA) > 0 then img.At(x, y, c) else 0
  {
    hide Image.At, BoxSum, Start, End;
    OwnBox(x, img.width);
    OwnBox(y, img.width);
    OwnSum(img, c, x, y);
    OwnSum(img, ALPHA, x, y);
    var value: nat, alpha: nat := img.At(x, y, c), img.At(x, y, ALPHA);
    if alpha > 0 {
      Distribute(alpha, value, 1);
      Quotient(value * alpha, alpha, value);
    }
  }

  /** Leaving an image of the wanted size alone agrees with the filter at a pixel if and only if
      the pixel can be seen or is all zeros. */
  lemma SameSizeAgrees(img: Image, x: nat, y: nat)
    requires img.Valid() && img.width == img.height && img.Inside(x, y)
    ensures (forall c :: 0 <= c < 4 ==> Target(img, img.width, x, y, c) == img.At(x, y, c)) <==>
            (img.At(x, y, ALPHA) > 0 || forall c :: 0 <= c < 4 ==> img.At(x, y, c) == 0)
  {
    hide Image.At, Target;
    OwnTarget(img, x, y, 0);
    OwnTarget(img, x, y, 1);
    OwnTarget(img, x, y, 2);
    OwnTarget(img, x, y, ALPHA);
  }

  // Each pixel counts once

  /** The sums of the first `n` boxes in a row of boxes. */
  function SumAcross(img: Image, c: nat, size: nat, y0: nat, y1: nat, n: nat): nat
    requires img.Valid() && c < 4 && y0 <= y1 <= img.height && n <= size
  {
    if n == 0 then 0
    else
      BoxIsInside(n - 1, img.width, size);
      SumAcross(img, c, size, y0, y1, n - 1)
      + BoxSum(img, c, Start(n - 1, img.width, size), End(n - 1, img.width, size), y0, y1)
  }

  /** The sums of all boxes in the first `n` rows of boxes. */
  function SumOfBoxes(img: Image, c: nat, size: nat, n: nat): nat
    requires img.Valid() && c < 4 && n <= size
  {
    if n == 0 then 0
    else
      BoxIsInside(n - 1, img.height, size);
      SumOfBoxes(img, c, size, n - 1)
      + SumAcross(img, c, size, Start(n - 1, img.height, size), End(n - 1, img.height, size), size)
  }

  lemma {:induction false} RowSplits(img: Image, c: nat, y: nat, x0: nat, x1: nat, x2: nat)
    requires img.Valid() && c < 4 && y < img.height && x0 <= x1 <= x2 <= img.width
    ensures RowSum(img, c, y, x0, x2) == RowSum(img, c, y, x0, x1) + RowSum(img, c, y, x1, x2)
    decreases x2
  {
    if x1 < x2 {
      RowSplits(img, c, y, x0, x1, x2 - 1);
    }
  }

  lemma {:induction false} BoxSplitsAcross(img: Image, c: nat, x0: nat, x1: nat, x2: nat, y0: nat, y1: nat)
    requires img.Valid() && c < 4 && x0 <= x1 <= x2 <= img.width && y0 <= y1 <= img.height
    ensures BoxSum(img, c, x0, x2, y0, y1) == BoxSum(img, c, x0, x1, y0, y1) + BoxSum(img, c, x1, x2, y0, y1)
    decreases y1
  {
    if y0 < y1 {
      BoxSplitsAcross(img, c, x0, x1, x2, y0, y1 - 1);
      RowSplits(img, c, y1 - 1, x0, x1, x2);
    }
  }

  lemma {:induction false} BoxSplitsDown(img: Image, c: nat, x0: nat, x1: nat, y0: nat, y1: nat, y2: nat)
    requires img.Valid() && c < 4 && x0 <= x1 <= img.width && y0 <= y1 <= y2 <= img.height
    ensures BoxSum(img, c, x0, x1, y0, y2) == BoxSum(img, c, x0, x1, y0, y1) + BoxSum(img, c, x0, x1, y1, y2)
    decreases y2
  {
    if y1 < y2 {
      BoxSplitsDown(img, c, x0, x1, y0, y1, y2 - 1);
    }
  }

  lemma {:induction false} AcrossIsWhole(img: Image, c: nat, size: nat, y0: nat, y1: nat, n: nat)
    requires img.Valid() && c < 4 && y0 <= y1 <= img.height && n <= size <= img.width && size > 0
    requires Start(n, img.width, size) <= img.width
    ensures SumAcross(img, c, size, y0, y1, n) == BoxSum(img, c, 0, Start(n, img.width, size), y0, y1)
  {
    hide BoxSum;
    if n == 0 {
      Ends(img.width, size);
      EmptyBox(img, c, y0, y1);
    } else {
      BoxesMeet(n - 1, img.width, size);
      AcrossIsWhole(img, c, size, y0, y1, n - 1);
      BoxSplitsAcross(img, c, 0, Start(n - 1, img.width, size), Start(n, img.width, size), y0, y1);
    }
  }

  lemma {:induction false} EmptyBox(img: Image, c: nat, y0: nat, y1: nat)
    requires img.Valid() && c < 4 && y0 <= y1 <= img.height
    ensures BoxSum(img, c, 0, 0, y0, y1) == 0
  {
    if y0 < y1 {
      EmptyBox(img, c, y0, y1 - 1);
    }
  }

  lemma {:induction false} DownIsWhole(img: Image, c: nat, size: nat, n: nat)
    requires img.Valid() && c < 4 && n <= size && 0 < size <= img.width && size <= img.height
    requires Start(n, img.height, size) <= img.height
    ensures SumOfBoxes(img, c, size, n) == BoxSum(img, c, 0, img.width, 0, Start(n, img.height, size))
  {
    Ends(img.height, size);
    if n > 0 {
      var y0, y1 := Start(n - 1, img.height, size), Start(n, img.height, size);
      BoxesMeet(n - 1, img.height, size);
      DownIsWhole(img, c, size, n - 1);
      Ends(img.width, size);
      AcrossIsWhole(img, c, size, y0, y1, size);
      BoxSplitsDown(img, c, 0, img.width, 0, y0, y1);
    }
  }

  /** When nothing is enlarged, the sums of all boxes together are the sum over the image: each
      pixel is counted exactly once. */
  lemma CoverageIsExact(img: Image, c: nat, size: nat)
    requires img.Valid() && c < 4 && 0 < size <= img.width && size <= img.height
    ensures SumOfBoxes(img, c, size, size) == BoxSum(img, c, 0, img.width, 0, img.height)
  {
    Ends(img.height, size);
    DownIsWhole(img, c, size, size);
  }
}
