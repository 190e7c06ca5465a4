/** The HUD-mask distance: a signed mean difference between two grayscale
    images of possibly different sizes. The wider image is the primary grid;
    every primary pixel is compared with the secondary pixel its coordinates
    remap to, and the signed differences (secondary minus primary) are summed
    and divided by the primary area. */
module HudMask {
  import opened GrayImages

  /** The two images of one comparison once the width test has chosen which
      one drives the scan. */
  datatype Oriented = Oriented(primary: GrayImage, secondary: GrayImage)

  predicate ValidPair(o: Oriented) {
    Valid(o.primary) && Valid(o.secondary)
  }

  /** The primary grid is the wider image; on equal widths the first
      argument stays primary. The pair is the two arguments, reordered. */
  function Orient(img1: GrayImage, img2: GrayImage): (o: Oriented)
    ensures o.primary.width >= o.secondary.width
    ensures o == Oriented(img1, img2) || o == Oriented(img2, img1)
    ensures img1.width == img2.width ==> o.primary == img1 && o.secondary == img2
  {
    if img1.width < img2.width then Oriented(img2, img1) else Oriented(img1, img2)
  }

  /** The contribution of primary pixel (x, y): the secondary sample at the
      remapped position minus the primary sample. Signed, not absolute. */
  function Term(o: Oriented, x: nat, y: nat): int
    requires ValidPair(o) && x < o.primary.width && y < o.primary.height
  {
    var p, s := o.primary, o.secondary;
    Pixel(s, Remap(x, p.width, s.width), Remap(y, p.height, s.height)) - Pixel(p, x, y)
  }

  /** Sum of the terms of row y over the columns 0 .. m-1. */
  function RowSum(o: Oriented, y: nat, m: nat): int
    requires ValidPair(o) && y < o.primary.height && m <= o.primary.width
  {
    if m == 0 then 0 else RowSum(o, y, m - 1) + Term(o, m - 1, y)
  }

  /** Sum over the rows 0 .. n-1 of their first m terms: the pixels in buffer
      order, row after row. */
  function RowsSum(o: Oriented, n: nat, m: nat): int
    requires ValidPair(o) && n <= o.primary.height && m <= o.primary.width
  {
    if n == 0 then 0 else RowsSum(o, n - 1, m) + RowSum(o, n - 1, m)
  }

  /** Sum of the terms of column x over the rows 0 .. n-1. */
  function ColumnSum(o: Oriented, x: nat, n: nat): int
    requires ValidPair(o) && x < o.primary.width && n <= o.primary.height
  {
    if n == 0 then 0 else ColumnSum(o, x, n - 1) + Term(o, x, n - 1)
  }

  /** Sum over the columns 0 .. m-1 of their first n terms: the order in
      which the scan visits the pixels, column after column. */
  function ColumnsSum(o: Oriented, m: nat, n: nat): int
    requires ValidPair(o) && m <= o.primary.width && n <= o.primary.height
  {
    if m == 0 then 0 else ColumnsSum(o, m - 1, n) + ColumnSum(o, m - 1, n)
  }

  /** The signed total over every pixel of the primary grid. */
  function SignedSum(o: Oriented): int
    requires ValidPair(o)
  {
    RowsSum(o, o.primary.height, o.primary.width)
  }

  /** The distance from img1 to img2: the signed total divided by the area
      of the primary grid, computed exactly. Every term lies in -255 .. 255,
      so the mean does too: the distance of any two valid images is at most
      255 in magnitude. */
  function Distance(img1: GrayImage, img2: GrayImage): (d: real)
    requires Valid(img1) && Valid(img2)
    ensures -255.0 <= d <= 255.0
  {
    var o := Orient(img1, img2);
    var w, h := o.primary.width, o.primary.height;
    RowsSumBounds(o, h, w);
    MulPositive(w, h);
    AreaBound(w, h);
    MeanBounds(SignedSum(o), w * h);
    SignedSum(o) as real / (w * h) as real
  }

  /** Computes the distance as the scan does it: choose the primary grid by
      width, then walk its columns and, within each column, its rows,
      adding secondary-minus-primary for every pixel. */
  method HudMaskDistanceCalculation(img1: GrayImage, img2: GrayImage) returns (d: real)
    requires Valid(img1) && Valid(img2)
    ensures d == Distance(img1, img2)
  {
    var primary, secondary: GrayImage;
    var w1, h1, w2, h2: nat;
    if img1.width < img2.width {
      primary, secondary := img2, img1;
      w1, h1 := img2.width, img2.height;
      w2, h2 := img1.width, img1.height;
    } else {
      primary, secondary := img1, img2;
      w1, h1 := img1.width, img1.height;
      w2, h2 := img2.width, img2.height;
    }
    ghost var o := Oriented(primary, secondary);
    assert o == Orient(img1, img2);

    // visited counts the pixels added so far; it only bounds the running sum
    ghost var visited := 0;
    var distance := 0;
    for x := 0 to w1
      invariant distance == ColumnsSum(o, x, h1)
      invariant visited == x * h1
      invariant -255 * visited <= distance <= 255 * visited
    {
      var xImg2 := Remap(x, w1, w2);
      for y := 0 to h1
        invariant distance == ColumnsSum(o, x, h1) + ColumnSum(o, x, y)
        invariant visited == x * h1 + y
        invariant -255 * visited <= distance <= 255 * visited
      {
        var yImg2 := Remap(y, h1, h2);
        distance := distance + (Pixel(secondary, xImg2, yImg2) - Pixel(primary, x, y));
        visited := visited + 1;
      }
      assert (x + 1) * h1 == x * h1 + h1;
    }
    SumOrderIrrelevant(o, w1, h1);
    d := distance as real / (w1 * h1) as real;
  }

  /** Adding one more column to every row adds that column's sum. */
  lemma {:induction false} RowsSumExtend(o: Oriented, n: nat, m: nat)
    requires ValidPair(o) && n <= o.primary.height && m < o.primary.width
    ensures RowsSum(o, n, m + 1) == RowsSum(o, n, m) + ColumnSum(o, m, n)
  {
    if n > 0 {
      RowsSumExtend(o, n - 1, m);
    }
  }

  lemma {:induction false} RowsSumEmpty(o: Oriented, n: nat)
    requires ValidPair(o) && n <= o.primary.height
    ensures RowsSum(o, n, 0) == 0
  {
    if n > 0 {
      RowsSumEmpty(o, n - 1);
    }
  }

  /** The total does not depend on the order the pixels are visited in:
      column after column (the scan) equals row after row (buffer order). */
  lemma {:induction false} SumOrderIrrelevant(o: Oriented, m: nat, n: nat)
    requires ValidPair(o) && m <= o.primary.width && n <= o.primary.height
    ensures ColumnsSum(o, m, n) == RowsSum(o, n, m)
  {
    if m == 0 {
      RowsSumEmpty(o, n);
    } else {
      SumOrderIrrelevant(o, m - 1, n);
      RowsSumExtend(o, n, m - 1);
    }
  }

  /** Two images of the same size are compared pixel by pixel at the same
      position: the remap is the identity on both axes. */
  lemma SameSizeComparesSamePositions(img1: GrayImage, img2: GrayImage, x: nat, y: nat)
    requires Valid(img1) && Valid(img2)
    requires img1.width == img2.width && img1.height == img2.height
    requires x < img1.width && y < img1.height
    ensures Term(Orient(img1, img2), x, y) == Pixel(img2, x, y) - Pixel(img1, x, y)
  {
  }

  lemma {:induction false} RowSumNegated(o1: Oriented, o2: Oriented, y: nat, m: nat)
    requires ValidPair(o1) && ValidPair(o2)
    requires o1.primary.width == o2.primary.width && o1.primary.height == o2.primary.height
    requires y < o1.primary.height && m <= o1.primary.width
    requires forall x :: 0 <= x < m ==> Term(o1, x, y) == -Term(o2, x, y)
    ensures RowSum(o1, y, m) == -RowSum(o2, y, m)
  {
    if m > 0 {
      RowSumNegated(o1, o2, y, m - 1);
    }
  }

  lemma {:induction false} RowsSumNegated(o1: Oriented, o2: Oriented, n: nat, m: nat)
    requires ValidPair(o1) && ValidPair(o2)
    requires o1.primary.width == o2.primary.width && o1.primary.height == o2.primary.height
    requires n <= o1.primary.height && m <= o1.primary.width
    requires forall x, y :: 0 <= x < m && 0 <= y < n ==> Term(o1, x, y) == -Term(o2, x, y)
    ensures RowsSum(o1, n, m) == -RowsSum(o2, n, m)
  {
    if n > 0 {
      RowsSumNegated(o1, o2, n - 1, m);
      RowSumNegated(o1, o2, n - 1, m);
    }
  }

  /** For two images of the same size the first argument is always primary,
      so swapping the arguments flips the sign of the distance: the metric
      is not symmetric. */
  lemma SameSizeAntisymmetric(img1: GrayImage, img2: GrayImage)
    requires Valid(img1) && Valid(img2)
    requires img1.width == img2.width && img1.height == img2.height
    ensures Distance(img1, img2) == -Distance(img2, img1)
  {
    var o1, o2 := Orient(img1, img2), Orient(img2, img1);
    forall x, y | 0 <= x < img1.width && 0 <= y < img1.height
      ensures Term(o1, x, y) == -Term(o2, x, y)
    {
      SameSizeComparesSamePositions(img1, img2, x, y);
      SameSizeComparesSamePositions(img2, img1, x, y);
    }
    RowsSumNegated(o1, o2, img1.height, img1.width);
    assert SignedSum(o1) == -SignedSum(o2);
    assert o1.primary == img1 && o2.primary == img2;
    MulPositive(img1.width, img1.height);
    NegatedMean(SignedSum(o2), img1.width * img1.height);
  }

  lemma NegatedMean(total: int, area: int)
    requires 0 < area
    ensures (-total) as real / area as real == -(total as real / area as real)
  {
    var t, a := total as real, area as real;
    assert (t / a) * a == t;
    assert ((-t) / a) * a == -t;
    assert ((-t) / a + t / a) * a == 0.0;
  }

  /** An image is at distance exactly zero from itself. */
  lemma IdenticalImagesAtDistanceZero(img: GrayImage)
    requires Valid(img)
    ensures Distance(img, img) == 0.0
  {
    SameSizeAntisymmetric(img, img);
  }

  /** When the widths differ, the wider image is primary whichever argument
      it is, so the argument order does not matter. */
  lemma UnequalWidthsOrderFree(img1: GrayImage, img2: GrayImage)
    requires Valid(img1) && Valid(img2) && img1.width != img2.width
    ensures Distance(img1, img2) == Distance(img2, img1)
  {
  }

  lemma {:induction false} RowSumBounds(o: Oriented, y: nat, m: nat)
    requires ValidPair(o) && y < o.primary.height && m <= o.primary.width
    ensures -255 * m <= RowSum(o, y, m) <= 255 * m
  {
    if m > 0 {
      RowSumBounds(o, y, m - 1);
    }
  }

  lemma {:induction false} RowsSumBounds(o: Oriented, n: nat, m: nat)
    requires ValidPair(o) && n <= o.primary.height && m <= o.primary.width
    ensures -(255 * m) * n <= RowsSum(o, n, m) <= (255 * m) * n
  {
    if n > 0 {
      RowsSumBounds(o, n - 1, m);
      RowSumBounds(o, n - 1, m);
      BoundStep(RowsSum(o, n - 1, m), RowSum(o, n - 1, m), m, n);
    }
  }

  lemma BoundStep(rows: int, row: int, m: nat, n: nat)
    requires 0 < n
    requires -(255 * m) * (n - 1) <= rows <= (255 * m) * (n - 1)
    requires -255 * m <= row <= 255 * m
    ensures -(255 * m) * n <= rows + row <= (255 * m) * n
  {
    var k := 255 * m;
    assert k * n == k * (n - 1) + k;
  }

  /** A total bounded by 255 per pixel has a mean within -255 .. 255. */
  lemma MeanBounds(total: int, area: int)
    requires 0 < area && -255 * area <= total <= 255 * area
    ensures -255.0 <= total as real / area as real <= 255.0
  {
    var t, a := total as real, area as real;
    var d := t / a;
    assert d * a == t;
    assert (d - 255.0) * a <= 0.0;
    assert (d + 255.0) * a >= 0.0;
  }

  lemma AreaBound(w: nat, h: nat)
    ensures (255 * w) * h == 255 * (w * h)
  {
  }

  /** Uniform image of the given size. */
  function Uniform(w: nat, h: nat, v: Sample): (img: GrayImage)
    requires 0 < w && 0 < h
    ensures Valid(img)
  {
    GrayImage(w, h, seq(w * h, _ => v))
  }

  lemma {:induction false} RowSumConstant(o: Oriented, y: nat, m: nat, c: int)
    requires ValidPair(o) && y < o.primary.height && m <= o.primary.width
    requires forall x :: 0 <= x < m ==> Term(o, x, y) == c
    ensures RowSum(o, y, m) == c * m
  {
    if m > 0 {
      RowSumConstant(o, y, m - 1, c);
      assert c * m == c * (m - 1) + c;
    }
  }

  lemma {:induction false} RowsSumConstant(o: Oriented, n: nat, m: nat, c: int)
    requires ValidPair(o) && n <= o.primary.height && m <= o.primary.width
    requires forall x, y :: 0 <= x < m && 0 <= y < n ==> Term(o, x, y) == c
    ensures RowsSum(o, n, m) == (c * m) * n
  {
    if n > 0 {
      RowsSumConstant(o, n - 1, m, c);
      RowSumConstant(o, n - 1, m, c);
      assert (c * m) * n == (c * m) * (n - 1) + c * m;
    }
  }

  lemma MeanOfConstant(c: int, w: nat, h: nat)
    requires 0 < w && 0 < h
    ensures ((c * w) * h) as real / (w * h) as real == c as real
  {
    assert (c * w) * h == c * (w * h);
    MulPositive(w, h);
    var a := (w * h) as real;
    assert (c * (w * h)) as real == c as real * a;
  }

  /** Two uniform images of the same size are at distance exactly the
      second value minus the first. */
  lemma UniformDistance(w: nat, h: nat, v1: Sample, v2: Sample)
    requires 0 < w && 0 < h
    ensures Distance(Uniform(w, h, v1), Uniform(w, h, v2)) == (v2 - v1) as real
  {
    var img1, img2 := Uniform(w, h, v1), Uniform(w, h, v2);
    var o := Orient(img1, img2);
    forall x, y | 0 <= x < w && 0 <= y < h
      ensures Term(o, x, y) == v2 - v1
    {
      SameSizeComparesSamePositions(img1, img2, x, y);
      IndexInBounds(x, y, w, h);
    }
    RowsSumConstant(o, h, w, v2 - v1);
    MeanOfConstant(v2 - v1, w, h);
  }

  /** A 2x2 query of 10s against a 2x2 candidate of 50s is at distance 40
      (secondary minus primary), and the reverse comparison at -40. */
  lemma TensAgainstFifties()
    ensures Distance(Uniform(2, 2, 10), Uniform(2, 2, 50)) == 40.0
    ensures Distance(Uniform(2, 2, 50), Uniform(2, 2, 10)) == -40.0
  {
    UniformDistance(2, 2, 10, 50);
    UniformDistance(2, 2, 50, 10);
  }

  /** Differences of opposite sign cancel: two images that differ at every
      pixel can still be at distance zero. */
  lemma OppositeDifferencesCancel()
    ensures GrayImage(2, 1, [0, 10]) != GrayImage(2, 1, [10, 0])
    ensures Distance(GrayImage(2, 1, [0, 10]), GrayImage(2, 1, [10, 0])) == 0.0
  {
    var a, b := GrayImage(2, 1, [0, 10]), GrayImage(2, 1, [10, 0]);
    var o := Orient(a, b);
    assert Term(o, 0, 0) == 10 by {
      SameSizeComparesSamePositions(a, b, 0, 0);
      assert Pixel(b, 0, 0) == 10 && Pixel(a, 0, 0) == 0;
    }
    assert Term(o, 1, 0) == -10 by {
      SameSizeComparesSamePositions(a, b, 1, 0);
      assert Pixel(b, 1, 0) == 0 && Pixel(a, 1, 0) == 10;
    }
    assert RowSum(o, 0, 2) == 0;
    assert SignedSum(o) == RowsSum(o, 1, 2) == 0;
    MeanOfTotal(a, b, 0);
  }

  /** With equal widths but different heights the metric is neither
      symmetric nor antisymmetric: a 1x1 image of 0 against a 1x2 image of
      0 and 100 is at distance 0, since the 1x1 first argument stays primary
      and its one pixel meets the 0; the reverse comparison scans both rows
      of the taller image, both meeting the 0, and averages -100 over two
      pixels. */
  lemma EqualWidthsNeitherSymmetricNorAntisymmetric()
    ensures Distance(GrayImage(1, 1, [0]), GrayImage(1, 2, [0, 100])) == 0.0
    ensures Distance(GrayImage(1, 2, [0, 100]), GrayImage(1, 1, [0])) == -50.0
  {
    ShorterFirstDistance();
    TallerFirstDistance();
  }

  lemma ShorterFirstDistance()
    ensures Distance(GrayImage(1, 1, [0]), GrayImage(1, 2, [0, 100])) == 0.0
  {
    var a, b := GrayImage(1, 1, [0]), GrayImage(1, 2, [0, 100]);
    var o := Orient(a, b);
    assert o == Oriented(a, b);
    RemapOrigin(1, 2);
    PixelInFirstColumn(a, 0);
    PixelInFirstColumn(b, 0);
    TermAt(o, 0, 0, 0, 0);
    assert SignedSum(o) == RowsSum(o, 1, 1) == RowSum(o, 0, 1) == 0;
    MeanOfTotal(a, b, 0);
  }

  lemma TallerFirstDistance()
    ensures Distance(GrayImage(1, 2, [0, 100]), GrayImage(1, 1, [0])) == -50.0
  {
    var a, b := GrayImage(1, 1, [0]), GrayImage(1, 2, [0, 100]);
    var o := Orient(b, a);
    assert o == Oriented(b, a);
    PixelInFirstColumn(a, 0);
    PixelInFirstColumn(b, 0);
    PixelInFirstColumn(b, 1);
    TermAt(o, 0, 0, 0, 0);
    TermAt(o, 0, 1, 0, 0);
    assert RowsSum(o, 1, 1) == RowSum(o, 0, 1) == 0;
    assert RowSum(o, 1, 1) == -100;
    assert SignedSum(o) == RowsSum(o, 2, 1) == -100;
    MeanOfTotal(b, a, -100);
  }

  /** Coordinate 0 remaps to coordinate 0. */
  lemma RemapOrigin(src: nat, tgt: nat)
    requires 0 < src && 0 < tgt
    ensures Remap(0, src, tgt) == 0
  {
  }

  /** In a one-column image, row y holds sample y. */
  lemma PixelInFirstColumn(img: GrayImage, y: nat)
    requires Valid(img) && img.width == 1 && y < img.height
    ensures Pixel(img, 0, y) == img.samples[y]
  {
  }

  /** Unfolds one term once the remapped position (xs, ys) is known. */
  lemma TermAt(o: Oriented, x: nat, y: nat, xs: nat, ys: nat)
    requires ValidPair(o) && x < o.primary.width && y < o.primary.height
    requires xs == Remap(x, o.primary.width, o.secondary.width)
    requires ys == Remap(y, o.primary.height, o.secondary.height)
    ensures Term(o, x, y) == Pixel(o.secondary, xs, ys) - Pixel(o.primary, x, y)
  {
  }

  /** Unfolds the distance once its signed total is known. */
  lemma MeanOfTotal(img1: GrayImage, img2: GrayImage, total: int)
    requires Valid(img1) && Valid(img2) && SignedSum(Orient(img1, img2)) == total
    ensures Distance(img1, img2) == total as real / (Orient(img1, img2).primary.width * Orient(img1, img2).primary.height) as real
  {
  }
}
