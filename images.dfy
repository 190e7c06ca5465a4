/** Single-channel 8-bit images as the distance scan sees them, and the two
    coordinate helpers it relies on: the proportional remap of a coordinate
    from one grid extent onto another, and the row-major buffer offset. */
module GrayImages {

  /** One unsigned 8-bit intensity sample. */
  type Sample = b: int | 0 <= b < 256

  /** A grayscale image stored packed and row-major: pixel (x, y) is
      samples[y * width + x]. */
  datatype GrayImage = GrayImage(width: nat, height: nat, samples: seq<Sample>)

  /** The buffer holds exactly width * height samples and the image is not
      empty: the only images the distance scan is ever handed. */
  predicate Valid(img: GrayImage) {
    img.width > 0 && img.height > 0 && |img.samples| == img.width * img.height
  }

  /** Proportional remap of coordinate c of an axis of extent src onto an
      axis of extent tgt: c * tgt / src, truncated. The result is always a
      coordinate of the target axis, and equal extents map every coordinate
      to itself. */
  function Remap(c: nat, src: nat, tgt: nat): (r: nat)
    requires c < src && 0 < tgt
    ensures r < tgt
    ensures src == tgt ==> r == c
  {
    RemapBelowTarget(c, src, tgt);
    DivisionCancels(c, src);
    c * tgt / src
  }

  lemma RemapBelowTarget(c: nat, src: nat, tgt: nat)
    requires c < src && 0 < tgt
    ensures 0 <= c * tgt / src < tgt
  {
    var a := c * tgt;
    MulNonNegative(c, tgt);
    assert src * tgt - a == (src - c) * tgt;
    MulPositive(src - c, tgt);
    var q := a / src;
    assert q * src <= a;
    assert (tgt - q) * src == tgt * src - q * src;
    PositiveFactor(tgt - q, src);
  }

  lemma DivisionCancels(c: nat, n: nat)
    requires 0 < n
    ensures c * n / n == c
  {
    var q, m := c * n / n, c * n % n;
    assert c * n == q * n + m && 0 <= m < n;
    assert (c - q) * n == m;
    assert (c - q - 1) * n == m - n;
    assert (c - q + 1) * n == m + n;
    PositiveFactor(c - q + 1, n);
    NonPositiveFactor(c - q - 1, n);
  }

  lemma MulNonNegative(a: nat, b: nat)
    ensures 0 <= a * b
  {
  }

  lemma MulPositive(a: int, b: int)
    requires 0 < a && 0 < b
    ensures 0 < a * b
  {
  }

  /** A product with a positive factor is positive only if the other factor is. */
  lemma PositiveFactor(a: int, b: int)
    requires 0 < b && 0 < a * b
    ensures 0 < a
  {
  }

  lemma NonPositiveFactor(a: int, b: int)
    requires 0 < b && a * b < 0
    ensures a < 0
  {
  }

  /** Offset of pixel (x, y) in a packed row-major buffer of row width w.
      For a pixel inside the row, the offset decodes back to the pixel:
      its quotient by w is the row and its remainder the column. */
  function Index(x: nat, y: nat, w: nat): (r: nat)
    ensures x < w ==> r / w == y && r % w == x
  {
    IndexDecodes(x, y, w);
    y * w + x
  }

  lemma IndexDecodes(x: nat, y: nat, w: nat)
    ensures x < w ==> (y * w + x) / w == y && (y * w + x) % w == x
  {
    if x < w {
      var a := y * w + x;
      var q, m := a / w, a % w;
      assert a == q * w + m && 0 <= m < w;
      assert (y - q) * w == m - x;
      assert (y - q + 1) * w == m - x + w;
      assert (y - q - 1) * w == m - x - w;
      PositiveFactor(y - q + 1, w);
      NonPositiveFactor(y - q - 1, w);
    }
  }

  /** Every pixel of a w-by-h grid has its offset inside the w*h buffer. */
  lemma IndexInBounds(x: nat, y: nat, w: nat, h: nat)
    requires x < w && y < h
    ensures Index(x, y, w) < w * h
  {
    assert w * h - y * w - w == (h - y - 1) * w;
    MulNonNegative(h - y - 1, w);
  }

  /** The sample at pixel (x, y). */
  function Pixel(img: GrayImage, x: nat, y: nat): Sample
    requires Valid(img) && x < img.width && y < img.height
  {
    IndexInBounds(x, y, img.width, img.height);
    img.samples[Index(x, y, img.width)]
  }
}
