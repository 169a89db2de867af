// The bit trick that rounds a size up to a power of two, and the image sizes it is used for.

module Alignment {
  import opened Common

  function Pow2(k: nat): (p: nat)
    ensures p > 0
  {
    if k == 0 then 1 else 2 * Pow2(k - 1)
  }

  /** Bitwise and. */
  function And(x: nat, y: nat): nat {
    if x == 0 || y == 0 then 0
    else 2 * And(x / 2, y / 2) + (if x % 2 == 1 && y % 2 == 1 then 1 else 0)
  }

  /** Bitwise complement in a word of w bits. */
  function Not(w: nat, x: nat): nat
    requires x < Pow2(w)
  {
    Pow2(w) - 1 - x
  }

  function AlignDown(w: nat, p: nat, n: nat): nat
    requires 0 < n <= Pow2(w)
  {
    And(p, Not(w, n - 1))
  }

  function AlignUp(w: nat, p: nat, n: nat): nat
    requires 0 < n <= Pow2(w)
  {
    AlignDown(w, p + n - 1, n)
  }

  lemma {:induction false} Pow2Monotone(k: nat, w: nat)
    requires k <= w
    ensures Pow2(k) <= Pow2(w)
  {
    if k < w {
      Pow2Monotone(k, w - 1);
    }
  }

  lemma {:induction false} AndOnes(w: nat, p: nat)
    requires p < Pow2(w)
    ensures And(p, Pow2(w) - 1) == p
  {
    if p == 0 || w == 0 {
    } else {
      AndOnes(w - 1, p / 2);
      assert (Pow2(w) - 1) / 2 == Pow2(w - 1) - 1;
    }
  }

  lemma MulStep(a: int, b: int, n: nat)
    requires a < b
    ensures a * n + n <= b * n
  {
    assert b * n == a * n + (b - a) * n;
    assert (b - a) * n == (b - a - 1) * n + n;
  }

  lemma DivModUnique(p: nat, d: nat, q: nat, r: nat)
    requires d > 0 && p == q * d + r && r < d
    ensures p / d == q && p % d == r
  {
    assert p == p / d * d + p % d;
    if p / d < q {
      MulStep(p / d, q, d);
    } else if q < p / d {
      MulStep(q, p / d, d);
    }
  }

  lemma ModTwice(p: nat, m: nat)
    requires m > 0
    ensures p % (2 * m) == 2 * (p / 2 % m) + p % 2
  {
    var q := p / 2;
    assert q == q / m * m + q % m;
    assert q / m * (2 * m) == 2 * (q / m * m);
    DivModUnique(p, 2 * m, q / m, 2 * (q % m) + p % 2);
  }

  /** Masking with the complement of 2^k - 1 drops the remainder modulo 2^k. */
  lemma {:induction false} MaskDropsRemainder(w: nat, p: nat, k: nat)
    requires k <= w && p < Pow2(w)
    ensures Pow2(k) <= Pow2(w) && And(p, Pow2(w) - Pow2(k)) == p - p % Pow2(k)
    decreases k
  {
    if k == 0 {
      AndOnes(w, p);
    } else {
      var m := Pow2(k - 1);
      Pow2Monotone(k - 1, w - 1);
      MaskDropsRemainder(w - 1, p / 2, k - 1);
      ModTwice(p, m);
      var y := Pow2(w) - Pow2(k);
      assert y == 2 * (Pow2(w - 1) - m) && y / 2 == Pow2(w - 1) - m && y % 2 == 0;
      if p == 0 || y == 0 {
        assert And(p, y) == 0;
        if p > 0 {
          AndZero(p / 2);
        }
      }
    }
  }

  lemma AndZero(x: nat)
    ensures And(x, 0) == 0
  {
  }

  lemma LeastAbove(q: nat, m: nat, n: nat)
    requires n > 0 && m % n == 0 && q * n < m + n
    ensures q * n <= m
  {
    assert m == m / n * n;
    if m / n < q {
      MulStep(m / n, q, n);
    }
  }

  /** r is a multiple of n from p on, and no smaller one exists. */
  ghost predicate LeastMultiple(p: nat, n: nat, r: nat)
    requires n > 0
  {
    r % n == 0 && p <= r && forall m: nat :: p <= m && m % n == 0 ==> r <= m
  }

  /** Dropping the remainder of p + n - 1 gives the least multiple of n from p on. */
  lemma RoundUp(p: nat, n: nat)
    requires n > 0
    ensures LeastMultiple(p, n, p + n - 1 - (p + n - 1) % n)
  {
    var s := p + n - 1;
    var q := s / n;
    assert s == q * n + s % n;
    DivModUnique(q * n, n, q, 0);
    forall m: nat | p <= m && m % n == 0
      ensures q * n <= m
    {
      LeastAbove(q, m, n);
    }
  }

  /**
   * For every word width, every power of two n in it, and every p that does not overflow, the
   * trick gives the least multiple of n that is at least p.
   */
  lemma AlignUpIsLeastMultiple(w: nat, p: nat, k: nat)
    requires k <= w && p + Pow2(k) - 1 < Pow2(w)
    ensures Pow2(k) <= Pow2(w)
    ensures LeastMultiple(p, Pow2(k), AlignUp(w, p, Pow2(k)))
  {
    AlignUpMasks(w, p, k);
    RoundUp(p, Pow2(k));
  }

  lemma AlignUpMasks(w: nat, p: nat, k: nat)
    requires k <= w && p + Pow2(k) - 1 < Pow2(w)
    ensures Pow2(k) <= Pow2(w)
    ensures AlignUp(w, p, Pow2(k)) == p + Pow2(k) - 1 - (p + Pow2(k) - 1) % Pow2(k)
  {
    MaskDropsRemainder(w, p + Pow2(k) - 1, k);
    AlignUpIsAnd(w, p, Pow2(k));
  }

  lemma AlignUpIsAnd(w: nat, p: nat, n: nat)
    requires 0 < n <= Pow2(w)
    ensures AlignUp(w, p, n) == And(p + n - 1, Pow2(w) - n)
  {
  }

  // ------------------------------------------------------------------------------------
  // Image sizes

  datatype ImageFormat = Yuv420 | Gray | Bgr | Rgb | Ignore

  function ImageTypeSize(f: ImageFormat, width: nat, height: nat): nat {
    match f
    case Yuv420 => width * height + 2 * (width / 2 * height / 2)
    case Gray => width * height
    case Bgr => 3 * width * height
    case Rgb => 3 * width * height
    case Ignore => 0
  }

  /**
   * One byte a pixel in grey, row by row, and three in colour. In YUV 4:2:0 there is one a pixel
   * and two for every four pixels of the even columns: half as many again if both sides are even.
   */
  lemma BytesPerPixel(width: nat, height: nat)
    ensures ImageTypeSize(Gray, width, 0) == 0
    ensures ImageTypeSize(Gray, width, height + 1) == ImageTypeSize(Gray, width, height) + width
    ensures ImageTypeSize(Rgb, width, height) == ImageTypeSize(Bgr, width, height)
         == 3 * ImageTypeSize(Gray, width, height)
    ensures ImageTypeSize(Ignore, width, height) == 0
  {
    assert 3 * width * height == 3 * (width * height);
    assert width * (height + 1) == width * height + width;
  }

  lemma PlanarBytes(width: nat, height: nat)
    ensures ImageTypeSize(Yuv420, width, height)
         == ImageTypeSize(Gray, width, height) + 2 * ((width - width % 2) * height / 4)
  {
    var w := width / 2;
    assert width - width % 2 == 2 * w;
    assert 2 * w * height == 2 * (w * height);
  }

  lemma EvenPlanarBytes(width: nat, height: nat)
    requires width % 2 == 0 && height % 2 == 0
    ensures 2 * ImageTypeSize(Yuv420, width, height) == 3 * ImageTypeSize(Gray, width, height)
  {
    var w, h := width / 2, height / 2;
    assert w * height == 2 * (w * h) by { assert height == 2 * h; }
    assert width * height == 2 * (w * height) by { assert width == 2 * w; }
  }

  lemma SizeMonotone(f: ImageFormat, w: nat, h: nat, w': nat, h': nat)
    requires w <= w' && h <= h'
    ensures ImageTypeSize(f, w, h) <= ImageTypeSize(f, w', h')
  {
    MulMonotone(w, h, w', h');
    MulMonotone(w / 2, h, w' / 2, h');
    assert 3 * w * h == 3 * (w * h) && 3 * w' * h' == 3 * (w' * h');
  }

  /**
   * The video port works with the width rounded up to 32 and the height to 16, so an image of
   * the requested size never needs more bytes than the port's image has.
   */
  lemma RequestedSizeFits(f: ImageFormat, wordBits: nat, width: nat, height: nat)
    requires 5 <= wordBits && width + 31 < Pow2(wordBits) && height + 15 < Pow2(wordBits)
    ensures Pow2(5) == 32 <= Pow2(wordBits)
    ensures ImageTypeSize(f, width, height)
         <= ImageTypeSize(f, AlignUp(wordBits, width, 32), AlignUp(wordBits, height, 16))
  {
    assert Pow2(4) == 16 && Pow2(5) == 32;
    AlignUpIsLeastMultiple(wordBits, width, 5);
    AlignUpIsLeastMultiple(wordBits, height, 4);
    SizeMonotone(f, width, height, AlignUp(wordBits, width, 32), AlignUp(wordBits, height, 16));
  }
}
