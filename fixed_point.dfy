/** Integer primitives of the warp kernel, written as the C++ operators they stand for.
    Integers are unbounded here; the lemma Normalizer.GradientFitsInt32 shows that the
    kernel's intermediate values stay inside 32 bits for every accepted configuration. */
module FixedPoint {

  /** 2 to the power k, the value of `1 << k`. */
  function Pow2(k: nat): (r: nat)
    ensures r >= 1
  {
    if k == 0 then 1 else 2 * Pow2(k - 1)
  }

  /** `x << k` on a signed int: multiplication by 2^k. */
  function Shl(x: int, k: nat): int
  {
    x * Pow2(k)
  }

  /** `x >> k` on a signed int: an arithmetic shift, that is floor division by 2^k
      (Dafny's `/` rounds towards negative infinity for a positive divisor). */
  function Asr(x: int, k: nat): int
  {
    x / Pow2(k)
  }

  /** `x & 127` on a two's complement int: the non-negative residue modulo 128. */
  function Low7(x: int): (r: int)
    ensures 0 <= r < 128
    ensures (x - r) % 128 == 0
  {
    x % 128
  }

  /** `std::clamp(x, lo, hi)`. */
  function Clamp(x: int, lo: int, hi: int): (r: int)
    requires lo <= hi
    ensures lo <= r <= hi
    ensures lo <= x <= hi ==> r == x
    ensures x < lo ==> r == lo
    ensures hi < x ==> r == hi
  {
    if x < lo then lo else if hi < x then hi else x
  }

  function Min(a: int, b: int): int { if a <= b then a else b }
  function Max(a: int, b: int): int { if a <= b then b else a }

  /** One bilinear stage: `(a * (128 - w) + b * w + 64) >> 7`, a weighted mean of a and b
      with weight w / 128 on b, rounded to nearest (its bounds are BlendBounds). */
  function Blend(a: int, b: int, w: int): (r: int)
    requires 0 <= w <= 128
  {
    (a * (128 - w) + b * w + 64) / 128
  }

  lemma ProductBounds(d: int, w: int)
    requires 0 <= d && 0 <= w <= 128
    ensures 0 <= d * w <= d * 128
  {
  }

  /** A blend never leaves the interval spanned by its two inputs; the end weights pick
      one input exactly. */
  lemma {:induction false} BlendBounds(a: int, b: int, w: int)
    requires 0 <= w <= 128
    ensures Min(a, b) <= Blend(a, b, w) <= Max(a, b)
    ensures w == 0 ==> Blend(a, b, w) == a
    ensures w == 128 ==> Blend(a, b, w) == b
  {
    var n := a * (128 - w) + b * w + 64;
    if a <= b {
      assert n == 128 * a + (b - a) * w + 64;
      ProductBounds(b - a, w);
      assert 128 * a <= n < 128 * b + 128;
    } else {
      assert n == 128 * b + (a - b) * (128 - w) + 64;
      ProductBounds(a - b, 128 - w);
      assert 128 * b <= n < 128 * a + 128;
    }
  }

  /** Floor division is monotone in the dividend. */
  lemma {:induction false} AsrMonotone(x: int, y: int, k: nat)
    requires x <= y
    ensures Asr(x, k) <= Asr(y, k)
  {
    var d := Pow2(k);
    var qx, qy := x / d, y / d;
    if qy < qx {
      MulMonotone(d, qy + 1, qx);
      assert false;
    }
  }

  lemma MulMonotone(d: int, a: int, b: int)
    requires 0 <= d && a <= b
    ensures d * a <= d * b
  {
    assert d * b - d * a == d * (b - a);
  }

  /** The values of Pow2 at the shift amounts the kernel uses. */
  lemma Pow2Values()
    ensures Pow2(0) == 1 && Pow2(2) == 4 && Pow2(5) == 32 && Pow2(7) == 128 && Pow2(8) == 256
    ensures Pow2(16) == 65536
  {
  }

  lemma {:induction false} Pow2Add(a: nat, b: nat)
    ensures Pow2(a + b) == Pow2(a) * Pow2(b)
  {
    if a > 0 {
      Pow2Add(a - 1, b);
    }
  }

  /** |x| <= xMax and |y| <= yMax bound |x * y| by xMax * yMax. */
  lemma MulAbsBound(x: int, y: int, xMax: int, yMax: int)
    requires -xMax <= x <= xMax && -yMax <= y <= yMax
    ensures -(xMax * yMax) <= x * y <= xMax * yMax
  {
    if x >= 0 {
      MulMonotone(x, y, yMax);
      MulMonotone(x, -yMax, y);
      MulMonotone(yMax, x, xMax);
    } else {
      MulMonotone(-x, y, yMax);
      MulMonotone(-x, -yMax, y);
      MulMonotone(yMax, -x, xMax);
    }
  }
}
