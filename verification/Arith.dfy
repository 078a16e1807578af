/** The few facts of non-linear arithmetic that proofs about indices and sums need. */
module Arith {

  lemma MulLe(k: int, a: int, b: int)
    requires 0 <= k && a <= b
    ensures k * a <= k * b
  {
  }

  lemma MulDistrib(k: int, a: int, b: int)
    ensures k * (a + b) == k * a + k * b
    ensures k * (a - b) == k * a - k * b
  {
  }

  lemma MulDistribRight(k: int, a: int, b: int)
    ensures (a + b) * k == a * k + b * k
  {
  }

  lemma MulAssoc3(a: int, b: int, c: int)
    ensures a * (b * c) == (a * b) * c
    ensures a * (b * c) == b * (a * c)
  {
  }

  /** Mixed-radix digits stay below the product of the radices. */
  lemma DigitsBound(b: nat, s: nat, r: nat, h: nat)
    requires r < b && h < s
    ensures r + b * h < b * s
  {
    MulLe(b, h, s - 1);
    MulDistrib(b, s, 1);
  }

  /** Mixed-radix digits are unique. */
  lemma DigitsUnique(b: int, r: int, h: int, r': int, h': int)
    requires 0 <= r < b && 0 <= r' < b && r + b * h == r' + b * h'
    ensures r == r' && h == h'
  {
    MulDistrib(b, h', h);
    MulDistrib(b, h, h');
    if h < h' {
      MulLe(b, 1, h' - h);
    } else if h' < h {
      MulLe(b, 1, h - h');
    }
  }

  /** Quotient and remainder of a mixed-radix number. */
  lemma DigitsDivMod(b: int, r: int, h: int)
    requires 0 <= r < b
    ensures (r + b * h) / b == h && (r + b * h) % b == r
  {
    var x := r + b * h;
    DigitsUnique(b, r, h, x % b, x / b);
  }

  /** The quotient of a number below a product is below the other factor. */
  lemma QuotientBound(b: nat, s: nat, x: nat)
    requires 0 < b && x < b * s
    ensures x / b < s
  {
    if x / b >= s {
      MulLe(b, s, x / b);
    }
  }

  /** A multiple of b as a product. */
  lemma WholeQuotient(b: nat, s: nat) returns (p: nat)
    requires b > 0 && s % b == 0
    ensures s == b * p
  {
    p := s / b;
  }

  lemma ProductIsMultiple(b: nat, p: nat)
    requires b > 0
    ensures b * p % b == 0 && b * p / b == p
  {
    DigitsDivMod(b, 0, p);
  }

  lemma MultipleApart(b: nat, s: nat, t: nat)
    requires b > 0 && t <= s && s % b == 0 && t % b == 0
    ensures (s - t) % b == 0
  {
    var p := WholeQuotient(b, s);
    var q := WholeQuotient(b, t);
    MulDistrib(b, p, q);
    if p >= q {
      ProductIsMultiple(b, p - q);
    } else {
      MulLe(b, p, q);
    }
  }

  /** A product of two samples; by name, so that proofs can hide it. */
  function Weigh(a: real, b: real): real {
    a * b
  }

  lemma RealMulLe(a: real, b: real, c: real)
    requires a <= b && c >= 0.0
    ensures a * c <= b * c
  {
    assert (b - a) * c >= 0.0;
  }

  lemma PositiveProduct(a: real, b: real)
    requires a > 0.0 && b > 0.0
    ensures a * b > 0.0
  {
  }

  lemma MulDistribReal(a: real, b: real, c: real)
    ensures (a + b) * c == a * c + b * c
  {
  }

  lemma ScaleIff(a: real, b: real, s: real)
    requires s > 0.0
    ensures a <= b <==> a * s <= b * s
  {
    if a <= b {
      RealMulLe(a, b, s);
    } else {
      RealMulLe(b, a, s);
      assert (a - b) * s > 0.0 by { PositiveProduct(a - b, s); }
      MulDistribReal(a - b, b, s);
    }
  }

  function Abs(x: real): real {
    if x < 0.0 then -x else x
  }
}
