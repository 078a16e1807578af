/** Decimation in the frequency domain (soxr-sys/src/cr.c, lines 163-170, and rdft.h, lines 18-28):
    only the lower part of the product of two spectra is formed and transformed back.  What this
    loses, and when it loses nothing. */
module Decimation {
  import opened Arith
  import opened Complexes
  import opened BitReversal
  import opened FftView
  import opened FftTheorem
  import opened FftReal
  import opened FftTables
  import opened FftSpectrum
  import opened FftRealSpectrum
  import opened FftInverse
  import opened Fft
  import opened Convolution

  // ---- the lower part of a packed spectrum ----

  /** Coefficients below p of a packed spectrum, with the real part of coefficient p packed in. */
  function Lower(y: seq<Complex>, p: nat): (z: seq<Complex>)
    requires 0 < p < |y|
    ensures |z| == p
  {
    y[..p][0 := Complex(y[0].re, y[p].re)]
  }

  /** What the short backward transform lacks of the long one: the coefficients above p, the one
      at half the length, and half of coefficient p. */
  ghost function Lost(y: seq<Complex>, eta: Complex, k: nat, p: nat, i: nat): real
    requires 0 < p < |y|
  {
    0.5 * (Weigh(y[p].re, Alternating(i)) + y[0].im) + RealSum(|y| - 1 - p, Shifted(InverseTerms(y, eta, k), p))
  }

  lemma LowerAt(y: seq<Complex>, p: nat, j: nat)
    requires 0 < p < |y| && j < p
    ensures |Lower(y, p)| == p && At(Lower(y, p), j) == if j == 0 then Complex(y[0].re, y[p].re) else At(y, j)
    ensures Lower(y, p)[0] == Complex(y[0].re, y[p].re)
  {
  }

  /** The powers of the two roots. */
  lemma NestedPower(eta: Complex, step: nat, t: nat, i: nat)
    ensures Pow(eta, Times(t, step * i)) == Pow(Pow(eta, step), Times(t, i))
  {
    hide *;
    PowMul(eta, step, Times(t, i));
    TimesNested(t, step, i);
  }

  lemma TimesNested(t: nat, step: nat, i: nat)
    ensures Times(t, step * i) == step * Times(t, i)
  {
    MulAssoc3(t, step, i);
  }

  lemma LowerTerm(y: seq<Complex>, eta: Complex, step: nat, p: nat, i: nat, j: nat)
    requires 0 < p < |y| && 1 + j < p
    ensures InverseTerms(y, eta, step * i)(j) == InverseTerms(Lower(y, p), Pow(eta, step), i)(j)
  {
    hide *;
    InverseTermsAt(y, eta, step * i, j);
    InverseTermsAt(Lower(y, p), Pow(eta, step), i, j);
    NestedPower(eta, step, 1 + j, i);
    LowerAt(y, p, 1 + j);
  }

  /** Coefficient p turns half a circle with every output. */
  lemma EdgeTerm(y: seq<Complex>, eta: Complex, step: nat, p: nat, i: nat)
    requires 0 < p < |y| && |y| == p * step && Pow(eta, |y|) == Neg(ONE)
    ensures InverseTerms(y, eta, step * i)(p - 1) == Weigh(y[p].re, Alternating(i))
  {
    hide *;
    InverseTermsAt(y, eta, step * i, p - 1);
    assert 1 + (p - 1) == p;
    EdgePower(eta, p, step, i);
    AtIs(y, p);
    TurnedByUnit(y[p]);
    AlternatingIs(i);
  }

  lemma EdgePower(eta: Complex, p: nat, step: nat, i: nat)
    requires Pow(eta, p * step) == Neg(ONE)
    ensures Pow(eta, Times(p, step * i)) == if i % 2 == 0 then ONE else Neg(ONE)
  {
    hide *;
    PowMul(eta, p * step, i);
    EdgeTimes(p, step, i);
    NegPower(i);
  }

  lemma EdgeTimes(p: nat, step: nat, i: nat)
    ensures Times(p, step * i) == p * step * i
  {
    MulAssoc3(p, step, i);
  }

  lemma EvenProduct(step: nat, i: nat)
    requires step % 2 == 0
    ensures Alternating(step * i) == 1.0
  {
    var h := WholeQuotient(2, step);
    MulAssoc3(2, h, i);
    ProductIsMultiple(2, h * i);
  }

  /** The short backward transform is every step-th value of the long one, less what it lost. */
  lemma LowerLoses(y: seq<Complex>, eta: Complex, step: nat, p: nat, i: nat)
    requires 0 < p < |y| && |y| == p * step && step % 2 == 0 && Pow(eta, |y|) == Neg(ONE)
    ensures |Lower(y, p)| == p
    ensures InverseReal(y, eta, step * i) ==
            InverseReal(Lower(y, p), Pow(eta, step), i) + Lost(y, eta, step * i, p, i)
  {
    hide *;
    var t, z := InverseTerms(y, eta, step * i), Lower(y, p);
    LowerAt(y, p, 0);
    SumSplit(p, |y| - 1 - p, t);
    assert p + (|y| - 1 - p) == |y| - 1;
    RealSumLast(p, t);
    EdgeTerm(y, eta, step, p, i);
    forall j: nat | j < p - 1 ensures t(j) == InverseTerms(z, Pow(eta, step), i)(j) {
      LowerTerm(y, eta, step, p, i, j);
    }
    RealSumCongruence(p - 1, t, InverseTerms(z, Pow(eta, step), i));
    EvenProduct(step, i);
    InverseRealIs(y, eta, step * i);
    InverseRealIs(z, Pow(eta, step), i);
    WeighOne(y[0].im);
    LostIs(y, eta, step * i, p, i);
  }

  lemma RealSumLast(n: nat, f: nat -> real)
    requires n > 0
    ensures RealSum(n, f) == RealSum(n - 1, f) + f(n - 1)
  {
  }

  lemma WeighOne(a: real)
    ensures Weigh(a, 1.0) == a
  {
  }

  lemma LostIs(y: seq<Complex>, eta: Complex, k: nat, p: nat, i: nat)
    requires 0 < p < |y|
    ensures 2.0 * Lost(y, eta, k, p, i) == Weigh(y[p].re, Alternating(i)) + y[0].im
                + 2.0 * RealSum(|y| - 1 - p, Shifted(InverseTerms(y, eta, k), p))
  {
    hide Weigh, Alternating, RealSum, Shifted, InverseTerms;
  }

  // ---- when nothing is lost ----

  /** The packed spectrum v vanishes from coefficient p up. */
  ghost predicate Clear(v: seq<Complex>, p: nat)
    requires 0 < p < |v|
  {
    v[0].im == 0.0 && forall b: nat | p <= b < |v| :: v[b] == ZERO
  }

  lemma ClearProduct(u: seq<Complex>, v: seq<Complex>, p: nat)
    requires |u| == |v| && 0 < p < |v| && Clear(v, p)
    ensures Clear(Product(u, v), p)
  {
    ProductAt(u, v, 0);
    forall b: nat | p <= b < |v| ensures Product(u, v)[b] == ZERO {
      ProductAt(u, v, b);
      MulZero(u[b]);
    }
    hide Product;
  }

  lemma NothingLost(y: seq<Complex>, eta: Complex, k: nat, p: nat, i: nat)
    requires 0 < p < |y| && Clear(y, p)
    ensures Lost(y, eta, k, p, i) == 0.0
  {
    hide *;
    var f := Shifted(InverseTerms(y, eta, k), p);
    ClearAt(y, p, p);
    forall j: nat | j < |y| - 1 - p ensures f(j) == 0.0 {
      ClearTerm(y, eta, k, p, j);
    }
    SumOfZeros(|y| - 1 - p, f);
    LostIs(y, eta, k, p, i);
    WeighZero(Alternating(i));
  }

  lemma ClearAt(y: seq<Complex>, p: nat, b: nat)
    requires 0 < p < |y| && Clear(y, p) && p <= b < |y|
    ensures y[b] == ZERO && y[0].im == 0.0
  {
  }

  lemma ClearTerm(y: seq<Complex>, eta: Complex, k: nat, p: nat, j: nat)
    requires 0 < p < |y| && Clear(y, p) && j < |y| - 1 - p
    ensures Shifted(InverseTerms(y, eta, k), p)(j) == 0.0
  {
    hide *;
    ShiftedAt(InverseTerms(y, eta, k), p, j);
    InverseTermsAt(y, eta, k, p + j);
    ClearAt(y, p, 1 + (p + j));
    AtIs(y, 1 + (p + j));
    TurnedZero(Pow(eta, Times(1 + (p + j), k)));
  }

  lemma TurnedZero(e: Complex)
    ensures Turned(ZERO, e) == 0.0
  {
  }

  lemma WeighZero(a: real)
    ensures Weigh(0.0, a) == 0.0 && ZERO.re == 0.0
  {
  }

  lemma {:induction false} SumOfZeros(n: nat, f: nat -> real)
    requires forall j: nat | j < n :: f(j) == 0.0
    ensures RealSum(n, f) == 0.0
  {
    if n > 0 {
      SumOfZeros(n - 1, f);
    }
  }

  /** The first value loses the sum of the real parts. */
  lemma LostFirst(y: seq<Complex>, eta: Complex, p: nat)
    requires 0 < p < |y|
    ensures 2.0 * Lost(y, eta, 0, p, 0) == y[p].re + y[0].im + 2.0 * RealSum(|y| - 1 - p, RealPartsFrom(y, p + 1))
  {
    hide *;
    LostIs(y, eta, 0, p, 0);
    AlternatingIs(0);
    WeighOne(y[p].re);
    forall j: nat | j < |y| - 1 - p ensures Shifted(InverseTerms(y, eta, 0), p)(j) == RealPartsFrom(y, p + 1)(j) {
      FirstTermFrom(y, eta, p, j);
    }
    RealSumCongruence(|y| - 1 - p, Shifted(InverseTerms(y, eta, 0), p), RealPartsFrom(y, p + 1));
  }

  ghost function RealPartsFrom(y: seq<Complex>, b: nat): nat -> real {
    (j: nat) => At(y, b + j).re
  }

  lemma RealPartsFromAt(y: seq<Complex>, b: nat, j: nat)
    ensures RealPartsFrom(y, b)(j) == At(y, b + j).re
  {
  }

  lemma FirstTermFrom(y: seq<Complex>, eta: Complex, p: nat, j: nat)
    ensures Shifted(InverseTerms(y, eta, 0), p)(j) == RealPartsFrom(y, p + 1)(j)
  {
    hide *;
    ShiftedAt(InverseTerms(y, eta, 0), p, j);
    InverseTermsAt(y, eta, 0, p + j);
    RealPartsFromAt(y, p + 1, j);
    TimesZero(1 + (p + j));
    PowZero(eta);
    TurnedByUnit(At(y, 1 + (p + j)));
    assert 1 + (p + j) == p + 1 + j;
  }

  // ---- a block that shows what is lost ----

  /** A spectrum that has coefficient b only; b == 0 stands for the one packed beside it. */
  function Single(n: nat, b: nat, c: Complex): (z: seq<Complex>)
    requires b < n
    ensures |z| == n
  {
    seq(n, i requires 0 <= i < n => if i == b then c else ZERO)
  }

  /** The answer to the conjugate of what is not clear. */
  function Witness(v: seq<Complex>, b: nat): (z: seq<Complex>)
    requires b < |v|
    ensures |z| == |v|
  {
    Single(|v|, b, if b == 0 then Complex(0.0, v[0].im) else Conj(v[b]))
  }

  lemma SquarePositive(c: Complex)
    requires c != ZERO
    ensures Mul(Conj(c), c).re > 0.0
    ensures c.re == 0.0 ==> c.im * c.im > 0.0
  {
    if c.re != 0.0 {
      assert c.re * c.re > 0.0;
    }
    if c.im != 0.0 {
      assert c.im * c.im > 0.0;
    }
    assert c.re * c.re >= 0.0 && c.im * c.im >= 0.0;
  }

  lemma WitnessProduct(v: seq<Complex>, b: nat)
    requires b < |v| && (if b == 0 then v[0].im != 0.0 else v[b] != ZERO)
    ensures var y := Product(Witness(v, b), v);
            && |y| == |v|
            && (forall i: nat | i < |v| && i != b :: y[i] == ZERO)
            && (b == 0 ==> y[0].im > 0.0) && (b > 0 ==> y[b].re > 0.0)
  {
    var u, y := Witness(v, b), Product(Witness(v, b), v);
    forall i: nat | i < |v| && i != b ensures y[i] == ZERO {
      WitnessEntry(u[i], v[i]);
      ProductAt(u, v, i);
    }
    ProductAt(u, v, b);
    if b == 0 {
      SquarePositive(Complex(0.0, v[0].im));
    } else {
      SquarePositive(v[b]);
    }
    hide Product, Mul;
  }

  lemma WitnessEntry(a: Complex, c: Complex)
    ensures a == ZERO ==> Mul(a, c) == ZERO && Complex(a.re * c.re, a.im * c.im) == ZERO
  {
    MulZero(c);
    hide Mul;
  }

  lemma {:induction false} SumOfOne(n: nat, f: nat -> real, k: nat)
    requires forall j: nat | j < n && j != k :: f(j) == 0.0
    ensures RealSum(n, f) == if k < n then f(k) else 0.0
  {
    if k >= n || k == n - 1 {
      SumOfZeros(if k >= n then n else n - 1, f);
    } else {
      SumOfOne(n - 1, f, k);
    }
  }

  /** Its first value is lost in part. */
  lemma WitnessLoses(v: seq<Complex>, eta: Complex, p: nat, b: nat)
    requires 0 < p < |v| && (b == 0 || p <= b < |v|) && (if b == 0 then v[0].im != 0.0 else v[b] != ZERO)
    ensures |Product(Witness(v, b), v)| == |v| && Lost(Product(Witness(v, b), v), eta, 0, p, 0) > 0.0
  {
    var y := Product(Witness(v, b), v);
    WitnessProduct(v, b);
    hide *;
    LostFirst(y, eta, p);
    TailSum(y, p, b);
    ZeroParts();
  }

  /** The coefficients above p of a spectrum that has coefficient b only. */
  lemma TailSum(y: seq<Complex>, p: nat, b: nat)
    requires p < |y| && (forall i: nat | i < |y| && i != b :: y[i] == ZERO) && b < |y|
    ensures RealSum(|y| - 1 - p, RealPartsFrom(y, p + 1)) == if b > p then y[b].re else 0.0
  {
    hide *;
    var f, n := RealPartsFrom(y, p + 1), |y| - 1 - p;
    forall j: nat | j < n && p + 1 + j != b ensures f(j) == 0.0 {
      TailTerm(y, p, b, j);
    }
    if b > p {
      var k := b - (p + 1);
      forall j: nat | j < n && j != k ensures f(j) == 0.0 {
        TailTerm(y, p, b, j);
      }
      RealPartsFromAt(y, p + 1, k);
      AtIs(y, b);
      SumOfOne(n, f, k);
    } else {
      SumOfZeros(n, f);
    }
  }

  lemma TailTerm(y: seq<Complex>, p: nat, b: nat, j: nat)
    requires j < |y| - 1 - p && p < |y| && p + 1 + j != b && (forall i: nat | i < |y| && i != b :: y[i] == ZERO)
    ensures RealPartsFrom(y, p + 1)(j) == 0.0
  {
    hide *;
    RealPartsFromAt(y, p + 1, j);
    AtIs(y, p + 1 + j);
    ZeroParts();
  }

  lemma ZeroParts()
    ensures ZERO.re == 0.0 && ZERO.im == 0.0
  {
  }

  /** For this block of data the first values of the short backward transform are the kept ones of
      the long one. */
  ghost predicate Exact(x: seq<real>, v: seq<Complex>, eta: Complex, step: nat, p: nat, count: nat)
    requires |v| == |x| / 2 && 0 < p < |v|
  {
    var y := Product(HalfSpectrum(x, eta), v);
    forall i: nat | i < count :: InverseReal(Lower(y, p), Pow(eta, step), i) == InverseReal(y, eta, step * i)
  }

  lemma ExactWhenClear(x: seq<real>, v: seq<Complex>, eta: Complex, step: nat, p: nat, count: nat)
    requires |v| == |x| / 2 && 0 < p < |v| && |v| == p * step && step % 2 == 0 && Pow(eta, |v|) == Neg(ONE)
    requires Clear(v, p)
    ensures Exact(x, v, eta, step, p, count)
  {
    var u := HalfSpectrum(x, eta);
    hide *;
    HalfLength(x, eta);
    var y := Product(u, v);
    ClearProduct(u, v, p);
    ProductLength(u, v);
    forall i: nat | i < count
      ensures InverseReal(Lower(y, p), Pow(eta, step), i) == InverseReal(y, eta, step * i)
    {
      LowerLoses(y, eta, step, p, i);
      NothingLost(y, eta, step * i, p, i);
    }
    ExactIs(x, v, eta, step, p, count);
  }

  lemma ProductLength(u: seq<Complex>, v: seq<Complex>)
    requires |u| == |v|
    ensures |Product(u, v)| == |v|
  {
  }

  lemma ExactIs(x: seq<real>, v: seq<Complex>, eta: Complex, step: nat, p: nat, count: nat)
    requires |v| == |x| / 2 && 0 < p < |v|
    ensures |HalfSpectrum(x, eta)| == |v|
    ensures Exact(x, v, eta, step, p, count) <==> forall i: nat | i < count ::
              InverseReal(Lower(Product(HalfSpectrum(x, eta), v), p), Pow(eta, step), i) ==
              InverseReal(Product(HalfSpectrum(x, eta), v), eta, step * i)
  {
    hide InverseReal, Product, HalfSpectrum, Lower, Pow;
  }

  /** The data whose first value shows it. */
  lemma InexactBlock(v: seq<Complex>, turn: nat -> Complex, q: nat, step: nat, p: nat, b: nat) returns (x: seq<real>)
    requires IsTurn(turn) && |v| == Pow2(q) && |v| == p * step && step % 2 == 0 && 0 < p < |v|
    requires (b == 0 || p <= b < |v|) && (if b == 0 then v[0].im != 0.0 else v[b] != ZERO)
    ensures |x| == 2 * |v| && HalfSpectrum(x, turn(2 * |v|)) == Witness(v, b)
    ensures |Product(Witness(v, b), v)| == |v|
    ensures InverseReal(Lower(Product(Witness(v, b), v), p), Pow(turn(2 * |v|), step), 0) !=
            InverseReal(Product(Witness(v, b), v), turn(2 * |v|), step * 0)
  {
    hide *;
    WitnessLength(v, b);
    Pow2Two(q + 1);
    TurnRoot(turn, q + 1);
    RootPowers(turn(2 * |v|), q + 1);
    x := SpectrumOnto(turn, Witness(v, b), q);
    var y := Product(Witness(v, b), v);
    WitnessLoses(v, turn(2 * |v|), p, b);
    assert step * 0 == 0;
    LowerLoses(y, turn(2 * |v|), step, p, 0);
  }

  lemma WitnessLength(v: seq<Complex>, b: nat)
    requires b < |v|
    ensures |Witness(v, b)| == |v|
  {
  }

  /** The first count values of the short backward transform, however many, are the kept ones of
      the long one for every block of data just when the filter's spectrum vanishes from
      coefficient p up. */
  lemma ExactIffClear(v: seq<Complex>, turn: nat -> Complex, q: nat, step: nat, p: nat, count: nat)
    requires IsTurn(turn) && |v| == Pow2(q) && |v| == p * step && step % 2 == 0 && 0 < p < |v| && count > 0
    ensures (forall x: seq<real> | |x| == 2 * |v| :: Exact(x, v, turn(2 * |v|), step, p, count)) <==> Clear(v, p)
  {
    hide Pow2, IsTurn, Exact, HalfSpectrum, Product, InverseReal, Lower, Pow, Root;
    Pow2Two(q + 1);
    TurnRoot(turn, q + 1);
    RootPowers(turn(2 * |v|), q + 1);
    if Clear(v, p) {
      forall x: seq<real> | |x| == 2 * |v| ensures Exact(x, v, turn(2 * |v|), step, p, count) {
        ExactWhenClear(x, v, turn(2 * |v|), step, p, count);
      }
    } else {
      var b: nat :| (b == 0 || p <= b < |v|) && (if b == 0 then v[0].im != 0.0 else v[b] != ZERO);
      var x := InexactBlock(v, turn, q, step, p, b);
      ExactIs(x, v, turn(2 * |v|), step, p, count);
    }
  }

  /** The long backward transform of the product is the circular filter, times half the length. */
  lemma LongIsCircular(x: seq<real>, g: seq<real>, eta: Complex, q: nat, n: nat)
    requires |x| == |g| == 2 * Pow2(q) && Root(eta, q + 1) && n < |x|
    ensures |Product(HalfSpectrum(x, eta), HalfSpectrum(g, eta))| > 0 && |Circular(x, g)| == |x|
    ensures InverseReal(Product(HalfSpectrum(x, eta), HalfSpectrum(g, eta)), eta, n) ==
            Pow2(q) as real * Circular(x, g)[n]
  {
    hide *;
    ProductIsMultiple(2, Pow2(q));
    CircularLength(x, g);
    ProductOfSpectra(x, g, eta, q);
    InverseIsSum(Circular(x, g), eta, q, n);
    HalfLength(Circular(x, g), eta);
  }

  lemma CircularLength(x: seq<real>, g: seq<real>)
    requires |x| > 0
    ensures |Circular(x, g)| == |x|
  {
  }

  // ---- in place ----

  /** Coefficient 0 and those from 1 to p - 1 are multiplied; the packed part is not. */
  ghost predicate PartUpTo(s: seq<Complex>, u: seq<Complex>, v: seq<Complex>, p: nat) {
    && |s| == |u| == |v| && |u| > 0 && s[0].re == u[0].re * v[0].re
    && forall i: nat | 0 < i < |u| :: s[i] == if i < p then Product(u, v)[i] else u[i]
  }

  lemma PartStart(u: seq<Complex>, v: seq<Complex>)
    requires |u| == |v| && |u| > 0
    ensures PartUpTo(u[0 := Complex(u[0].re * v[0].re, u[0].im)], u, v, 1)
  {
    hide Product;
  }

  lemma PartStep(s: seq<Complex>, u: seq<Complex>, v: seq<Complex>, p: nat)
    requires PartUpTo(s, u, v, p) && 0 < p < |u|
    ensures PartUpTo(s[p := Mul(s[p], v[p])], u, v, p + 1)
  {
    ProductAt(u, v, p);
    hide Product, Mul;
  }

  lemma PartEnd(s: seq<Complex>, u: seq<Complex>, v: seq<Complex>, p: nat)
    requires PartUpTo(s, u, v, p) && 0 < p < |u|
    ensures |Product(u, v)| == |s|
    ensures s[0 := Complex(s[0].re, Mul(u[p], v[p]).re)][..p] == Lower(Product(u, v), p)
  {
    ProductAt(u, v, 0);
    ProductAt(u, v, p);
    hide Product, Mul;
  }

  /** ORDERED_PARTIAL_CONVOLVE (rdft.h, lines 18-28): the first n cells become the lower part of the
      product of the size cells. */
  method OrderedPartialConvolve(n: nat, a: array<real>, b: array<real>, ghost size: nat)
    requires n % 2 == 0 && size % 2 == 0 && 0 < n < size <= a.Length && size <= b.Length && a != b
    modifies a
    ensures 0 < n / 2 < size / 2
    ensures Head(a, n) == Lower(Product(old(Head(a, size)), Head(b, size)), n / 2)
    ensures a[size..] == old(a[size..])
  {
    hide *;
    ghost var u, v := Head(a, size), Head(b, size);
    HeadIs(a, size);
    HeadIs(b, size);
    FirstCell(a, b, size);
    var i := 2;
    ghost var p := 1;
    while i < n
      invariant i == 2 * p && 1 <= p && i <= n
      invariant PartUpTo(Head(a, size), u, v, p)
      invariant a[size..] == old(a[size..])
    {
      PartCell(size, a, b, i, p, u);
      i := i + 2;
      p := p + 1;
    }
    EdgeCell(n, a, b, size, u, p);
  }

  /** Line 21. */
  method FirstCell(a: array<real>, b: array<real>, ghost size: nat)
    requires size % 2 == 0 && 0 < size <= a.Length && size <= b.Length && a != b
    modifies a
    ensures PartUpTo(Head(a, size), old(Head(a, size)), Head(b, size), 1)
    ensures a[size..] == old(a[size..])
  {
    hide *;
    ghost var u, v := Head(a, size), Head(b, size);
    HeadIs(a, size);
    HeadIs(b, size);
    HeadAt(a, size, 0);
    HeadAt(b, size, 0);
    PartStart(u, v);
    PlainProduct(u[0], v[0], a[0], a[1], b[0], b[1]);
    var re, im := a[0] * b[0], a[1];
    assert Complex(re, im) == Complex(u[0].re * v[0].re, u[0].im);
    SetPair(a, 0, re, im, size);
  }

  lemma PlainProduct(u: Complex, v: Complex, ar: real, ai: real, br: real, bi: real)
    requires u == Complex(ar, ai) && v == Complex(br, bi)
    ensures Complex(u.re * v.re, u.im) == Complex(ar * br, ai)
  {
  }

  method PartCell(ghost n: nat, a: array<real>, b: array<real>, i: nat, ghost p: nat, ghost u: seq<Complex>)
    requires n % 2 == 0 && n <= a.Length && n <= b.Length && a != b && i == 2 * p && 0 < i < n
    requires PartUpTo(Head(a, n), u, Head(b, n), p) && |u| == n / 2
    modifies a
    ensures PartUpTo(Head(a, n), u, Head(b, n), p + 1)
    ensures a[n..] == old(a[n..])
  {
    hide *;
    HeadAt(a, n, i);
    HeadAt(b, n, i);
    PartStep(Head(a, n), u, Head(b, n), p);
    MulCells(a[i], a[i + 1], b[i], b[i + 1]);
    var tmp := a[i];
    var re, im := b[i] * tmp - b[i + 1] * a[i + 1], b[i + 1] * tmp + b[i] * a[i + 1];
    assert Complex(re, im) == Mul(Head(a, n)[p], Head(b, n)[p]);
    SetPair(a, i, re, im, n);
  }

  /** Line 27. */
  method EdgeCell(n: nat, a: array<real>, b: array<real>, ghost size: nat, ghost u: seq<Complex>, ghost p: nat)
    requires n % 2 == 0 && size % 2 == 0 && n == 2 * p && 0 < n < size <= a.Length && size <= b.Length && a != b
    requires PartUpTo(Head(a, size), u, Head(b, size), p) && |u| == size / 2
    modifies a
    ensures 0 < n / 2 < |u| == |Head(b, size)|
    ensures Head(a, n) == Lower(Product(u, Head(b, size)), n / 2)
    ensures a[size..] == old(a[size..])
  {
    UntouchedAt(Head(a, size), u, Head(b, size), p);
    hide *;
    HeadIs(a, size);
    HeadIs(b, size);
    HeadAt(a, size, 0);
    HeadAt(a, size, n);
    HeadAt(b, size, n);
    ghost var s, v := Head(a, size), Head(b, size);
    MulCells(a[n], a[n + 1], b[n], b[n + 1]);
    PartEnd(s, u, v, p);
    var re, im := a[0], b[n] * a[n] - b[n + 1] * a[n + 1];
    assert im == Mul(u[p], v[p]).re;
    SetPair(a, 0, re, im, size);
    HeadPart(a, n, size);
  }

  lemma UntouchedAt(s: seq<Complex>, u: seq<Complex>, v: seq<Complex>, p: nat)
    requires PartUpTo(s, u, v, p) && 0 < p < |u|
    ensures s[p] == u[p]
  {
  }

  lemma HeadPart(a: array<real>, n: nat, size: nat)
    requires n % 2 == 0 && size % 2 == 0 && n <= size <= a.Length
    ensures n / 2 <= size / 2 && Head(a, n) == Head(a, size)[..n / 2]
  {
    assert a[..n] == a[..size][..n];
  }
}
