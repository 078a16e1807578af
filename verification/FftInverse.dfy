/** The backward transforms of fft4g.c as sums (fft4g.c, lines 32-38 and 75-84, the second case of
    each): the conjugate root in the complex transform, cosines and sines in the real one. */
module FftInverse {
  import opened Arith
  import opened Complexes
  import opened BitReversal
  import opened FftView
  import opened FftTheorem
  import opened FftReal
  import opened FftTables
  import opened FftSpectrum
  import opened FftRealSpectrum

  // ---- the complex transform with the conjugate root ----

  /** Conjugating before and after the transform is transforming with exp(-2 pi i/n). */
  lemma ConjugateRoot(x: seq<Complex>, w: Complex)
    ensures ConjAll(Spectrum(ConjAll(x), w)) == Spectrum(x, Conj(w))
  {
    hide Dft, Conj;
    forall k: nat | k < |x| ensures ConjAll(Spectrum(ConjAll(x), w))[k] == Spectrum(x, Conj(w))[k] {
      ConjugateCoefficient(x, w, k);
    }
  }

  lemma ConjugateCoefficient(x: seq<Complex>, w: Complex, k: nat)
    ensures Conj(Dft(ConjAll(x), w, k)) == Dft(x, Conj(w), k)
  {
    hide *;
    DftIs(ConjAll(x), w, k);
    DftIs(x, Conj(w), k);
    ConjLength(x);
    forall t: nat | t < |x| ensures DftTerms(x, Conj(w), k)(t) == Conj(DftTerms(ConjAll(x), w, k)(t)) {
      DftTermsAt(x, Conj(w), k, t);
      DftTermsAt(ConjAll(x), w, k, t);
      ConjAt(x, t);
      ConjLaws(At(ConjAll(x), t), Pow(w, Times(t, k)));
      PowConj(w, Times(t, k));
    }
    SumConj(|x|, DftTerms(ConjAll(x), w, k), DftTerms(x, Conj(w), k));
  }

  lemma ConjLength(x: seq<Complex>)
    ensures |ConjAll(x)| == |x|
  {
  }

  lemma ConjAt(x: seq<Complex>, t: nat)
    ensures Conj(At(ConjAll(x), t)) == At(x, t)
  {
  }

  // ---- the whole spectrum of real data from its packed half ----

  /** Coefficient b of real data with the packed half-spectrum z. */
  function Full(z: seq<Complex>, b: nat): Complex {
    if b == 0 then Real(At(z, 0).re)
    else if b == |z| then Real(At(z, 0).im)
    else if b < |z| then At(z, b)
    else if b < 2 * |z| then Conj(At(z, 2 * |z| - b))
    else ZERO
  }

  lemma TimesAdd(j: nat, a: nat, b: nat)
    ensures Times(j, a + b) == Times(j, a) + Times(j, b)
    ensures Times(a + b, j) == Times(a, j) + Times(b, j)
  {
    MulDistrib(j, a, b);
    MulDistribRight(j, a, b);
  }

  lemma TurnsAway(w: Complex, n: nat, j: nat)
    requires Pow(w, n) == ONE
    ensures Pow(w, Times(j, n)) == ONE
  {
    hide *;
    PowTimes(w, n, j);
    PowOfOne(j);
  }

  lemma OppositePower(w: Complex, a: nat, b: nat)
    requires Unit(w) && Pow(w, a + b) == ONE
    ensures Pow(w, b) == Conj(Pow(w, a))
  {
    hide *;
    PowAdd(w, a, b);
    PowUnit(w, a);
    UnitConj(Pow(w, a));
    MulAssoc(Conj(Pow(w, a)), Pow(w, a), Pow(w, b));
    MulComm(Conj(Pow(w, a)), Pow(w, a));
    MulOne(Pow(w, b));
    MulOne(Conj(Pow(w, a)));
  }

  /** Real data have a Hermitian spectrum. */
  lemma Symmetric(x: seq<real>, w: Complex, a: nat, b: nat)
    requires Unit(w) && Pow(w, |x|) == ONE && a + b == |x|
    ensures RealDft(x, w, b) == Conj(RealDft(x, w, a))
  {
    hide *;
    var n := |x|;
    forall j: nat | j < n ensures RealTerms(x, w, b)(j) == Conj(RealTerms(x, w, a)(j)) {
      RealTermsAt(x, w, a, j);
      RealTermsAt(x, w, b, j);
      TimesAdd(j, a, b);
      TurnsAway(w, n, j);
      OppositePower(w, Times(j, a), Times(j, b));
      ConjLaws(Real(Cell(x, j)), Pow(w, Times(j, a)));
      ConjReal(Cell(x, j));
    }
    SumConj(n, RealTerms(x, w, a), RealTerms(x, w, b));
    RealDftIs(x, w, a);
    RealDftIs(x, w, b);
  }

  lemma ConjReal(r: real)
    ensures Conj(Real(r)) == Real(r)
  {
  }

  lemma RealWhenFlat(z: Complex)
    requires z.im == 0.0
    ensures z == Real(z.re)
  {
  }

  /** Coefficients 0 and n/2 of real data are real. */
  lemma {:induction false} RealEnds(n: nat, f: nat -> Complex)
    requires forall j: nat | j < n :: f(j).im == 0.0
    ensures Sum(n, f).im == 0.0
  {
    if n > 0 {
      RealEnds(n - 1, f);
    }
  }

  lemma EndIsReal(x: seq<real>, eta: Complex, k: nat)
    requires Pow(eta, k) == ONE || Pow(eta, k) == Neg(ONE)
    ensures RealDft(x, eta, k).im == 0.0
  {
    hide *;
    RealDftIs(x, eta, k);
    forall j: nat | j < |x| ensures RealTerms(x, eta, k)(j).im == 0.0 {
      RealTermsAt(x, eta, k, j);
      PowTimes(eta, k, j);
      PowOfOne(j);
      NegPower(j);
      RealTimesUnit(Cell(x, j));
    }
    RealEnds(|x|, RealTerms(x, eta, k));
  }

  lemma RealTimesUnit(a: real)
    ensures Mul(Real(a), ONE).im == 0.0 && Mul(Real(a), Neg(ONE)).im == 0.0
  {
    MulOne(Real(a));
    UnitProducts(Real(a));
    MulComm(Real(a), Neg(ONE));
    hide Mul;
  }

  lemma HalfSpectrumAt(x: seq<real>, eta: Complex, p: nat)
    requires p < |x| / 2
    ensures p == 0 ==> HalfSpectrum(x, eta)[0] == Complex(RealDft(x, eta, 0).re, RealDft(x, eta, |x| / 2).re)
    ensures p > 0 ==> HalfSpectrum(x, eta)[p] == RealDft(x, eta, p)
  {
    hide RealDft;
  }

  /** The packed half determines the whole spectrum. */
  lemma FullIsSpectrum(x: seq<real>, w: Complex, q: nat, b: nat)
    requires |x| == 2 * Pow2(q) && Root(w, q + 1) && b < |x|
    ensures Full(HalfSpectrum(x, w), b) == RealDft(x, w, b)
  {
    Pow2Two(q + 1);
    RootPowers(w, q + 1);
    assert Unit(w);
    FullCases(HalfSpectrum(x, w), b);
    hide *;
    var p := if b <= |x| / 2 then b else |x| - b;
    if p == 0 || p == |x| / 2 {
      PowZero(w);
      EndIsReal(x, w, p);
      RealWhenFlat(RealDft(x, w, p));
      HalfSpectrumAt(x, w, 0);
    } else {
      HalfSpectrumAt(x, w, p);
      Symmetric(x, w, p, |x| - p);
    }
  }

  lemma FullCases(z: seq<Complex>, b: nat)
    requires |z| > 0
    ensures b == 0 ==> Full(z, b) == Real(z[0].re)
    ensures b == |z| ==> Full(z, b) == Real(z[0].im)
    ensures 0 < b < |z| ==> Full(z, b) == z[b]
    ensures |z| < b < 2 * |z| ==> Full(z, b) == Conj(z[2 * |z| - b])
  {
  }

  // ---- the inverse real transform ----

  /** R[j]*cos(2 pi j k/n) + I[j]*sin(2 pi j k/n) for the j+1 that follows j. */
  ghost function InverseTerms(z: seq<Complex>, eta: Complex, k: nat): nat -> real {
    (j: nat) => Turned(At(z, 1 + j), Pow(eta, Times(1 + j, k)))
  }

  function Turned(c: Complex, e: Complex): real {
    Weigh(c.re, e.re) + Weigh(c.im, e.im)
  }

  /** cos(pi k). */
  function Alternating(k: nat): real {
    if k % 2 == 0 then 1.0 else -1.0
  }

  /** a[k] in the documentation of the inverse real transform, z being the packed spectrum. */
  ghost function InverseReal(z: seq<Complex>, eta: Complex, k: nat): real
    requires |z| > 0
  {
    0.5 * (z[0].re + Weigh(z[0].im, Alternating(k))) + RealSum(|z| - 1, InverseTerms(z, eta, k))
  }

  ghost function Shifted(f: nat -> real, m: nat): nat -> real {
    (i: nat) => f(m + i)
  }

  lemma {:induction false} SumSplit(m: nat, n: nat, f: nat -> real)
    ensures RealSum(m + n, f) == RealSum(m, f) + RealSum(n, Shifted(f, m))
  {
    if n > 0 {
      SumSplit(m, n - 1, f);
    }
  }

  lemma {:induction false} SumBackwards(n: nat, f: nat -> real, g: nat -> real)
    requires forall i: nat | i < n :: g(i) == f(n - 1 - i)
    ensures RealSum(n, g) == RealSum(n, f)
  {
    if n > 0 {
      SumSplit(1, n - 1, f);
      assert RealSum(1, f) == RealSum(0, f) + f(0);
      SumBackwards(n - 1, Shifted(f, 1), g);
    }
  }

  /** A sum around the circle of terms that are the same on both sides. */
  lemma FoldedCircle(n: nat, f: nat -> real)
    requires n > 0 && forall j: nat | 0 < j < n :: f(2 * n - j) == f(j)
    ensures RealSum(2 * n, f) == f(0) + f(n) + 2.0 * RealSum(n - 1, Shifted(f, 1))
  {
    hide *;
    var up, down := Shifted(f, 1), Shifted(Shifted(f, n), 1);
    SumSplit(n, n, f);
    assert n + n == 2 * n;
    SumHead(n, f);
    SumHead(n, Shifted(f, n));
    ShiftedAt(f, n, 0);
    forall i: nat | i < n - 1 ensures down(i) == up(n - 1 - 1 - i) {
      assert f(2 * n - (n - 1 - i)) == f(n - 1 - i);
      Opposite(f, n, i);
    }
    SumBackwards(n - 1, up, down);
  }

  lemma SumHead(n: nat, f: nat -> real)
    requires n > 0
    ensures RealSum(n, f) == f(0) + RealSum(n - 1, Shifted(f, 1))
  {
    hide *;
    SumSplit(1, n - 1, f);
    FirstOnly(f);
  }

  lemma Opposite(f: nat -> real, n: nat, i: nat)
    requires i + 1 < n && f(2 * n - (n - 1 - i)) == f(n - 1 - i)
    ensures Shifted(Shifted(f, n), 1)(i) == Shifted(f, 1)(n - 1 - 1 - i)
  {
    hide *;
    ShiftedAt(Shifted(f, n), 1, i);
    ShiftedAt(f, n, 1 + i);
    ShiftedAt(f, 1, n - 1 - 1 - i);
    assert n + (1 + i) == 2 * n - (n - 1 - i) && 1 + (n - 1 - 1 - i) == n - 1 - i;
  }

  lemma FirstOnly(f: nat -> real)
    ensures RealSum(1, f) == f(0)
  {
    assert RealSum(0, f) == 0.0;
  }

  ghost function RealParts(f: nat -> Complex): nat -> real {
    (j: nat) => f(j).re
  }

  lemma RealPartsAt(f: nat -> Complex, j: nat)
    ensures RealParts(f)(j) == f(j).re
  {
  }

  lemma {:induction false} RealPartOfSum(n: nat, f: nat -> Complex)
    ensures Sum(n, f).re == RealSum(n, RealParts(f))
  {
    if n > 0 {
      RealPartOfSum(n - 1, f);
    }
  }

  /** The data as complex numbers. */
  function Embedded(x: seq<real>): (z: seq<Complex>)
    ensures |z| == |x|
  {
    seq(|x|, j requires 0 <= j < |x| => Real(x[j]))
  }

  lemma EmbeddedAt(x: seq<real>, j: nat)
    requires j < |x|
    ensures At(Embedded(x), j) == Real(Cell(x, j)) == Real(x[j]) && Embedded(x)[j] == Real(x[j])
  {
  }

  lemma EmbeddedDft(x: seq<real>, eta: Complex, k: nat)
    ensures Dft(Embedded(x), eta, k) == RealDft(x, eta, k)
  {
    hide *;
    DftIs(Embedded(x), eta, k);
    RealDftIs(x, eta, k);
    EmbeddedLength(x);
    forall j: nat | j < |x| ensures DftTerms(Embedded(x), eta, k)(j) == RealTerms(x, eta, k)(j) {
      DftTermsAt(Embedded(x), eta, k, j);
      RealTermsAt(x, eta, k, j);
      EmbeddedAt(x, j);
    }
    SumCongruence(|x|, DftTerms(Embedded(x), eta, k), RealTerms(x, eta, k));
  }

  lemma EmbeddedLength(x: seq<real>)
    ensures |Embedded(x)| == |x|
  {
  }

  /** The terms whose sum is the datum k, times the length. */
  ghost function BackTerms(x: seq<real>, eta: Complex, k: nat): nat -> Complex {
    DftTerms(ConjAll(Spectrum(Embedded(x), eta)), eta, k)
  }

  lemma BackTermsAt(x: seq<real>, eta: Complex, k: nat, j: nat)
    requires j < |x|
    ensures BackTerms(x, eta, k)(j) == Mul(Conj(RealDft(x, eta, j)), Pow(eta, Times(j, k)))
  {
    hide *;
    EmbeddedLength(x);
    SpectrumAt(Embedded(x), eta, j);
    EmbeddedDft(x, eta, j);
    BackTermsIs(x, eta, k);
    DftTermsAt(ConjAll(Spectrum(Embedded(x), eta)), eta, k, j);
  }

  lemma BackTermsIs(x: seq<real>, eta: Complex, k: nat)
    ensures BackTerms(x, eta, k) == DftTerms(ConjAll(Spectrum(Embedded(x), eta)), eta, k)
  {
    hide DftTerms, Spectrum, Embedded;
  }

  lemma TurnedIs(c: Complex, e: Complex)
    ensures Mul(Conj(c), e).re == Turned(c, e)
    ensures Turned(Conj(c), Conj(e)) == Turned(c, e)
  {
  }

  /** Every datum, times the length, is the sum of the terms' real parts. */
  lemma DatumIsSum(x: seq<real>, eta: Complex, q: nat, k: nat)
    requires |x| == Pow2(q) && Root(eta, q) && k < |x|
    ensures |x| as real * x[k] == RealSum(|x|, RealParts(BackTerms(x, eta, k)))
  {
    hide *;
    var z := ConjAll(Spectrum(Embedded(x), eta));
    EmbeddedLength(x);
    InverseEntry(Embedded(x), eta, q, k);
    EmbeddedAt(x, k);
    DftIs(z, eta, k);
    SpectrumAt(Embedded(x), eta, k);
    BackTermsIs(x, eta, k);
    RealPartOfSum(|x|, BackTerms(x, eta, k));
    ScaledParts(|x| as real, x[k], Dft(z, eta, k));
  }

  lemma ScaledParts(r: real, a: real, c: Complex)
    requires Conj(c) == Scale(r, Real(a))
    ensures c.re == r * a
  {
  }

  /** Terms n+j and n-j are conjugates of each other. */
  lemma BackTermsFold(x: seq<real>, eta: Complex, n: nat, k: nat, j: nat)
    requires |x| == 2 * n && Unit(eta) && Pow(eta, |x|) == ONE && 0 < j < n
    ensures RealParts(BackTerms(x, eta, k))(n + j) == RealParts(BackTerms(x, eta, k))(n - j)
  {
    hide *;
    var a, b := n - j, n + j;
    RealPartsAt(BackTerms(x, eta, k), a);
    RealPartsAt(BackTerms(x, eta, k), b);
    BackTermsAt(x, eta, k, a);
    BackTermsAt(x, eta, k, b);
    Symmetric(x, eta, a, b);
    TimesAdd(k, a, b);
    PowTimes(eta, |x|, k);
    PowTimes(eta, k, |x|);
    PowOfOne(k);
    PowTimes(eta, k, a);
    PowTimes(eta, k, b);
    OppositePower(eta, Times(a, k), Times(b, k));
    TurnedIs(RealDft(x, eta, a), Pow(eta, Times(a, k)));
    TurnedIs(RealDft(x, eta, b), Pow(eta, Times(b, k)));
  }

  lemma FirstTerm(x: seq<real>, eta: Complex, k: nat)
    requires |x| > 0
    ensures RealParts(BackTerms(x, eta, k))(0) == RealDft(x, eta, 0).re
  {
    hide *;
    RealPartsAt(BackTerms(x, eta, k), 0);
    BackTermsAt(x, eta, k, 0);
    PowTimes(eta, 0, k);
    TimesZero(k);
    PowZero(eta);
    TurnedIs(RealDft(x, eta, 0), ONE);
    TurnedByUnit(RealDft(x, eta, 0));
  }

  lemma TurnedByUnit(c: Complex)
    ensures Turned(c, ONE) == c.re && Turned(c, Neg(ONE)) == -c.re
    ensures Weigh(c.re, 1.0) == c.re && Weigh(c.re, -1.0) == -c.re
  {
  }

  lemma MiddleTerm(x: seq<real>, eta: Complex, n: nat, k: nat)
    requires |x| == 2 * n && n > 0 && Pow(eta, n) == Neg(ONE)
    ensures RealParts(BackTerms(x, eta, k))(n) == Weigh(RealDft(x, eta, n).re, Alternating(k))
  {
    hide *;
    RealPartsAt(BackTerms(x, eta, k), n);
    BackTermsAt(x, eta, k, n);
    PowTimes(eta, n, k);
    NegPower(k);
    TurnedIs(RealDft(x, eta, n), Pow(eta, Times(n, k)));
    TurnedByUnit(RealDft(x, eta, n));
    AlternatingIs(k);
  }

  lemma AlternatingIs(k: nat)
    ensures Alternating(k) == if k % 2 == 0 then 1.0 else -1.0
  {
  }

  /** The documented sum of a packed spectrum is the datum, times half the length. */
  lemma InverseIsSum(x: seq<real>, eta: Complex, q: nat, k: nat)
    requires |x| == 2 * Pow2(q) && Root(eta, q + 1) && k < |x|
    ensures Pow2(q) as real * x[k] == InverseReal(HalfSpectrum(x, eta), eta, k)
  {
    hide *;
    var n, f, z := Pow2(q), RealParts(BackTerms(x, eta, k)), HalfSpectrum(x, eta);
    Pow2Two(q + 1);
    RootUnit(eta, q + 1);
    RootPowers(eta, q + 1);
    DatumIsSum(x, eta, q + 1, k);
    forall j: nat | 0 < j < n ensures f(2 * n - j) == f(j) {
      BackTermsFold(x, eta, n, k, n - j);
    }
    FoldedCircle(n, f);
    FirstTerm(x, eta, k);
    MiddleTerm(x, eta, n, k);
    HalfSpectrumAt(x, eta, 0);
    HalfLength(x, eta);
    forall j: nat | j < n - 1 ensures Shifted(f, 1)(j) == InverseTerms(z, eta, k)(j) {
      SideTerm(x, eta, n, k, j);
    }
    RealSumCongruence(n - 1, Shifted(f, 1), InverseTerms(z, eta, k));
    InverseRealIs(z, eta, k);
    Halves(n, x[k]);
  }

  lemma Halves(n: nat, a: real)
    ensures (2 * n) as real * a == 2.0 * (n as real * a)
  {
  }

  lemma HalfLength(x: seq<real>, eta: Complex)
    ensures |HalfSpectrum(x, eta)| == |x| / 2
  {
  }

  lemma InverseRealIs(z: seq<Complex>, eta: Complex, k: nat)
    requires |z| > 0
    ensures 2.0 * InverseReal(z, eta, k) ==
            z[0].re + Weigh(z[0].im, Alternating(k)) + 2.0 * RealSum(|z| - 1, InverseTerms(z, eta, k))
  {
    hide Weigh, Alternating, RealSum, InverseTerms;
  }

  lemma SideTerm(x: seq<real>, eta: Complex, n: nat, k: nat, j: nat)
    requires |x| == 2 * n && j + 1 < n
    ensures Shifted(RealParts(BackTerms(x, eta, k)), 1)(j) == InverseTerms(HalfSpectrum(x, eta), eta, k)(j)
  {
    hide *;
    var f, z := RealParts(BackTerms(x, eta, k)), HalfSpectrum(x, eta);
    ShiftedAt(f, 1, j);
    RealPartsAt(BackTerms(x, eta, k), 1 + j);
    BackTermsAt(x, eta, k, 1 + j);
    TurnedIs(RealDft(x, eta, 1 + j), Pow(eta, Times(1 + j, k)));
    HalfSpectrumAt(x, eta, 1 + j);
    HalfLength(x, eta);
    AtIs(z, 1 + j);
    InverseTermsAt(z, eta, k, j);
  }

  lemma ShiftedAt(f: nat -> real, m: nat, i: nat)
    ensures Shifted(f, m)(i) == f(m + i)
  {
  }

  lemma InverseTermsAt(z: seq<Complex>, eta: Complex, k: nat, j: nat)
    ensures InverseTerms(z, eta, k)(j) == Turned(At(z, 1 + j), Pow(eta, Times(1 + j, k)))
  {
    hide Turned, Pow;
  }

  /** So data that the documented inverse makes are those sums: y holds the data that have the
      spectrum z, times half the length. */
  lemma ScaledInverse(y: seq<real>, z: seq<Complex>, eta: Complex, q: nat, k: nat)
    requires |y| == 2 * Pow2(q) && Root(eta, q + 1) && k < |y|
    requires HalfSpectrum(ScaleReals(1.0 / Pow2(q) as real, y), eta) == z
    ensures |z| > 0 && y[k] == InverseReal(z, eta, k)
  {
    hide *;
    var n := Pow2(q);
    var r := 1.0 / n as real;
    var x := ScaleReals(r, y);
    ScaleRealsAt(r, y, k);
    InverseIsSum(x, eta, q, k);
    HalfLength(x, eta);
    ScaleForth(r, n as real, y[k]);
  }

  lemma ScaleRealsAt(r: real, y: seq<real>, k: nat)
    requires k < |y|
    ensures |ScaleReals(r, y)| == |y| && ScaleReals(r, y)[k] == r * y[k]
  {
  }

  lemma ScaleForth(r: real, n: real, a: real)
    requires r * n == 1.0
    ensures n * (r * a) == a
  {
    assert n * (r * a) == (r * n) * a;
  }
}
