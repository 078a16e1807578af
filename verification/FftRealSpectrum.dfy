/** The real transform documented in fft4g.c (lines 68-110): what rdft computes. */
module FftRealSpectrum {
  import opened Arith
  import opened Complexes
  import opened BitReversal
  import opened FftView
  import opened FftPasses
  import opened FftTheorem
  import opened FftReal
  import opened FftTables
  import opened FftSpectrum

  ghost function RealTerms(x: seq<real>, eta: Complex, k: nat): nat -> Complex {
    (j: nat) => Mul(Real(Cell(x, j)), Pow(eta, Times(j, k)))
  }

  /** R[k] + i*I[k] in the documentation. */
  ghost function RealDft(x: seq<real>, eta: Complex, k: nat): Complex {
    Sum(|x|, RealTerms(x, eta, k))
  }

  /** The packed form: coefficients 0 and |x|/2 are real and share entry 0. */
  ghost function HalfSpectrum(x: seq<real>, eta: Complex): (r: seq<Complex>)
    ensures |r| == |x| / 2
  {
    seq(|x| / 2, k requires 0 <= k < |x| / 2 =>
      if k == 0 then Complex(RealDft(x, eta, 0).re, RealDft(x, eta, |x| / 2).re) else RealDft(x, eta, k))
  }

  /** The last statements of the forward rdft. */
  function PackEnds(z: seq<Complex>): (r: seq<Complex>)
    requires |z| > 0
    ensures |r| == |z|
  {
    z[0 := Complex(z[0].re + z[0].im, z[0].re - z[0].im)]
  }

  /** The first statements of the backward rdft. */
  function UnpackEnds(z: seq<Complex>): (r: seq<Complex>)
    requires |z| > 0
    ensures |r| == |z|
  {
    var y := 0.5 * (z[0].re - z[0].im);
    z[0 := Complex(z[0].re - y, y)]
  }

  lemma PackUnpack(z: seq<Complex>)
    requires |z| > 0
    ensures PackEnds(UnpackEnds(z)) == z && UnpackEnds(PackEnds(z)) == z
  {
  }

  /** The factor that separates the two interleaved halves. */
  function Separator(e: Complex): Complex {
    Complex(0.5 - 0.5 * e.im, 0.5 * e.re)
  }

  // ---- pairs of real terms from pairs of complex ones ----

  ghost function ConjDftTerms(z: seq<Complex>, w: Complex, k: nat): nat -> Complex {
    (t: nat) => Mul(Conj(At(z, t)), Pow(w, Times(t, k)))
  }

  lemma ConjDftTermsAt(z: seq<Complex>, w: Complex, k: nat, t: nat)
    ensures ConjDftTerms(z, w, k)(t) == Mul(Conj(At(z, t)), Pow(w, Times(t, k)))
  {
    hide Mul, Pow;
  }

  lemma RealTermsAt(x: seq<real>, eta: Complex, k: nat, j: nat)
    ensures RealTerms(x, eta, k)(j) == Mul(Real(Cell(x, j)), Pow(eta, Times(j, k)))
  {
    hide Mul, Pow;
  }

  /** x0 + e*x1 from z = x0 + i*x1 and its conjugate. */
  lemma Separate(e: Complex, x0: real, x1: real)
    ensures Add(Real(x0), Mul(e, Real(x1))) ==
            Add(Mul(Sub(ONE, Separator(e)), Complex(x0, x1)), Mul(Separator(e), Conj(Complex(x0, x1))))
  {
    MulReal(x1, e);
    MulComm(e, Real(x1));
    SeparateParts(e.re, e.im, x0, x1);
  }

  lemma SeparateParts(a: real, b: real, x0: real, x1: real)
    ensures (0.5 + 0.5 * b) * x0 - (0.0 - 0.5 * a) * x1 + ((0.5 - 0.5 * b) * x0 - 0.5 * a * (-x1)) == x0 + x1 * a
    ensures (0.5 + 0.5 * b) * x1 + (0.0 - 0.5 * a) * x0 + ((0.5 - 0.5 * b) * (-x1) + 0.5 * a * x0) == x1 * b
  {
    var p, q, r, s := a * x0, a * x1, b * x0, b * x1;
    assert (0.5 + 0.5 * b) * x0 == 0.5 * x0 + 0.5 * r;
    assert (0.5 - 0.5 * b) * x0 == 0.5 * x0 - 0.5 * r;
    assert (0.0 - 0.5 * a) * x1 == -0.5 * q;
    assert 0.5 * a * (-x1) == -0.5 * q;
    assert (0.5 + 0.5 * b) * x1 == 0.5 * x1 + 0.5 * s;
    assert (0.0 - 0.5 * a) * x0 == -0.5 * p;
    assert (0.5 - 0.5 * b) * (-x1) == -0.5 * x1 + 0.5 * s;
    assert 0.5 * a * x0 == 0.5 * p;
  }

  /** Terms 2t and 2t+1 of the real transform. */
  lemma RealPair(x: seq<real>, eta: Complex, k: nat, t: nat)
    requires |x| % 2 == 0 && t < |x| / 2
    ensures var h, z, w := Separator(Pow(eta, k)), View(x), Mul(eta, eta);
            Paired(RealTerms(x, eta, k))(t) ==
            Add(Mul(Sub(ONE, h), DftTerms(z, w, k)(t)), Mul(h, ConjDftTerms(z, w, k)(t)))
  {
    hide *;
    var h, z, w, e := Separator(Pow(eta, k)), View(x), Mul(eta, eta), Pow(eta, k);
    var p := Pow(w, Times(t, k));
    PairedAt(RealTerms(x, eta, k), t);
    RealTermsAt(x, eta, k, 2 * t);
    RealTermsAt(x, eta, k, 2 * t + 1);
    PairPowers(eta, k, t);
    DftTermsAt(z, w, k, t);
    ConjDftTermsAt(z, w, k, t);
    PairCellsOf(x, t);
    var x0, x1 := Cell(x, 2 * t), Cell(x, 2 * t + 1);
    Separate(e, x0, x1);
    MulAssoc(Real(x1), e, p);
    MulComm(Real(x1), e);
    MulAdd(p, Real(x0), Mul(e, Real(x1)));
    MulAdd(p, Mul(Sub(ONE, h), At(z, t)), Mul(h, Conj(At(z, t))));
    MulAssoc(Sub(ONE, h), At(z, t), p);
    MulAssoc(h, Conj(At(z, t)), p);
  }

  lemma PairCellsOf(x: seq<real>, t: nat)
    requires |x| % 2 == 0 && t < |x| / 2
    ensures At(View(x), t) == Complex(Cell(x, 2 * t), Cell(x, 2 * t + 1))
  {
  }

  lemma PairPowers(eta: Complex, k: nat, t: nat)
    ensures Pow(eta, Times(2 * t, k)) == Pow(Mul(eta, eta), Times(t, k))
    ensures Pow(eta, Times(2 * t + 1, k)) == Mul(Pow(eta, k), Pow(Mul(eta, eta), Times(t, k)))
  {
    hide *;
    TimesDouble(t, k);
    SquarePower(eta, Times(t, k));
    PowAdd(eta, k, 2 * Times(t, k));
  }

  lemma TimesDouble(t: nat, k: nat)
    ensures Times(2 * t, k) == 2 * Times(t, k)
    ensures Times(2 * t + 1, k) == k + 2 * Times(t, k)
  {
  }

  /** The conjugate of coefficient N-k, N being the length. */
  lemma MirrorCoefficient(z: seq<Complex>, w: Complex, k: nat)
    requires Unit(w) && Pow(w, |z|) == ONE && k <= |z|
    ensures Conj(Dft(z, w, |z| - k)) == Sum(|z|, ConjDftTerms(z, w, k))
  {
    hide *;
    var n := |z|;
    DftIs(z, w, n - k);
    forall t: nat | t < n ensures ConjDftTerms(z, w, k)(t) == Conj(DftTerms(z, w, n - k)(t)) {
      DftTermsAt(z, w, n - k, t);
      ConjDftTermsAt(z, w, k, t);
      ConjLaws(At(z, t), Pow(w, Times(t, n - k)));
      MirrorPower(w, n, t, k);
    }
    SumConj(n, DftTerms(z, w, n - k), ConjDftTerms(z, w, k));
  }

  lemma MirrorPower(w: Complex, n: nat, t: nat, k: nat)
    requires Unit(w) && Pow(w, n) == ONE && k <= n
    ensures Conj(Pow(w, Times(t, n - k))) == Pow(w, Times(t, k))
  {
    hide *;
    TimesSplit(t, n, k);
    var a, b := Times(t, n - k), Times(t, k);
    PowAdd(w, a, b);
    PowTimes(w, n, t);
    PowOfOne(t);
    PowUnit(w, a);
    InverseUnit(Pow(w, a), Pow(w, b));
  }

  lemma TimesSplit(t: nat, n: nat, k: nat)
    requires k <= n
    ensures Times(t, n - k) + Times(t, k) == Times(n, t)
  {
    MulDistrib(t, n, k);
  }

  lemma InverseUnit(u: Complex, v: Complex)
    requires Unit(u) && Mul(u, v) == ONE
    ensures Conj(u) == v
  {
    hide *;
    UnitConj(u);
    MulAssoc(Conj(u), u, v);
    MulComm(Conj(u), u);
    MulOne(v);
    MulOne(Conj(u));
  }

  /** The documented real transform from the complex transform of the packed data. */
  lemma RealFromComplex(x: seq<real>, eta: Complex, k: nat)
    requires |x| % 2 == 0 && Unit(eta) && Pow(Mul(eta, eta), |x| / 2) == ONE && k <= |x| / 2
    ensures var h, z, w := Separator(Pow(eta, k)), View(x), Mul(eta, eta);
            RealDft(x, eta, k) == Sub(Dft(z, w, k), Mul(h, Sub(Dft(z, w, k), Conj(Dft(z, w, |x| / 2 - k)))))
  {
    hide *;
    var h, z, w, n := Separator(Pow(eta, k)), View(x), Mul(eta, eta), |x| / 2;
    RealDftIs(x, eta, k);
    PairedSum(RealTerms(x, eta, k), n);
    var a, b, p := DftTerms(z, w, k), ConjDftTerms(z, w, k), Paired(RealTerms(x, eta, k));
    var f, g := Multiples(Sub(ONE, h), a), Multiples(h, b);
    forall t: nat | t < n ensures p(t) == Add(f(t), g(t)) && f(t) == Mul(Sub(ONE, h), a(t)) && g(t) == Mul(h, b(t)) {
      RealPair(x, eta, k, t);
      MultiplesAt(Sub(ONE, h), a, t);
      MultiplesAt(h, b, t);
    }
    SumAdd(n, f, g, p);
    SumScale(n, Sub(ONE, h), a, f);
    SumScale(n, h, b, g);
    DftIs(z, w, k);
    UnitMul(eta, eta);
    MirrorCoefficient(z, w, k);
    Combine(h, Dft(z, w, k), Conj(Dft(z, w, n - k)));
  }

  lemma RealDftIs(x: seq<real>, eta: Complex, k: nat)
    ensures RealDft(x, eta, k) == Sum(|x|, RealTerms(x, eta, k))
  {
  }

  ghost function Multiples(c: Complex, f: nat -> Complex): nat -> Complex {
    (t: nat) => Mul(c, f(t))
  }

  lemma MultiplesAt(c: Complex, f: nat -> Complex, t: nat)
    ensures Multiples(c, f)(t) == Mul(c, f(t))
  {
    hide Mul;
  }

  lemma Combine(h: Complex, u: Complex, v: Complex)
    ensures Add(Mul(Sub(ONE, h), u), Mul(h, v)) == Sub(u, Mul(h, Sub(u, v)))
  {
    MulSub(h, u, v);
    MulComm(Sub(ONE, h), u);
    MulSub(u, ONE, h);
    MulComm(u, h);
    MulOne(u);
    hide Mul;
  }

  // ---- the real passes compute the documented transform ----

  /** The table entries are the separators of the powers of eta. */
  ghost predicate GoodHalves(c: seq<real>, ks: nat, eta: Complex, n: nat) {
    forall p: nat | 0 < p && 2 * p < n :: Half(c, ks, p) == Separator(Pow(eta, p))
  }

  /** Past the middle, the factor is the conjugate of its mirror image's. */
  lemma SeparatorMirror(eta: Complex, n: nat, p: nat)
    requires Unit(eta) && Pow(eta, n) == Neg(ONE) && p <= n
    ensures Separator(Pow(eta, p)) == Conj(Separator(Pow(eta, n - p)))
  {
    hide Pow, Mul;
    var u, v := Pow(eta, p), Pow(eta, n - p);
    PowAdd(eta, n - p, p);
    PowUnit(eta, n - p);
    NegMirror(v, u);
  }

  lemma NegMirror(u: Complex, v: Complex)
    requires Unit(u) && Mul(u, v) == Neg(ONE)
    ensures v == Neg(Conj(u))
  {
    UnitConj(u);
    UnitProducts(Conj(u));
    hide Mul;
    MulAssoc(Conj(u), u, v);
    MulComm(Conj(u), u);
    MulOne(v);
    MulComm(Conj(u), Neg(ONE));
  }

  lemma CoefficientFormula(x: seq<real>, eta: Complex, q: nat, p: nat)
    requires |x| % 2 == 0 && |x| == 2 * Pow2(q) && Root(eta, q + 1) && 0 < p < Pow2(q)
    ensures var z := Spectrum(View(x), Mul(eta, eta));
            |z| == Pow2(q) &&
            RealDft(x, eta, p) == Sub(At(z, p), Mul(Separator(Pow(eta, p)), Sub(At(z, p), Conj(At(z, Pow2(q) - p)))))
  {
    hide *;
    var n, w := Pow2(q), Mul(eta, eta);
    RootUnit(eta, q + 1);
    RootSquare(eta, q + 1);
    RootPowers(w, q);
    ViewLength(x);
    RealFromComplex(x, eta, p);
    var z := Spectrum(View(x), w);
    SpectrumAt(View(x), w, p);
    SpectrumAt(View(x), w, n - p);
    AtIs(z, p);
    AtIs(z, n - p);
  }

  lemma ForwardCoefficient(c: seq<real>, ks: nat, x: seq<real>, eta: Complex, q: nat, p: nat)
    requires |x| % 2 == 0 && |x| == 2 * Pow2(q) && Root(eta, q + 1) && GoodHalves(c, ks, eta, Pow2(q))
        && 0 < p < Pow2(q)
    ensures |Spectrum(View(x), Mul(eta, eta))| == Pow2(q)
    ensures At(Forward(c, ks, Spectrum(View(x), Mul(eta, eta))), p) == RealDft(x, eta, p)
  {
    hide *;
    var n, z := Pow2(q), Spectrum(View(x), Mul(eta, eta));
    CoefficientFormula(x, eta, q, p);
    FactoredEntry(c, ks, z, eta, q, p);
    AtIs(z, p);
    AtIs(z, n - p);
    AtIs(Forward(c, ks, z), p);
  }

  lemma FactoredEntry(c: seq<real>, ks: nat, z: seq<Complex>, eta: Complex, q: nat, p: nat)
    requires |z| == Pow2(q) && Root(eta, q + 1) && GoodHalves(c, ks, eta, Pow2(q)) && 0 < p < Pow2(q)
    ensures Forward(c, ks, z)[p] == Sub(z[p], Mul(Separator(Pow(eta, p)), Sub(z[p], Conj(z[Pow2(q) - p]))))
  {
    hide *;
    var n := Pow2(q);
    ForwardAt(c, ks, z, p);
    if 2 * p == n {
      MiddleSeparator(eta, q, p);
      MulZero(Sub(z[p], Conj(z[p])));
      SubZero(z[p]);
    } else if 2 * p < n {
      HalvesAt(c, ks, eta, n, p);
    } else {
      RootUnit(eta, q + 1);
      RootPowers(eta, q + 1);
      HalvesAt(c, ks, eta, n, n - p);
      SeparatorMirror(eta, n, p);
      UpperEntry(Separator(Pow(eta, n - p)), z[p], z[n - p]);
    }
  }

  lemma ViewLength(x: seq<real>)
    requires |x| % 2 == 0
    ensures |View(x)| == |x| / 2
  {
  }

  lemma SubZero(z: Complex)
    ensures Sub(z, ZERO) == z
  {
  }

  lemma ForwardAt(c: seq<real>, ks: nat, z: seq<Complex>, p: nat)
    requires 0 < p < |z|
    ensures 2 * p == |z| ==> Forward(c, ks, z)[p] == z[p]
    ensures 2 * p < |z| ==> Forward(c, ks, z)[p] == Sub(z[p], Mul(Half(c, ks, p), Sub(z[p], Conj(z[|z| - p]))))
    ensures 2 * p > |z| ==> Forward(c, ks, z)[p] ==
                            Add(z[p], Conj(Mul(Half(c, ks, |z| - p), Sub(z[|z| - p], Conj(z[p])))))
  {
    hide Mul, Half, Add, Sub, Conj;
  }

  lemma HalvesAt(c: seq<real>, ks: nat, eta: Complex, n: nat, p: nat)
    requires GoodHalves(c, ks, eta, n) && 0 < p && 2 * p < n
    ensures Half(c, ks, p) == Separator(Pow(eta, p))
  {
    hide Half, Separator, Pow;
  }

  lemma UpperEntry(h: Complex, u: Complex, v: Complex)
    ensures Add(u, Conj(Mul(h, Sub(v, Conj(u))))) == Sub(u, Mul(Conj(h), Sub(u, Conj(v))))
  {
    ConjLaws(h, Sub(v, Conj(u)));
    var x := Sub(u, Conj(v));
    assert Conj(Sub(v, Conj(u))) == Neg(x);
    MulNeg(Conj(h), x);
    hide Mul;
  }

  lemma MulNeg(x: Complex, y: Complex)
    ensures Mul(x, Neg(y)) == Neg(Mul(x, y))
  {
  }

  lemma MiddleSeparator(eta: Complex, q: nat, p: nat)
    requires Root(eta, q + 1) && 2 * p == Pow2(q)
    ensures Separator(Pow(eta, p)) == ZERO
  {
    if q > 0 {
      assert Pow2(q) == 2 * Pow2(q - 1);
    }
    hide Pow, Pow2;
  }

  /** Coefficients 0 and N, which share an entry. */
  lemma EndCoefficients(x: seq<real>, eta: Complex, q: nat)
    requires |x| % 2 == 0 && |x| == 2 * Pow2(q) && Root(eta, q + 1)
    ensures var z := Dft(View(x), Mul(eta, eta), 0);
            RealDft(x, eta, 0).re == z.re + z.im && RealDft(x, eta, Pow2(q)).re == z.re - z.im
  {
    hide *;
    var n, w := Pow2(q), Mul(eta, eta);
    RootUnit(eta, q + 1);
    RootPowers(eta, q + 1);
    RootSquare(eta, q + 1);
    RootPowers(w, q);
    ViewLength(x);
    RealFromComplex(x, eta, 0);
    RealFromComplex(x, eta, n);
    Periodic(View(x), w);
    PowZero(eta);
    var u := Dft(View(x), w, 0);
    EndAlgebra(u);
  }

  lemma PowZero(x: Complex)
    ensures Pow(x, 0) == ONE
  {
  }

  lemma EndAlgebra(u: Complex)
    ensures Sub(u, Mul(Separator(ONE), Sub(u, Conj(u)))).re == u.re + u.im
    ensures Sub(u, Mul(Separator(Neg(ONE)), Sub(u, Conj(u)))).re == u.re - u.im
  {
    var y := Sub(u, Conj(u));
    assert y == Complex(0.0, 2.0 * u.im);
    MulParts(0.5, 0.5, 0.0, 2.0 * u.im);
    MulParts(0.5, -0.5, 0.0, 2.0 * u.im);
    hide Mul;
  }

  /** Coefficient N is coefficient 0. */
  lemma Periodic(z: seq<Complex>, w: Complex)
    requires Pow(w, |z|) == ONE
    ensures Dft(z, w, |z|) == Dft(z, w, 0)
  {
    hide *;
    DftIs(z, w, |z|);
    DftIs(z, w, 0);
    forall t: nat | t < |z| ensures DftTerms(z, w, |z|)(t) == DftTerms(z, w, 0)(t) {
      DftTermsAt(z, w, |z|, t);
      DftTermsAt(z, w, 0, t);
      TimesZero(t);
      PowTimes(w, |z|, t);
      PowOfOne(t);
      PowZero(w);
    }
    SumCongruence(|z|, DftTerms(z, w, |z|), DftTerms(z, w, 0));
  }

  lemma TimesZero(t: nat)
    ensures Times(t, 0) == 0
  {
  }

  /** From the complex transform of the packed data to the packed real spectrum. */
  lemma ForwardIsRealDft(c: seq<real>, ks: nat, x: seq<real>, eta: Complex, q: nat)
    requires |x| % 2 == 0 && |x| == 2 * Pow2(q) && Root(eta, q + 1) && GoodHalves(c, ks, eta, Pow2(q))
    ensures |Spectrum(View(x), Mul(eta, eta))| == Pow2(q)
    ensures PackEnds(Forward(c, ks, Spectrum(View(x), Mul(eta, eta)))) == HalfSpectrum(x, eta)
  {
    var w := Mul(eta, eta);
    var z := Spectrum(View(x), w);
    EndCoefficients(x, eta, q);
    hide Mul, Root, GoodHalves, RealDft, Dft, Pow2;
    assert Forward(c, ks, z)[0] == z[0];
    hide Forward;
    assert |z| == Pow2(q);
    forall p: nat | p < |z| ensures PackEnds(Forward(c, ks, z))[p] == HalfSpectrum(x, eta)[p] {
      if p > 0 {
        ForwardCoefficient(c, ks, x, eta, q, p);
      }
    }
  }

  // ---- the backward passes invert the documented transform ----

  function ScaleReals(r: real, x: seq<real>): (y: seq<real>)
    ensures |y| == |x|
  {
    seq(|x|, i requires 0 <= i < |x| => r * x[i])
  }

  lemma ScaleView(r: real, x: seq<real>)
    requires |x| % 2 == 0
    ensures View(ScaleReals(r, x)) == ScaleAll(r, View(x))
  {
    var y := ScaleReals(r, x);
    forall p: nat | p < |x| / 2 ensures View(y)[p] == ScaleAll(r, View(x))[p] {
      assert View(y)[p] == Complex(y[2 * p], y[2 * p + 1]);
      assert View(x)[p] == Complex(x[2 * p], x[2 * p + 1]);
    }
  }

  /** The transform is linear. */
  lemma SpectrumScales(r: real, x: seq<Complex>, w: Complex)
    ensures Spectrum(ScaleAll(r, x), w) == ScaleAll(r, Spectrum(x, w))
  {
    hide Dft, Scale;
    forall k: nat | k < |x| ensures Spectrum(ScaleAll(r, x), w)[k] == ScaleAll(r, Spectrum(x, w))[k] {
      DftScales(r, x, w, k);
    }
  }

  lemma DftScales(r: real, x: seq<Complex>, w: Complex, k: nat)
    ensures Dft(ScaleAll(r, x), w, k) == Scale(r, Dft(x, w, k))
  {
    hide *;
    var y, c := ScaleAll(r, x), Complex(r, 0.0);
    DftIs(x, w, k);
    DftIs(y, w, k);
    forall t: nat | t < |x| ensures DftTerms(y, w, k)(t) == Mul(c, DftTerms(x, w, k)(t)) {
      DftTermsAt(x, w, k, t);
      DftTermsAt(y, w, k, t);
      ScaledAt(r, x, t);
      MulReal(r, At(x, t));
      MulAssoc(c, At(x, t), Pow(w, Times(t, k)));
    }
    SumScale(|x|, c, DftTerms(x, w, k), DftTerms(y, w, k));
    MulReal(r, Dft(x, w, k));
  }

  lemma ScaledAt(r: real, x: seq<Complex>, t: nat)
    requires t < |x|
    ensures At(ScaleAll(r, x), t) == Scale(r, At(x, t))
  {
  }

  lemma ScaleCancels(n: nat, x: seq<Complex>)
    requires n > 0
    ensures ScaleAll(1.0 / n as real, ConjAll(ScaleAll(n as real, x))) == ConjAll(x)
  {
    var r := 1.0 / n as real;
    var y := ConjAll(ScaleAll(n as real, x));
    forall p: nat | p < |x| ensures ScaleAll(r, y)[p] == ConjAll(x)[p] {
      assert y[p] == Conj(Scale(n as real, x[p]));
      ScaleBack(r, n as real, x[p].re);
      ScaleBack(r, n as real, x[p].im);
    }
  }

  lemma ScaleBack(r: real, n: real, x: real)
    requires r * n == 1.0
    ensures r * (n * x) == x && r * (-(n * x)) == -x
  {
    assert r * (n * x) == (r * n) * x;
  }

  /** Whatever packed spectrum the backward passes start from, their result, scaled by 2/n, is
      the real data that has this spectrum. */
  lemma BackwardInverts(c: seq<real>, ks: nat, z: seq<Complex>, y: seq<real>, eta: Complex, q: nat)
    requires |y| % 2 == 0 && |y| == 2 * Pow2(q) && |z| == Pow2(q) && Root(eta, q + 1)
    requires GoodHalves(c, ks, eta, Pow2(q)) && (|z| <= 2 || (Balanced(c) && StepFits(ks, |z|, |c|)))
    requires View(y) == ConjAll(Spectrum(Backward(c, ks, UnpackEnds(z)), Mul(eta, eta)))
    ensures HalfSpectrum(ScaleReals(1.0 / Pow2(q) as real, y), eta) == z
  {
    hide *;
    var w, u := Mul(eta, eta), UnpackEnds(z);
    var b, n, x := Backward(c, ks, u), Pow2(q), ScaleReals(1.0 / Pow2(q) as real, y);
    RootSquare(eta, q + 1);
    ScaleView(1.0 / n as real, y);
    SpectrumScales(1.0 / n as real, View(y), w);
    InverseTransform(b, w, q);
    ConjAllTwice(Spectrum(View(y), w));
    ScaleCancels(n, b);
    ForwardIsRealDft(c, ks, x, eta, q);
    RealPassesCancelBack(c, ks, u);
    PackUnpack(z);
  }

  /** Distinct data have distinct spectra. */
  lemma SpectrumDetermines(c: seq<real>, ks: nat, x: seq<real>, y: seq<real>, eta: Complex, q: nat)
    requires |x| % 2 == 0 && |x| == 2 * Pow2(q) && |y| == |x| && Root(eta, q + 1)
    requires GoodHalves(c, ks, eta, Pow2(q)) && (Pow2(q) <= 2 || (Balanced(c) && StepFits(ks, Pow2(q), |c|)))
    requires HalfSpectrum(x, eta) == HalfSpectrum(y, eta)
    ensures x == y
  {
    hide *;
    var w := Mul(eta, eta);
    DataFromSpectrum(c, ks, x, eta, q);
    DataFromSpectrum(c, ks, y, eta, q);
    ScaleInjective(Pow2(q) as real, View(x), View(y));
    ViewInjective(x, y);
  }

  lemma ScaleInjective(r: real, x: seq<Complex>, y: seq<Complex>)
    requires r > 0.0 && ScaleAll(r, x) == ScaleAll(r, y)
    ensures x == y
  {
    assert |x| == |ScaleAll(r, x)| == |y|;
    forall p: nat | p < |x| ensures x[p] == y[p] {
      assert ScaleAll(r, x)[p] == ScaleAll(r, y)[p];
      Cancel(r, x[p].re, y[p].re);
      Cancel(r, x[p].im, y[p].im);
    }
  }

  lemma Cancel(r: real, a: real, b: real)
    requires r > 0.0 && r * a == r * b
    ensures a == b
  {
    assert r * (a - b) == 0.0;
  }

  /** The data, scaled by N, written in terms of its packed spectrum. */
  lemma DataFromSpectrum(c: seq<real>, ks: nat, x: seq<real>, eta: Complex, q: nat)
    requires |x| % 2 == 0 && |x| == 2 * Pow2(q) && Root(eta, q + 1)
    requires GoodHalves(c, ks, eta, Pow2(q)) && (Pow2(q) <= 2 || (Balanced(c) && StepFits(ks, Pow2(q), |c|)))
    ensures |HalfSpectrum(x, eta)| > 0
    ensures ScaleAll(Pow2(q) as real, View(x)) ==
            ConjAll(Spectrum(Backward(c, ks, UnpackEnds(HalfSpectrum(x, eta))), Mul(eta, eta)))
  {
    hide *;
    var w := Mul(eta, eta);
    var z := Spectrum(View(x), w);
    RootSquare(eta, q + 1);
    ViewLength(x);
    InverseTransform(View(x), w, q);
    ForwardIsRealDft(c, ks, x, eta, q);
    PackUnpack(Forward(c, ks, z));
    if |z| <= 2 {
      SmallRealPasses(c, ks, z);
    } else {
      RealPassesCancel(c, ks, z);
    }
  }

  lemma SmallRealPasses(c: seq<real>, ks: nat, z: seq<Complex>)
    requires |z| <= 2
    ensures Forward(c, ks, z) == z && Backward(c, ks, z) == ConjAll(z)
  {
  }
}
