/** ORDERED_CONVOLVE (rdft.h, lines 4-16) and the theorem behind its use: transforming,
    multiplying and transforming back is circular convolution. */
module Convolution {
  import opened Arith
  import opened Complexes
  import opened BitReversal
  import opened FftView
  import opened FftTheorem
  import opened FftReal
  import opened FftTables
  import opened Fft
  import opened FftSpectrum
  import opened FftRealSpectrum
  import opened FftInverse

  /** i - j around a circle of n places. */
  function Wrap(i: nat, j: nat, n: nat): nat
    requires n > 0
  {
    (i - j) % n
  }

  function CircularTerms(x: seq<real>, h: seq<real>, i: nat): nat -> real
    requires |x| > 0
  {
    (j: nat) => Weigh(Cell(x, j), Cell(h, Wrap(i, j, |x|)))
  }

  /** Circular convolution of two sequences of the same length. */
  function Circular(x: seq<real>, h: seq<real>): (y: seq<real>)
    requires |x| > 0
    ensures |y| == |x|
  {
    seq(|x|, i requires 0 <= i < |x| => RealSum(|x|, CircularTerms(x, h, i)))
  }

  /** Packed spectra multiplied coefficient by coefficient. */
  function Product(u: seq<Complex>, v: seq<Complex>): (r: seq<Complex>)
    requires |u| == |v|
    ensures |r| == |u|
  {
    seq(|u|, p requires 0 <= p < |u| =>
      if p == 0 then Complex(u[0].re * v[0].re, u[0].im * v[0].im) else Mul(u[p], v[p]))
  }

  // ---- the transform of a shifted sequence ----

  ghost function ShiftTerms(h: seq<real>, eta: Complex, k: nat, j: nat): nat -> Complex
    requires |h| > 0
  {
    (i: nat) => Mul(Real(Cell(h, Wrap(i, j, |h|))), Pow(eta, Times(i, k)))
  }

  lemma ShiftTermsAt(h: seq<real>, eta: Complex, k: nat, j: nat, i: nat)
    requires |h| > 0
    ensures ShiftTerms(h, eta, k, j)(i) == Mul(Real(Cell(h, Wrap(i, j, |h|))), Pow(eta, Times(i, k)))
  {
    hide Mul, Pow, Cell, Wrap;
  }

  /** A sum whose terms moved on by one place, each multiplied by c. */
  lemma {:induction false} SumMoved(n: nat, c: Complex, f: nat -> Complex, g: nat -> Complex)
    requires forall i: nat | i < n :: f(i + 1) == Mul(c, g(i))
    ensures Sum(n + 1, f) == Add(f(0), Mul(c, Sum(n, g)))
  {
    hide *;
    SumUnfold(n + 1, f);
    SumUnfold(n, g);
    if n == 0 {
      SumUnfold(0, f);
      MulZero(c);
      AddComm(ZERO, f(0));
    } else {
      SumMoved(n - 1, c, f, g);
      assert f(n - 1 + 1) == Mul(c, g(n - 1));
      MulAdd(c, Sum(n - 1, g), g(n - 1));
      AddAssoc(f(0), Mul(c, Sum(n - 1, g)), Mul(c, g(n - 1)));
    }
  }

  lemma WrapMoves(n: nat, i: nat, j: nat)
    requires n > 0
    ensures Wrap(i + 1, j + 1, n) == Wrap(i, j, n)
    ensures Wrap(0, j + 1, n) == Wrap(n - 1, j, n)
    ensures i < n ==> Wrap(i, 0, n) == i
  {
    ModShift(-(j + 1), n);
    assert (i + 1) - (j + 1) == i - j && 0 - (j + 1) + n == n - 1 - j;
    if i < n {
      ModSmall(i, n);
    }
  }

  lemma ModSmall(i: nat, n: nat)
    requires i < n
    ensures (i - 0) % n == i
  {
    DigitsDivMod(n, i, 0);
  }

  lemma ModShift(x: int, n: nat)
    requires n > 0
    ensures (x + n) % n == x % n
  {
    var q, r := x / n, x % n;
    assert x == r + n * q;
    MulDistrib(n, q, 1);
    DigitsDivMod(n, r, q + 1);
    DigitsDivMod(n, r, q);
  }

  lemma {:induction false} ShiftedTransform(h: seq<real>, eta: Complex, k: nat, j: nat)
    requires |h| > 0 && Pow(eta, |h|) == ONE
    ensures Sum(|h|, ShiftTerms(h, eta, k, j)) == Mul(Pow(eta, Times(j, k)), RealDft(h, eta, k))
  {
    hide *;
    var n := |h|;
    TimesSteps(j, k);
    if j == 0 {
      forall i: nat | i < n ensures ShiftTerms(h, eta, k, 0)(i) == RealTerms(h, eta, k)(i) {
        ShiftTermsAt(h, eta, k, 0, i);
        RealTermsAt(h, eta, k, i);
        WrapMoves(n, i, 0);
      }
      SumCongruence(n, ShiftTerms(h, eta, k, 0), RealTerms(h, eta, k));
      RealDftIs(h, eta, k);
      PowZero(eta);
      MulOne(RealDft(h, eta, k));
    } else {
      ShiftedTransform(h, eta, k, j - 1);
      ShiftedOnce(h, eta, k, j - 1);
      PowAdd(eta, k, Times(j - 1, k));
      MulAssoc(Pow(eta, k), Pow(eta, Times(j - 1, k)), RealDft(h, eta, k));
    }
  }

  lemma TimesSteps(j: nat, k: nat)
    ensures j == 0 ==> Times(j, k) == 0
    ensures j > 0 ==> Times(j, k) == k + Times(j - 1, k)
  {
    if j > 0 {
      MulDistribRight(k, j - 1, 1);
    }
  }

  lemma ShiftedOnce(h: seq<real>, eta: Complex, k: nat, j: nat)
    requires |h| > 0 && Pow(eta, |h|) == ONE
    ensures Sum(|h|, ShiftTerms(h, eta, k, j + 1)) == Mul(Pow(eta, k), Sum(|h|, ShiftTerms(h, eta, k, j)))
  {
    hide *;
    var n, c := |h|, Pow(eta, k);
    var f, g := ShiftTerms(h, eta, k, j + 1), ShiftTerms(h, eta, k, j);
    forall i: nat | i < n ensures i + 1 < n ==> f(i + 1) == Mul(c, g(i)) {
      ShiftTermsAt(h, eta, k, j + 1, i + 1);
      ShiftTermsAt(h, eta, k, j, i);
      WrapMoves(n, i, j);
      NextTerm(Real(Cell(h, Wrap(i, j, n))), eta, k, i);
    }
    SumMoved(n - 1, c, f, g);
    SumUnfold(n, g);
    ShiftTermsAt(h, eta, k, j + 1, 0);
    ShiftTermsAt(h, eta, k, j, n - 1);
    WrapMoves(n, 0, j);
    NextTerm(Real(Cell(h, Wrap(n - 1, j, n))), eta, k, n - 1);
    FullTurn(eta, n, k);
    MulAdd(c, Sum(n - 1, g), g(n - 1));
    AddComm(f(0), Mul(c, Sum(n - 1, g)));
  }

  lemma NextTerm(z: Complex, eta: Complex, k: nat, i: nat)
    ensures Mul(z, Pow(eta, Times(i + 1, k))) == Mul(Pow(eta, k), Mul(z, Pow(eta, Times(i, k))))
  {
    hide *;
    TimesSteps(i + 1, k);
    PowAdd(eta, k, Times(i, k));
    MulRotate(z, Pow(eta, k), Pow(eta, Times(i, k)));
    MulComm(Pow(eta, k), Pow(eta, Times(i, k)));
    MulRotate(z, Pow(eta, Times(i, k)), Pow(eta, k));
  }

  /** Going round the circle k times leads back to the start. */
  lemma FullTurn(eta: Complex, n: nat, k: nat)
    requires Pow(eta, n) == ONE
    ensures Pow(eta, Times(n, k)) == Pow(eta, Times(0, k))
  {
    hide *;
    PowTimes(eta, n, k);
    PowOfOne(k);
    TimesSteps(0, k);
    PowZero(eta);
  }

  // ---- the convolution theorem ----

  lemma RealProducts(a: real, b: real, z: Complex)
    ensures Mul(Real(Weigh(a, b)), z) == Mul(Real(a), Mul(Real(b), z))
  {
    MulReal(b, z);
    MulReal(a, Scale(b, z));
    MulReal(a * b, z);
    hide Mul;
    ScaleTwice(a, b, z.re);
    ScaleTwice(a, b, z.im);
  }

  lemma ScaleTwice(a: real, b: real, x: real)
    ensures a * b * x == a * (b * x)
  {
  }

  /** Term (j, i) of the double sum. */
  ghost function Grid(x: seq<real>, h: seq<real>, eta: Complex, k: nat): (nat, nat) -> Complex
    requires |x| > 0
  {
    (j: nat, i: nat) => Mul(Real(Weigh(Cell(x, j), Cell(h, Wrap(i, j, |x|)))), Pow(eta, Times(i, k)))
  }

  ghost function GridRow(x: seq<real>, h: seq<real>, eta: Complex, k: nat, j: nat): nat -> Complex
    requires |x| > 0
  {
    (i: nat) => Grid(x, h, eta, k)(j, i)
  }

  ghost function GridColumn(x: seq<real>, h: seq<real>, eta: Complex, k: nat, i: nat): nat -> Complex
    requires |x| > 0
  {
    (j: nat) => Grid(x, h, eta, k)(j, i)
  }

  lemma GridAt(x: seq<real>, h: seq<real>, eta: Complex, k: nat, j: nat, i: nat)
    requires |x| > 0
    ensures GridRow(x, h, eta, k, j)(i) == Mul(Real(Weigh(Cell(x, j), Cell(h, Wrap(i, j, |x|)))), Pow(eta, Times(i, k)))
    ensures GridColumn(x, h, eta, k, i)(j) == GridRow(x, h, eta, k, j)(i)
  {
    hide Mul, Pow, Cell, Wrap;
    assert Grid(x, h, eta, k)(j, i) == Mul(Real(Weigh(Cell(x, j), Cell(h, Wrap(i, j, |x|)))), Pow(eta, Times(i, k)));
    hide Grid;
  }

  /** Rows and columns as sums over lambdas, the form in which summations are exchanged. */
  lemma GridSums(x: seq<real>, h: seq<real>, eta: Complex, k: nat, m: nat)
    requires |x| > 0
    ensures Sum(|x|, GridRow(x, h, eta, k, m)) == Sum(|x|, (i: nat) => Grid(x, h, eta, k)(m, i))
    ensures Sum(|x|, GridColumn(x, h, eta, k, m)) == Sum(|x|, (j: nat) => Grid(x, h, eta, k)(j, m))
  {
    hide Grid, Sum;
    SumCongruence(|x|, GridRow(x, h, eta, k, m), (i: nat) => Grid(x, h, eta, k)(m, i));
    SumCongruence(|x|, GridColumn(x, h, eta, k, m), (j: nat) => Grid(x, h, eta, k)(j, m));
  }

  /** Row j: x[j] times the transform of h moved on by j. */
  lemma RowIsProduct(x: seq<real>, h: seq<real>, eta: Complex, k: nat, j: nat)
    requires |x| > 0 && |h| == |x| && Pow(eta, |x|) == ONE
    ensures Sum(|x|, GridRow(x, h, eta, k, j)) == Mul(RealDft(h, eta, k), RealTerms(x, eta, k)(j))
  {
    hide *;
    var n, z := |x|, Real(Cell(x, j));
    forall i: nat | i < n ensures GridRow(x, h, eta, k, j)(i) == Mul(z, ShiftTerms(h, eta, k, j)(i)) {
      GridAt(x, h, eta, k, j, i);
      ShiftTermsAt(h, eta, k, j, i);
      RealProducts(Cell(x, j), Cell(h, Wrap(i, j, n)), Pow(eta, Times(i, k)));
    }
    SumScale(n, z, ShiftTerms(h, eta, k, j), GridRow(x, h, eta, k, j));
    ShiftedTransform(h, eta, k, j);
    RealTermsAt(x, eta, k, j);
    MulRotate(z, Pow(eta, Times(j, k)), RealDft(h, eta, k));
  }

  /** Column i: the i-th output, turned by i*k. */
  lemma ColumnIsTerm(x: seq<real>, h: seq<real>, eta: Complex, k: nat, i: nat)
    requires |x| > 0 && |h| == |x| && i < |x|
    ensures Sum(|x|, GridColumn(x, h, eta, k, i)) == RealTerms(Circular(x, h), eta, k)(i)
  {
    hide *;
    var n, p := |x|, Pow(eta, Times(i, k));
    var g := RealTermsOf(CircularTerms(x, h, i));
    forall j: nat | j < n ensures GridColumn(x, h, eta, k, i)(j) == Mul(p, g(j)) {
      GridAt(x, h, eta, k, j, i);
      RealTermsOfAt(CircularTerms(x, h, i), j);
      CircularTermsAt(x, h, i, j);
      MulComm(Real(Weigh(Cell(x, j), Cell(h, Wrap(i, j, n)))), p);
    }
    SumScale(n, p, g, GridColumn(x, h, eta, k, i));
    forall j: nat | j < n ensures g(j) == Real(CircularTerms(x, h, i)(j)) {
      RealTermsOfAt(CircularTerms(x, h, i), j);
    }
    RealSumIsSum(n, CircularTerms(x, h, i), g);
    RealTermsAt(Circular(x, h), eta, k, i);
    CircularAt(x, h, i);
    MulComm(Real(Cell(Circular(x, h), i)), p);
  }

  ghost function RealTermsOf(f: nat -> real): nat -> Complex {
    (j: nat) => Real(f(j))
  }

  lemma RealTermsOfAt(f: nat -> real, j: nat)
    ensures RealTermsOf(f)(j) == Real(f(j))
  {
    hide Real;
  }

  lemma CircularTermsAt(x: seq<real>, h: seq<real>, i: nat, j: nat)
    requires |x| > 0
    ensures CircularTerms(x, h, i)(j) == Weigh(Cell(x, j), Cell(h, Wrap(i, j, |x|)))
  {
    hide Cell, Wrap;
  }

  lemma CircularAt(x: seq<real>, h: seq<real>, i: nat)
    requires i < |x|
    ensures |x| > 0 && Cell(Circular(x, h), i) == RealSum(|x|, CircularTerms(x, h, i))
  {
  }

  /** The transform of a circular convolution is the product of the transforms. */
  lemma ConvolutionTheorem(x: seq<real>, h: seq<real>, eta: Complex, k: nat)
    requires |x| > 0 && |h| == |x| && Pow(eta, |x|) == ONE
    ensures RealDft(Circular(x, h), eta, k) == Mul(RealDft(h, eta, k), RealDft(x, eta, k))
  {
    hide *;
    var n := |x|;
    var rows, cols := Multiples(RealDft(h, eta, k), RealTerms(x, eta, k)), RealTerms(Circular(x, h), eta, k);
    forall j: nat | j < n ensures rows(j) == Sum(n, (i: nat) => Grid(x, h, eta, k)(j, i))
                                  && rows(j) == Mul(RealDft(h, eta, k), RealTerms(x, eta, k)(j)) {
      RowIsProduct(x, h, eta, k, j);
      GridSums(x, h, eta, k, j);
      MultiplesAt(RealDft(h, eta, k), RealTerms(x, eta, k), j);
    }
    forall i: nat | i < n ensures cols(i) == Sum(n, (j: nat) => Grid(x, h, eta, k)(j, i)) {
      ColumnIsTerm(x, h, eta, k, i);
      GridSums(x, h, eta, k, i);
    }
    SumExchange(n, n, Grid(x, h, eta, k), rows, cols);
    SumScale(n, RealDft(h, eta, k), RealTerms(x, eta, k), rows);
    RealDftIs(x, eta, k);
    RealDftIs(Circular(x, h), eta, k);
  }

  lemma RealProduct(u: Complex, v: Complex)
    requires u.im == 0.0 && v.im == 0.0
    ensures Mul(u, v).re == u.re * v.re
  {
  }

  /** In packed form. */
  lemma ProductOfSpectra(x: seq<real>, h: seq<real>, eta: Complex, q: nat)
    requires |x| % 2 == 0 && |x| == 2 * Pow2(q) && |h| == |x| && Root(eta, q + 1)
    ensures Product(HalfSpectrum(x, eta), HalfSpectrum(h, eta)) == HalfSpectrum(Circular(x, h), eta)
  {
    Pow2Two(q + 1);
    RootPowers(eta, q + 1);
    hide Pow2, Pow, Root, RealDft, Mul, Circular, Product, HalfSpectrum;
    forall p: nat | p < |x| / 2
      ensures Product(HalfSpectrum(x, eta), HalfSpectrum(h, eta))[p] == HalfSpectrum(Circular(x, h), eta)[p]
    {
      ProductEntry(x, h, eta, p);
    }
  }

  lemma ProductEntry(x: seq<real>, h: seq<real>, eta: Complex, p: nat)
    requires |x| % 2 == 0 && |x| == |h| && p < |x| / 2
    requires Pow(eta, |x|) == ONE && Pow(eta, |x| / 2) == Neg(ONE)
    ensures Product(HalfSpectrum(x, eta), HalfSpectrum(h, eta))[p] == HalfSpectrum(Circular(x, h), eta)[p]
  {
    hide *;
    if p == 0 {
      PowZero(eta);
      EndProduct(x, h, eta, 0);
      EndProduct(x, h, eta, |x| / 2);
    } else {
      ConvolutionTheorem(x, h, eta, p);
      MulComm(RealDft(h, eta, p), RealDft(x, eta, p));
    }
    ProductAt(HalfSpectrum(x, eta), HalfSpectrum(h, eta), p);
    HalfSpectrumAt(x, eta, p);
    HalfSpectrumAt(h, eta, p);
    HalfSpectrumAt(Circular(x, h), eta, p);
  }

  lemma ProductAt(u: seq<Complex>, v: seq<Complex>, p: nat)
    requires p < |u| == |v|
    ensures p == 0 ==> Product(u, v)[0] == Complex(u[0].re * v[0].re, u[0].im * v[0].im)
    ensures p > 0 ==> Product(u, v)[p] == Mul(u[p], v[p])
  {
    hide Mul;
  }

  lemma EndProduct(x: seq<real>, h: seq<real>, eta: Complex, k: nat)
    requires |x| > 0 && |h| == |x| && Pow(eta, |x|) == ONE && (Pow(eta, k) == ONE || Pow(eta, k) == Neg(ONE))
    ensures RealDft(Circular(x, h), eta, k).re == RealDft(x, eta, k).re * RealDft(h, eta, k).re
  {
    hide *;
    ConvolutionTheorem(x, h, eta, k);
    EndIsReal(x, eta, k);
    EndIsReal(h, eta, k);
    MulComm(RealDft(h, eta, k), RealDft(x, eta, k));
    RealProduct(RealDft(x, eta, k), RealDft(h, eta, k));
  }

  // ---- the method, and the sequence it is part of ----

  /** Coefficients below j/2 are multiplied. */
  ghost predicate ProductUpTo(s: seq<Complex>, u: seq<Complex>, v: seq<Complex>, p: nat) {
    && |s| == |u| == |v|
    && forall i: nat | i < |u| :: s[i] == if i < p then Product(u, v)[i] else u[i]
  }

  lemma ProductStep(s: seq<Complex>, u: seq<Complex>, v: seq<Complex>, p: nat)
    requires ProductUpTo(s, u, v, p) && 0 < p < |u|
    ensures ProductUpTo(s[p := Mul(s[p], v[p])], u, v, p + 1)
  {
    ProductAt(u, v, p);
    hide Product, Mul;
  }

  lemma ProductStart(u: seq<Complex>, v: seq<Complex>)
    requires |u| == |v| && |u| > 0
    ensures ProductUpTo(u[0 := Complex(u[0].re * v[0].re, u[0].im * v[0].im)], u, v, 1)
  {
    ProductAt(u, v, 0);
    hide Product;
  }

  lemma ProductEnd(s: seq<Complex>, u: seq<Complex>, v: seq<Complex>, p: nat)
    requires ProductUpTo(s, u, v, p) && p >= |u|
    ensures s == Product(u, v)
  {
    hide Product;
  }

  method OrderedConvolve(n: nat, a: array<real>, b: array<real>)
    requires n % 2 == 0 && 0 < n <= a.Length && n <= b.Length && a != b
    modifies a
    ensures Head(a, n) == Product(old(Head(a, n)), Head(b, n))
    ensures a[n..] == old(a[n..])
  {
    hide *;
    ghost var u, v := Head(a, n), Head(b, n);
    HeadAt(a, n, 0);
    HeadAt(b, n, 0);
    HeadIs(a, n);
    HeadIs(b, n);
    ProductStart(u, v);
    EndProducts(u[0], v[0], a[0], a[1], b[0], b[1]);
    var re, im := a[0] * b[0], a[1] * b[1];
    assert Complex(re, im) == Complex(u[0].re * v[0].re, u[0].im * v[0].im);
    SetPair(a, 0, re, im, n);
    var i := 2;
    ghost var p := 1;
    while i < n
      invariant i == 2 * p && 1 <= p && i <= n
      invariant ProductUpTo(Head(a, n), u, v, p)
      invariant a[n..] == old(a[n..])
    {
      MultiplyCell(n, a, b, i, p, u);
      i := i + 2;
      p := p + 1;
    }
    ProductEnd(Head(a, n), u, v, p);
  }

  lemma EndProducts(u: Complex, v: Complex, ar: real, ai: real, br: real, bi: real)
    requires u == Complex(ar, ai) && v == Complex(br, bi)
    ensures Complex(u.re * v.re, u.im * v.im) == Complex(ar * br, ai * bi)
  {
  }

  lemma MulCells(ar: real, ai: real, br: real, bi: real)
    ensures Mul(Complex(ar, ai), Complex(br, bi)) == Complex(br * ar - bi * ai, bi * ar + br * ai)
  {
  }

  method MultiplyCell(n: nat, a: array<real>, b: array<real>, i: nat, ghost p: nat, ghost u: seq<Complex>)
    requires n % 2 == 0 && n <= a.Length && n <= b.Length && a != b && i == 2 * p && 0 < i < n
    requires ProductUpTo(Head(a, n), u, Head(b, n), p) && |u| == n / 2
    modifies a
    ensures ProductUpTo(Head(a, n), u, Head(b, n), p + 1)
    ensures a[n..] == old(a[n..])
  {
    hide *;
    HeadAt(a, n, i);
    HeadAt(b, n, i);
    ProductStep(Head(a, n), u, Head(b, n), p);
    MulCells(a[i], a[i + 1], b[i], b[i + 1]);
    var tmp := a[i];
    var re, im := b[i] * tmp - b[i + 1] * a[i + 1], b[i + 1] * tmp + b[i] * a[i + 1];
    assert Complex(re, im) == Mul(Head(a, n)[p], Head(b, n)[p]);
    SetPair(a, i, re, im, n);
  }

  /** Scaling by n and then by 1/n. */
  lemma ScaleRealsBack(n: nat, y: seq<real>, x: seq<real>)
    requires n > 0 && ScaleReals(1.0 / n as real, y) == x
    ensures y == ScaleReals(n as real, x)
  {
    assert |x| == |y|;
    forall i | 0 <= i < |y| ensures y[i] == ScaleReals(n as real, x)[i] {
      assert x[i] == (1.0 / n as real) * y[i];
      Unscale(1.0 / n as real, n as real, y[i]);
    }
  }

  lemma Unscale(r: real, n: real, y: real)
    requires r * n == 1.0
    ensures n * (r * y) == y
  {
    assert n * (r * y) == (r * n) * y;
  }

  /** Multiply by a spectrum and transform back: circular convolution with the taps of that
      spectrum, times half the length (soxr-sys/src/cr.c, lines 145-146). */
  method MultiplyBack(n: nat, a: array<real>, coefs: array<real>, ghost x: seq<real>, ghost taps: seq<real>,
                      ip: array<nat>, w: array<real>, turn: nat -> Complex, ghost q: nat)
    requires n >= 2 && n % 2 == 0 && n == 2 * Pow2(q) <= Pow2(23)
    requires n <= a.Length && n <= coefs.Length && a != w && a != coefs && coefs != w
    requires IsTurn(turn) && TablesReady(ip, w, turn) && ip.Length >= 2 && TablesRoom(n, ip, w)
    requires |x| == n && Head(a, n) == HalfSpectrum(x, turn(n))
    requires |taps| == n && Head(coefs, n) == HalfSpectrum(taps, turn(n))
    modifies a, ip, w
    ensures TablesReady(ip, w, turn) && TablesRoom(n, ip, w)
    ensures Grown(n, old(ip[0]), old(ip[1]), ip[0], ip[1])
    ensures a[..n] == ScaleReals((n / 2) as real, Circular(x, taps))
    ensures a[n..] == old(a[n..])
  {
    hide *;
    Pow2Two(q + 1);
    TurnRoot(turn, q + 1);
    OrderedConvolve(n, a, coefs);
    ProductOfSpectra(x, taps, turn(n), q);
    Rdft(n, -1, a, ip, w, turn, q);
    SpectrumInjective(turn, ScaleReals(1.0 / (n / 2) as real, a[..n]), Circular(x, taps), q);
    ScaleRealsBack(n / 2, a[..n], Circular(x, taps));
  }

  /** Transform, multiply by a spectrum, transform back (lines 139-146). */
  method ConvolveBlock(n: nat, a: array<real>, coefs: array<real>, ghost taps: seq<real>,
                       ip: array<nat>, w: array<real>, turn: nat -> Complex, ghost q: nat)
    requires n >= 2 && n % 2 == 0 && n == 2 * Pow2(q) <= Pow2(23)
    requires n <= a.Length && n <= coefs.Length && a != w && a != coefs && coefs != w
    requires IsTurn(turn) && TablesReady(ip, w, turn) && ip.Length >= 2 && TablesRoom(n, ip, w)
    requires |taps| == n && Head(coefs, n) == HalfSpectrum(taps, turn(n))
    modifies a, ip, w
    ensures TablesReady(ip, w, turn) && TablesRoom(n, ip, w)
    ensures Grown(n, old(ip[0]), old(ip[1]), ip[0], ip[1])
    ensures a[..n] == ScaleReals((n / 2) as real, Circular(old(a[..n]), taps))
    ensures a[n..] == old(a[n..])
  {
    hide *;
    ghost var x := a[..n];
    Rdft(n, 1, a, ip, w, turn, q);
    ghost var nw, nc := ip[0], ip[1];
    MultiplyBack(n, a, coefs, x, taps, ip, w, turn, q);
    GrownTwice(n, old(ip[0]), old(ip[1]), nw, nc, ip[0], ip[1]);
  }

  lemma GrownTwice(n: nat, a0: nat, a1: nat, b0: nat, b1: nat, c0: nat, c1: nat)
    requires Grown(n, a0, a1, b0, b1) && Grown(n, b0, b1, c0, c1)
    ensures Grown(n, a0, a1, c0, c1)
  {
  }
}
