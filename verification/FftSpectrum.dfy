/** The real transform documented in fft4g.c (lines 68-110), its relation to the complex one,
    and the inversion theorem. */
module FftSpectrum {
  import opened Arith
  import opened Complexes
  import opened BitReversal
  import opened FftView
  import opened FftPasses
  import opened FftTheorem
  import opened FftReal

  // ---- orthogonality of the powers of a root of unity ----

  ghost function Powers(v: Complex): nat -> Complex {
    (k: nat) => Pow(v, k)
  }

  lemma PowersAt(v: Complex, k: nat)
    ensures Powers(v)(k) == Pow(v, k)
  {
    hide Pow;
  }

  lemma RootSquare(w: Complex, q: nat)
    requires q > 0 && Root(w, q)
    ensures Root(Mul(w, w), q - 1)
  {
    hide *;
    RootUnit(w, q);
    UnitMul(w, w);
    PowMul(w, 2, if q >= 3 then Pow2(q - 3) else 0);
    SquareIs(w);
    if q == 1 {
      RootSmall(w, 1);
      IProducts();
    } else if q == 2 {
      RootSmall(w, 2);
      IProducts();
    } else {
      RootQuarter(w, q);
      Pow2Two(q - 2);
    }
    RootIs(Mul(w, w), q - 1);
  }

  lemma RootSmall(w: Complex, q: nat)
    requires Root(w, q)
    ensures q == 0 ==> w == ONE
    ensures q == 1 ==> w == Neg(ONE)
    ensures q == 2 ==> w == I
  {
    if q == 2 {
      assert Pow2(0) == 1;
      PowOne(w);
    }
  }

  lemma RootIs(w: Complex, q: nat)
    requires Unit(w)
    ensures q == 0 ==> (Root(w, q) <==> w == ONE)
    ensures q == 1 ==> (Root(w, q) <==> w == Neg(ONE))
    ensures q >= 2 ==> (Root(w, q) <==> Pow(w, Pow2(q - 2)) == I)
  {
  }

  lemma SquareIs(w: Complex)
    ensures Pow(w, 2) == Mul(w, w)
  {
    PowOne(w);
    hide Pow, Mul;
    PowAdd(w, 1, 1);
  }

  /** The powers of a root other than 1 add up to nothing over a full turn. */
  lemma {:induction false} Orthogonal(w: Complex, q: nat, d: nat)
    requires Root(w, q) && 0 < d < Pow2(q)
    ensures Sum(Pow2(q), Powers(Pow(w, d))) == ZERO
    decreases q
  {
    hide *;
    if q == 0 {
      Pow2Small();
    } else {
      var h, v := Pow2(q - 1), Pow(w, d);
      Pow2Two(q);
      RootPowers(w, q);
      FoldedSum(Powers(v), h);
      if d % 2 == 1 {
        OddTurn(w, h, d);
        forall k: nat | k < h ensures Folded(Powers(v), h)(k) == ZERO {
          FoldedPower(v, h, k);
          AddNeg(Pow(v, k));
        }
        SumZero(h, Folded(Powers(v), h));
      } else {
        var e := d / 2;
        RootSquare(w, q);
        RootPowers(Mul(w, w), q - 1);
        EvenTurn(w, h, d);
        Orthogonal(Mul(w, w), q - 1, e);
        forall k: nat | k < h ensures Folded(Powers(v), h)(k) == Add(Powers(v)(k), Powers(v)(k)) {
          FoldedPower(v, h, k);
          PowersAt(v, k);
        }
        SumAdd(h, Powers(v), Powers(v), Folded(Powers(v), h));
        AddZero(ZERO);
      }
    }
  }

  lemma AddNeg(z: Complex)
    ensures Add(z, Neg(z)) == ZERO
  {
  }

  /** Terms k and h+k of the sum of powers. */
  lemma FoldedPower(v: Complex, h: nat, k: nat)
    requires Pow(v, h) == ONE || Pow(v, h) == Neg(ONE)
    ensures Folded(Powers(v), h)(k) == Add(Pow(v, k), if Pow(v, h) == ONE then Pow(v, k) else Neg(Pow(v, k)))
  {
    hide *;
    FoldedAt(Powers(v), h, k);
    PowersAt(v, k);
    PowersAt(v, h + k);
    PowAdd(v, h, k);
    UnitProducts(Pow(v, k));
    MulOne(Pow(v, k));
  }

  lemma NegPower(d: nat)
    ensures Pow(Neg(ONE), d) == if d % 2 == 0 then ONE else Neg(ONE)
  {
    hide *;
    IProducts();
    SquareIs(Neg(ONE));
    PowMul(Neg(ONE), 2, d / 2);
    PowOfOne(d / 2);
    if d % 2 == 1 {
      PowAdd(Neg(ONE), 2 * (d / 2), 1);
      PowOne(Neg(ONE));
      MulOne(Neg(ONE));
    }
  }

  lemma OddTurn(w: Complex, h: nat, d: nat)
    requires Pow(w, h) == Neg(ONE) && d % 2 == 1
    ensures Pow(Pow(w, d), h) == Neg(ONE) != ONE
  {
    hide Pow, Mul;
    PowMul(w, d, h);
    PowMul(w, h, d);
    NegPower(d);
    assert d * h == h * d;
  }

  lemma EvenTurn(w: Complex, h: nat, d: nat)
    requires d % 2 == 0 && Pow(Mul(w, w), h) == ONE
    ensures Pow(w, d) == Pow(Mul(w, w), d / 2)
    ensures Pow(Pow(w, d), h) == ONE
  {
    hide *;
    var e := d / 2;
    SquareIs(w);
    PowMul(w, 2, e);
    assert d == 2 * e;
    PowMul(Mul(w, w), e, h);
    PowMul(Mul(w, w), h, e);
    PowOfOne(e);
    assert e * h == h * e;
  }

  // ---- the inverse transform ----

  /** The whole spectrum as a sequence. */
  ghost function Spectrum(x: seq<Complex>, w: Complex): (r: seq<Complex>)
    ensures |r| == |x|
  {
    seq(|x|, k requires 0 <= k < |x| => Dft(x, w, k))
  }

  function ScaleAll(r: real, s: seq<Complex>): (t: seq<Complex>)
    ensures |t| == |s|
  {
    seq(|s|, p requires 0 <= p < |s| => Scale(r, s[p]))
  }

  /** Entry (k, s) of the double sum that transforming there and back makes. */
  ghost function Kernel(x: seq<Complex>, w: Complex, t: nat): (nat, nat) -> Complex {
    (k: nat, s: nat) => Mul(At(x, s), Pow(Mul(Pow(w, s), Conj(Pow(w, t))), k))
  }

  ghost function KernelColumn(x: seq<Complex>, w: Complex, t: nat, s: nat): nat -> Complex {
    (k: nat) => Kernel(x, w, t)(k, s)
  }

  ghost function KernelRow(x: seq<Complex>, w: Complex, t: nat, k: nat): nat -> Complex {
    (s: nat) => Kernel(x, w, t)(k, s)
  }

  lemma KernelAt(x: seq<Complex>, w: Complex, t: nat, s: nat, k: nat)
    ensures KernelColumn(x, w, t, s)(k) == Mul(At(x, s), Pow(Mul(Pow(w, s), Conj(Pow(w, t))), k))
    ensures KernelRow(x, w, t, k)(s) == Mul(At(x, s), Pow(Mul(Pow(w, s), Conj(Pow(w, t))), k))
    ensures Kernel(x, w, t)(k, s) == Mul(At(x, s), Pow(Mul(Pow(w, s), Conj(Pow(w, t))), k))
  {
    hide Pow, Mul, Conj;
    assert Kernel(x, w, t)(k, s) == Mul(At(x, s), Pow(Mul(Pow(w, s), Conj(Pow(w, t))), k));
    hide Kernel;
  }

  /** The quotient of two powers of a root: 1 if they are the same, else another power of the
      root or of its conjugate. */
  lemma Quotient(w: Complex, s: nat, t: nat)
    requires Unit(w)
    ensures s == t ==> Mul(Pow(w, s), Conj(Pow(w, t))) == ONE
    ensures s > t ==> Mul(Pow(w, s), Conj(Pow(w, t))) == Pow(w, s - t)
    ensures s < t ==> Mul(Pow(w, s), Conj(Pow(w, t))) == Conj(Pow(w, t - s))
  {
    hide *;
    var m := if s < t then s else t;
    var u := Pow(w, m);
    PowUnit(w, m);
    UnitConj(u);
    if s > t {
      PowAdd(w, s - t, t);
      MulAssoc(Pow(w, s - t), u, Conj(u));
      MulOne(Pow(w, s - t));
    } else if s < t {
      PowAdd(w, s, t - s);
      ConjLaws(u, Pow(w, t - s));
      MulAssoc(u, Conj(u), Conj(Pow(w, t - s)));
      MulOne(Conj(Pow(w, t - s)));
    }
  }

  /** One column of the double sum. */
  lemma ColumnSum(x: seq<Complex>, w: Complex, q: nat, t: nat, s: nat)
    requires Root(w, q) && t < Pow2(q) && s < Pow2(q)
    ensures Sum(Pow2(q), KernelColumn(x, w, t, s)) == if s == t then Scale(Pow2(q) as real, At(x, s)) else ZERO
  {
    hide *;
    var n, g := Pow2(q), Mul(Pow(w, s), Conj(Pow(w, t)));
    forall k: nat | k < n ensures KernelColumn(x, w, t, s)(k) == Mul(At(x, s), Powers(g)(k)) {
      KernelAt(x, w, t, s, k);
      PowersAt(g, k);
    }
    SumScale(n, At(x, s), Powers(g), KernelColumn(x, w, t, s));
    RootUnit(w, q);
    Quotient(w, s, t);
    if s == t {
      OnesSum(n);
      MulReal(n as real, At(x, s));
      MulComm(At(x, s), Complex(n as real, 0.0));
    } else {
      if s > t {
        Orthogonal(w, q, s - t);
      } else {
        Orthogonal(w, q, t - s);
        ConjSum(n, Pow(w, t - s));
      }
      MulZero(At(x, s));
    }
  }

  lemma {:induction false} OnesSum(n: nat)
    ensures Sum(n, Powers(ONE)) == Complex(n as real, 0.0)
  {
    hide *;
    SumUnfold(n, Powers(ONE));
    if n > 0 {
      OnesSum(n - 1);
      PowersAt(ONE, n - 1);
      PowOfOne(n - 1);
    }
    RealCount(n);
  }

  lemma SumUnfold(n: nat, f: nat -> Complex)
    ensures Sum(n, f) == if n == 0 then ZERO else Add(Sum(n - 1, f), f(n - 1))
  {
  }

  lemma RealCount(n: nat)
    ensures n == 0 ==> Complex(n as real, 0.0) == ZERO
    ensures n > 0 ==> Add(Complex((n - 1) as real, 0.0), ONE) == Complex(n as real, 0.0)
  {
  }

  lemma ConjSum(n: nat, v: Complex)
    requires Sum(n, Powers(v)) == ZERO
    ensures Sum(n, Powers(Conj(v))) == ZERO
  {
    hide *;
    forall k: nat | k < n ensures Powers(Conj(v))(k) == Conj(Powers(v)(k)) {
      PowersAt(v, k);
      PowersAt(Conj(v), k);
      PowConj(v, k);
    }
    SumConj(n, Powers(v), Powers(Conj(v)));
    ConjZero();
  }

  lemma ConjZero()
    ensures Conj(ZERO) == ZERO
  {
  }

  /** Transforming the conjugated spectrum gives back the conjugated data, times the length. */
  lemma InverseEntry(x: seq<Complex>, w: Complex, q: nat, t: nat)
    requires Root(w, q) && |x| == Pow2(q) && t < Pow2(q)
    ensures Conj(Dft(ConjAll(Spectrum(x, w)), w, t)) == Scale(Pow2(q) as real, x[t])
  {
    hide *;
    var n, y := Pow2(q), ConjAll(Spectrum(x, w));
    var rows, cols := ConjTerms(y, w, t), ColumnSums(x, w, n, t);
    DftIs(y, w, t);
    forall k: nat | k < n ensures rows(k) == Conj(DftTerms(y, w, t)(k)) {
      ConjTermsAt(y, w, t, k);
    }
    SumConj(n, DftTerms(y, w, t), rows);
    forall k: nat | k < n ensures rows(k) == Sum(n, (s: nat) => Kernel(x, w, t)(k, s)) {
      RowSum(x, w, t, k);
    }
    forall s: nat | s < n ensures cols(s) == Sum(n, (k: nat) => Kernel(x, w, t)(k, s)) {
      ColumnSumsAt(x, w, n, t, s);
    }
    SumExchange(n, n, Kernel(x, w, t), rows, cols);
    forall s: nat | s < n ensures cols(s) == if s == t then Scale(n as real, At(x, s)) else ZERO {
      ColumnSumsAt(x, w, n, t, s);
      ColumnSum(x, w, q, t, s);
    }
    SumSingle(n, cols, t);
    AtIs(x, t);
  }

  lemma AtIs(x: seq<Complex>, t: nat)
    requires t < |x|
    ensures At(x, t) == x[t]
  {
  }

  ghost function ConjTerms(y: seq<Complex>, w: Complex, t: nat): nat -> Complex {
    (k: nat) => Conj(DftTerms(y, w, t)(k))
  }

  lemma ConjTermsAt(y: seq<Complex>, w: Complex, t: nat, k: nat)
    ensures ConjTerms(y, w, t)(k) == Conj(DftTerms(y, w, t)(k))
  {
    hide DftTerms, Conj;
  }

  ghost function ColumnSums(x: seq<Complex>, w: Complex, n: nat, t: nat): nat -> Complex {
    (s: nat) => Sum(n, (k: nat) => Kernel(x, w, t)(k, s))
  }

  lemma ColumnSumsAt(x: seq<Complex>, w: Complex, n: nat, t: nat, s: nat)
    ensures ColumnSums(x, w, n, t)(s) == Sum(n, (k: nat) => Kernel(x, w, t)(k, s))
    ensures ColumnSums(x, w, n, t)(s) == Sum(n, KernelColumn(x, w, t, s))
  {
    hide Kernel, Sum;
    SumCongruence(n, KernelColumn(x, w, t, s), (k: nat) => Kernel(x, w, t)(k, s));
  }

  lemma DftIs(x: seq<Complex>, w: Complex, k: nat)
    ensures Dft(x, w, k) == Sum(|x|, DftTerms(x, w, k))
  {
  }

  lemma DftTermsAt(x: seq<Complex>, w: Complex, k: nat, t: nat)
    ensures DftTerms(x, w, k)(t) == Mul(At(x, t), Pow(w, Times(t, k)))
  {
    hide Mul, Pow;
  }

  /** One row of the double sum: coefficient k, turned back by t*k. */
  lemma RowSum(x: seq<Complex>, w: Complex, t: nat, k: nat)
    requires k < |x|
    ensures ConjTerms(ConjAll(Spectrum(x, w)), w, t)(k) == Sum(|x|, (s: nat) => Kernel(x, w, t)(k, s))
  {
    hide *;
    var n, y, u := |x|, ConjAll(Spectrum(x, w)), Conj(Pow(w, Times(k, t)));
    ConjTermsAt(y, w, t, k);
    DftTermsAt(y, w, t, k);
    SpectrumAt(x, w, k);
    ConjLaws(At(y, k), Pow(w, Times(k, t)));
    DftIs(x, w, k);
    forall s: nat | s < n ensures KernelRow(x, w, t, k)(s) == Mul(u, DftTerms(x, w, k)(s)) {
      DftTermsAt(x, w, k, s);
      KernelAt(x, w, t, s, k);
      KernelSplit(At(x, s), w, s, t, k);
    }
    SumScale(n, u, DftTerms(x, w, k), KernelRow(x, w, t, k));
    MulComm(Dft(x, w, k), u);
    RowIs(x, w, n, t, k);
  }

  lemma RowIs(x: seq<Complex>, w: Complex, n: nat, t: nat, k: nat)
    ensures Sum(n, KernelRow(x, w, t, k)) == Sum(n, (s: nat) => Kernel(x, w, t)(k, s))
  {
    hide Kernel, Sum;
    SumCongruence(n, KernelRow(x, w, t, k), (s: nat) => Kernel(x, w, t)(k, s));
  }

  lemma SpectrumAt(x: seq<Complex>, w: Complex, k: nat)
    requires k < |x|
    ensures Spectrum(x, w)[k] == Dft(x, w, k)
    ensures At(ConjAll(Spectrum(x, w)), k) == Conj(Dft(x, w, k)) && |ConjAll(Spectrum(x, w))| == |x|
    ensures Conj(At(ConjAll(Spectrum(x, w)), k)) == Dft(x, w, k)
  {
    hide Dft;
  }

  lemma KernelSplit(z: Complex, w: Complex, s: nat, t: nat, k: nat)
    ensures Mul(z, Pow(Mul(Pow(w, s), Conj(Pow(w, t))), k)) ==
        Mul(Conj(Pow(w, Times(k, t))), Mul(z, Pow(w, Times(s, k))))
  {
    hide *;
    PowMulBase(Pow(w, s), Conj(Pow(w, t)), k);
    PowConj(Pow(w, t), k);
    PowTimes(w, s, k);
    PowTimes(w, t, k);
    MulRotate(z, Pow(w, Times(s, k)), Conj(Pow(w, Times(k, t))));
  }

  lemma PowTimes(w: Complex, t: nat, k: nat)
    ensures Pow(Pow(w, t), k) == Pow(w, Times(t, k))
    ensures Times(t, k) == Times(k, t)
  {
    hide Pow, Mul;
    PowMul(w, t, k);
  }

  lemma MulRotate(z: Complex, a: Complex, b: Complex)
    ensures Mul(z, Mul(a, b)) == Mul(b, Mul(z, a))
  {
    hide *;
    MulAssoc(z, a, b);
    MulComm(Mul(z, a), b);
  }

  /** Conjugating, transforming and conjugating undoes the transform, up to the factor N. */
  lemma InverseTransform(x: seq<Complex>, w: Complex, q: nat)
    requires Root(w, q) && |x| == Pow2(q)
    ensures ConjAll(Spectrum(ConjAll(Spectrum(x, w)), w)) == ScaleAll(Pow2(q) as real, x)
  {
    var y := ConjAll(Spectrum(x, w));
    hide Dft, Root, Pow2, Conj, Scale;
    forall t: nat | t < |x| ensures ConjAll(Spectrum(y, w))[t] == ScaleAll(Pow2(q) as real, x)[t] {
      InverseEntry(x, w, q, t);
    }
  }
}
