/** Complex numbers over exact reals, finite sums and powers: the algebra that the
    transforms of fft4g.c are specified with.  Proofs about sums and powers hide the
    component-wise definitions, so that the solver sees a ring and nothing else. */
module Complexes {

  datatype Complex = Complex(re: real, im: real)

  const ZERO := Complex(0.0, 0.0)
  const ONE := Complex(1.0, 0.0)
  const I := Complex(0.0, 1.0)

  function Real(x: real): Complex {
    Complex(x, 0.0)
  }

  function Add(x: Complex, y: Complex): Complex {
    Complex(x.re + y.re, x.im + y.im)
  }

  function Sub(x: Complex, y: Complex): Complex {
    Complex(x.re - y.re, x.im - y.im)
  }

  function Neg(x: Complex): Complex {
    Complex(-x.re, -x.im)
  }

  function Mul(x: Complex, y: Complex): Complex {
    Complex(x.re * y.re - x.im * y.im, x.re * y.im + x.im * y.re)
  }

  function Conj(x: Complex): Complex {
    Complex(x.re, -x.im)
  }

  function Scale(s: real, x: Complex): Complex {
    Complex(s * x.re, s * x.im)
  }

  /** On the unit circle: the only thing asked of a cos/sin pair besides the addition formula,
      which is what multiplying two such pairs means. */
  ghost predicate Unit(x: Complex) {
    x.re * x.re + x.im * x.im == 1.0
  }

  function Pow(x: Complex, k: nat): Complex {
    if k == 0 then ONE else Mul(x, Pow(x, k - 1))
  }

  /** f(0) + ... + f(n-1). */
  ghost function Sum(n: nat, f: nat -> Complex): Complex {
    if n == 0 then ZERO else Add(Sum(n - 1, f), f(n - 1))
  }

  // ---- ring laws ----

  lemma MulAssoc(x: Complex, y: Complex, z: Complex)
    ensures Mul(Mul(x, y), z) == Mul(x, Mul(y, z))
  {
  }

  lemma MulComm(x: Complex, y: Complex)
    ensures Mul(x, y) == Mul(y, x)
  {
  }

  lemma MulOne(x: Complex)
    ensures Mul(ONE, x) == x && Mul(x, ONE) == x
  {
  }

  lemma MulZero(x: Complex)
    ensures Mul(ZERO, x) == ZERO && Mul(x, ZERO) == ZERO
  {
  }

  lemma AddZero(x: Complex)
    ensures Add(ZERO, x) == x && Add(x, ZERO) == x
  {
  }

  lemma AddComm(x: Complex, y: Complex)
    ensures Add(x, y) == Add(y, x)
  {
  }

  lemma AddAssoc(x: Complex, y: Complex, z: Complex)
    ensures Add(Add(x, y), z) == Add(x, Add(y, z))
  {
  }

  lemma MulAdd(x: Complex, y: Complex, z: Complex)
    ensures Mul(x, Add(y, z)) == Add(Mul(x, y), Mul(x, z))
    ensures Mul(Add(y, z), x) == Add(Mul(y, x), Mul(z, x))
  {
  }

  /** (x y)(z w) == (x z)(y w). */
  lemma MulSwap(x: Complex, y: Complex, z: Complex, w: Complex)
    ensures Mul(Mul(x, y), Mul(z, w)) == Mul(Mul(x, z), Mul(y, w))
  {
    hide *;
    MulAssoc(x, y, Mul(z, w));
    MulAssoc(y, z, w);
    MulComm(y, z);
    MulAssoc(z, y, w);
    MulAssoc(x, z, Mul(y, w));
  }

  lemma ConjLaws(x: Complex, y: Complex)
    ensures Conj(Mul(x, y)) == Mul(Conj(x), Conj(y))
    ensures Conj(Add(x, y)) == Add(Conj(x), Conj(y))
    ensures Conj(Sub(x, y)) == Sub(Conj(x), Conj(y))
    ensures Conj(Conj(x)) == x
  {
  }

  lemma UnitConj(x: Complex)
    ensures Unit(x) <==> Mul(x, Conj(x)) == ONE
    ensures Unit(Conj(x)) <==> Unit(x)
  {
  }

  lemma UnitMul(x: Complex, y: Complex)
    requires Unit(x) && Unit(y)
    ensures Unit(Mul(x, y))
  {
    UnitConj(x);
    UnitConj(y);
    UnitConj(Mul(x, y));
    ConjLaws(x, y);
    MulSwap(x, y, Conj(x), Conj(y));
    MulOne(ONE);
  }

  lemma MulParts(wr: real, wi: real, xr: real, xi: real)
    ensures Mul(Complex(wr, wi), Complex(xr, xi)) == Complex(wr * xr - wi * xi, wr * xi + wi * xr)
    ensures Mul(Complex(wr, -wi), Complex(xr, xi)) == Complex(wr * xr + wi * xi, wr * xi - wi * xr)
  {
  }

  // ---- powers ----

  lemma {:induction false} PowAdd(x: Complex, a: nat, b: nat)
    ensures Pow(x, a + b) == Mul(Pow(x, a), Pow(x, b))
  {
    hide Mul;
    if a == 0 {
      MulOne(Pow(x, b));
    } else {
      PowAdd(x, a - 1, b);
      MulAssoc(x, Pow(x, a - 1), Pow(x, b));
    }
  }

  lemma PowOne(x: Complex)
    ensures Pow(x, 1) == x
  {
    assert Pow(x, 1) == Mul(x, Pow(x, 0));
    MulOne(x);
  }

  lemma {:induction false} PowOfOne(k: nat)
    ensures Pow(ONE, k) == ONE
  {
    hide Mul;
    if k > 0 {
      PowOfOne(k - 1);
      MulOne(ONE);
    }
  }

  lemma {:induction false} PowMul(x: Complex, a: nat, b: nat)
    ensures Pow(Pow(x, a), b) == Pow(x, a * b)
  {
    hide Mul;
    if b > 0 {
      PowMul(x, a, b - 1);
      assert a * b == a + a * (b - 1);
      PowAdd(x, a, a * (b - 1));
    }
  }

  lemma {:induction false} PowMulBase(x: Complex, y: Complex, k: nat)
    ensures Pow(Mul(x, y), k) == Mul(Pow(x, k), Pow(y, k))
  {
    hide Mul;
    if k == 0 {
      MulOne(ONE);
    } else {
      PowMulBase(x, y, k - 1);
      MulSwap(x, y, Pow(x, k - 1), Pow(y, k - 1));
    }
  }

  lemma {:induction false} PowConj(x: Complex, k: nat)
    ensures Pow(Conj(x), k) == Conj(Pow(x, k))
  {
    hide Mul;
    if k == 0 {
    } else {
      PowConj(x, k - 1);
      ConjLaws(x, Pow(x, k - 1));
    }
  }

  lemma {:induction false} PowUnit(x: Complex, k: nat)
    requires Unit(x)
    ensures Unit(Pow(x, k))
  {
    hide Mul;
    if k > 0 {
      PowUnit(x, k - 1);
      UnitMul(x, Pow(x, k - 1));
    }
  }

  // ---- sums ----

  lemma {:induction false} SumCongruence(n: nat, f: nat -> Complex, g: nat -> Complex)
    requires forall i: nat | i < n :: f(i) == g(i)
    ensures Sum(n, f) == Sum(n, g)
  {
    if n > 0 {
      SumCongruence(n - 1, f, g);
    }
  }

  lemma {:induction false} SumAdd(n: nat, f: nat -> Complex, g: nat -> Complex, h: nat -> Complex)
    requires forall i: nat | i < n :: h(i) == Add(f(i), g(i))
    ensures Sum(n, h) == Add(Sum(n, f), Sum(n, g))
  {
    if n > 0 {
      SumAdd(n - 1, f, g, h);
    }
  }

  lemma {:induction false} SumScale(n: nat, c: Complex, f: nat -> Complex, h: nat -> Complex)
    requires forall i: nat | i < n :: h(i) == Mul(c, f(i))
    ensures Sum(n, h) == Mul(c, Sum(n, f))
  {
    hide Mul, Add;
    if n == 0 {
      MulZero(c);
    } else {
      SumScale(n - 1, c, f, h);
      MulAdd(c, Sum(n - 1, f), f(n - 1));
    }
  }

  lemma {:induction false} SumZero(n: nat, f: nat -> Complex)
    requires forall i: nat | i < n :: f(i) == ZERO
    ensures Sum(n, f) == ZERO
  {
    if n > 0 {
      SumZero(n - 1, f);
    }
  }

  /** A sum with one non-zero term. */
  lemma {:induction false} SumSingle(n: nat, f: nat -> Complex, k: nat)
    requires k < n
    requires forall i: nat | i < n && i != k :: f(i) == ZERO
    ensures Sum(n, f) == f(k)
  {
    if k == n - 1 {
      SumZero(n - 1, f);
    } else {
      SumSingle(n - 1, f, k);
    }
  }

  lemma {:induction false} SumConj(n: nat, f: nat -> Complex, h: nat -> Complex)
    requires forall i: nat | i < n :: h(i) == Conj(f(i))
    ensures Sum(n, h) == Conj(Sum(n, f))
  {
    if n > 0 {
      SumConj(n - 1, f, h);
    }
  }

  lemma {:induction false} SumConcat(m: nat, n: nat, f: nat -> Complex, g: nat -> Complex)
    requires forall i: nat | i < n :: g(i) == f(m + i)
    ensures Sum(m + n, f) == Add(Sum(m, f), Sum(n, g))
  {
    if n > 0 {
      SumConcat(m, n - 1, f, g);
    }
  }

  /** Exchange of the order of summation: rows and columns of the same table. */
  lemma {:induction false} SumExchange(m: nat, n: nat, f: (nat, nat) -> Complex,
                                       rows: nat -> Complex, cols: nat -> Complex)
    requires forall i: nat | i < m :: rows(i) == Sum(n, (j: nat) => f(i, j))
    requires forall j: nat | j < n :: cols(j) == Sum(m, (i: nat) => f(i, j))
    ensures Sum(m, rows) == Sum(n, cols)
  {
    if m == 0 {
      SumZero(n, cols);
    } else {
      var upper := (j: nat) => Sum(m - 1, (i: nat) => f(i, j));
      SumExchange(m - 1, n, f, rows, upper);
      var last := (j: nat) => f(m - 1, j);
      forall j: nat | j < n ensures cols(j) == Add(upper(j), last(j)) {
        assert cols(j) == Sum(m, (i: nat) => f(i, j));
      }
      SumAdd(n, upper, last, cols);
    }
  }

  /** Two neighbouring terms at a time. */
  lemma {:induction false} SumByTwos(n: nat, f: nat -> Complex, g: nat -> Complex)
    requires forall i: nat | i < n :: g(i) == Add(f(2 * i), f(2 * i + 1))
    ensures Sum(2 * n, f) == Sum(n, g)
  {
    if n > 0 {
      SumByTwos(n - 1, f, g);
      var k := 2 * (n - 1);
      assert Sum(k + 2, f) == Add(Add(Sum(k, f), f(k)), f(k + 1));
    }
  }

  /** Four neighbouring terms at a time. */
  lemma SumByFours(n: nat, f: nat -> Complex, g: nat -> Complex)
    requires forall i: nat | i < n :: g(i) == Add(Add(f(4 * i), f(4 * i + 1)), Add(f(4 * i + 2), f(4 * i + 3)))
    ensures Sum(4 * n, f) == Sum(n, g)
  {
    hide Add, Sum;
    var h := (i: nat) => Add(f(2 * i), f(2 * i + 1));
    SumByTwos(2 * n, f, h);
    forall i: nat | i < n ensures g(i) == Add(h(2 * i), h(2 * i + 1)) {
      assert 2 * (2 * i) == 4 * i && 2 * (2 * i + 1) == 4 * i + 2;
    }
    SumByTwos(n, h, g);
  }

  // ---- sums of real numbers ----

  /** f(0) + ... + f(n-1). */
  function RealSum(n: nat, f: nat -> real): real {
    if n == 0 then 0.0 else RealSum(n - 1, f) + f(n - 1)
  }

  lemma {:induction false} RealSumCongruence(n: nat, f: nat -> real, g: nat -> real)
    requires forall i: nat | i < n :: f(i) == g(i)
    ensures RealSum(n, f) == RealSum(n, g)
  {
    if n > 0 {
      RealSumCongruence(n - 1, f, g);
    }
  }

  lemma {:induction false} RealSumIsSum(n: nat, f: nat -> real, g: nat -> Complex)
    requires forall i: nat | i < n :: g(i) == Real(f(i))
    ensures Real(RealSum(n, f)) == Sum(n, g)
  {
    if n > 0 {
      RealSumIsSum(n - 1, f, g);
    }
  }
}
