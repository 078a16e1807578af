/** The transform of fft4g.c is the discrete Fourier transform its documentation defines
    (fft4g.c, lines 32-38): reordering followed by all passes turns x[0..N-1] into
    X[k] = sum over t of x[t] * w^(t*k), w being the N-th root of unity exp(2*pi*i/N). */
module FftTheorem {
  import opened Arith
  import opened Complexes
  import opened BitReversal
  import opened FftView
  import opened FftReorder
  import opened FftPasses

  /** The documented definition. */
  ghost function Dft(x: seq<Complex>, w: Complex, k: nat): Complex {
    Sum(|x|, DftTerms(x, w, k))
  }

  ghost function DftTerms(x: seq<Complex>, w: Complex, k: nat): nat -> Complex {
    (t: nat) => Mul(At(x, t), Pow(w, Times(t, k)))
  }

  /** w stands for exp(2*pi*i/2^q): on the unit circle, and a quarter of the way round it is i. */
  ghost predicate Root(w: Complex, q: nat) {
    && Unit(w)
    && if q == 0 then w == ONE else if q == 1 then w == Neg(ONE) else Pow(w, Pow2(q - 2)) == I
  }

  /** The table holds the powers of w in bit-reversed order. */
  ghost predicate GoodTable(tab: seq<Complex>, w: Complex, q: nat) {
    q > 2 ==> && Pow2(q - 2) <= |tab|
              && forall b: nat | b < Pow2(q - 2) :: At(tab, b) == Pow(w, Rev(q - 2, b))
  }

  // ---- powers of i and of roots ----

  lemma UnitProducts(z: Complex)
    ensures Mul(I, z) == TimesI(z)
    ensures Mul(Neg(ONE), z) == Neg(z)
  {
  }

  lemma IProducts()
    ensures Mul(I, ONE) == I && Mul(I, I) == Neg(ONE) && Mul(I, Neg(ONE)) == Neg(I) && Mul(I, Neg(I)) == ONE
    ensures Mul(Neg(ONE), Neg(ONE)) == ONE
  {
    UnitProducts(ONE);
    UnitProducts(I);
    UnitProducts(Neg(ONE));
    UnitProducts(Neg(I));
    hide Mul;
  }

  lemma IPowers()
    ensures Pow(I, 0) == ONE && Pow(I, 1) == I && Pow(I, 2) == Neg(ONE) && Pow(I, 3) == Neg(I)
    ensures Pow(I, 4) == ONE && Pow(I, 6) == Neg(ONE) && Pow(I, 9) == I
  {
    IProducts();
    hide Mul;
    assert Pow(I, 1) == Mul(I, Pow(I, 0));
    assert Pow(I, 2) == Mul(I, Pow(I, 1));
    assert Pow(I, 3) == Mul(I, Pow(I, 2));
    assert Pow(I, 4) == Mul(I, Pow(I, 3));
    hide Pow;
    IPeriod(1, 2);
    IPeriod(2, 1);
  }

  /** Powers of i have period 4. */
  lemma IPeriod(k: nat, c: nat)
    ensures Pow(I, 4 * k + c) == Pow(I, c)
  {
    assert Pow(I, 4) == ONE by {
      IProducts();
      hide Mul;
      assert Pow(I, 4) == Mul(I, Mul(I, Mul(I, Mul(I, Pow(I, 0)))));
    }
    hide Mul, Pow;
    PowMul(I, 4, k);
    PowOfOne(k);
    PowAdd(I, 4 * k, c);
    MulOne(Pow(I, c));
  }

  /** Half way round a root is -1, all the way round it is 1. */
  lemma RootUnit(w: Complex, q: nat)
    requires Root(w, q)
    ensures Unit(w)
  {
  }

  lemma RootQuarter(w: Complex, q: nat)
    requires Root(w, q) && q >= 2
    ensures Pow(w, Pow2(q - 2)) == I
  {
  }

  lemma RootPowers(w: Complex, q: nat)
    requires Root(w, q)
    ensures Pow(w, Pow2(q)) == ONE
    ensures q >= 1 ==> Pow(w, Pow2(q - 1)) == Neg(ONE)
  {
    IProducts();
    PowOne(w);
    hide Mul, Pow;
    assert Pow2(0) == 1 && Pow2(1) == 2;
    if q >= 2 {
      assert Pow2(q - 1) == 2 * Pow2(q - 2) && Pow2(q) == 4 * Pow2(q - 2);
    }
    hide Pow2;
    if q == 1 {
      PowAdd(w, 1, 1);
    } else if q >= 2 {
      PowMul(w, Pow2(q - 2), 2);
      PowMul(w, Pow2(q - 2), 4);
      IPowers();
    }
  }

  /** Products of a common factor with powers of i add up to a four-point transform. */
  lemma FourIsSum(c: nat, m: Complex, z0: Complex, z1: Complex, z2: Complex, z3: Complex)
    requires c < 4
    ensures Add(Add(Mul(z0, Mul(m, Pow(I, 0))), Mul(z1, Mul(m, Pow(I, 2 * c)))),
                Add(Mul(z2, Mul(m, Pow(I, 1 * c))), Mul(z3, Mul(m, Pow(I, 3 * c))))) ==
            Mul(m, Four(c, z0, z1, z2, z3))
  {
    IPowers();
    hide Pow;
    IFactors(m, z0);
    IFactors(m, z1);
    IFactors(m, z2);
    IFactors(m, z3);
    var y1 := if c == 0 || c == 2 then z1 else Neg(z1);
    var y2 := if c == 0 then z2 else if c == 1 then TimesI(z2) else if c == 2 then Neg(z2) else Neg(TimesI(z2));
    var y3 := if c == 0 then z3 else if c == 1 then Neg(TimesI(z3)) else if c == 2 then Neg(z3) else TimesI(z3);
    FourOf(c, z0, z1, z2, z3);
    hide Mul, Add, Four, Neg, TimesI;
    MulAdd(m, z0, y1);
    MulAdd(m, y2, y3);
    MulAdd(m, Add(z0, y1), Add(y2, y3));
  }

  lemma FourOf(c: nat, z0: Complex, z1: Complex, z2: Complex, z3: Complex)
    requires c < 4
    ensures Four(c, z0, z1, z2, z3) ==
            Add(Add(z0, if c == 0 || c == 2 then z1 else Neg(z1)),
                Add(if c == 0 then z2 else if c == 1 then TimesI(z2) else if c == 2 then Neg(z2) else Neg(TimesI(z2)),
                    if c == 0 then z3 else if c == 1 then Neg(TimesI(z3)) else if c == 2 then Neg(z3) else TimesI(z3)))
  {
  }

  lemma IFactors(m: Complex, z: Complex)
    ensures Mul(z, Mul(m, ONE)) == Mul(m, z)
    ensures Mul(z, Mul(m, Neg(ONE))) == Mul(m, Neg(z))
    ensures Mul(z, Mul(m, I)) == Mul(m, TimesI(z))
    ensures Mul(z, Mul(m, Neg(I))) == Mul(m, Neg(TimesI(z)))
  {
  }

  // ---- the twiddle factors are the right powers ----

  lemma ThirdIsCube(t: Complex)
    requires Unit(t)
    ensures Third(t, Mul(t, t)) == Mul(t, Mul(t, t))
  {
    var x, y, u := t.re, t.im, Mul(t, t);
    TimesUnit(x, x * x + y * y);
    TimesUnit(y, x * x + y * y);
    MulParts(x, y, x, y);
    hide *;
    ThirdExpanded(x, y, u.re, u.im);
    ThirdParts(t, u);
  }

  lemma TimesUnit(x: real, u: real)
    requires u == 1.0
    ensures x == x * u
  {
  }

  lemma ThirdParts(w1: Complex, w2: Complex)
    requires w1.re - 2.0 * w2.im * w1.im == w1.re * w2.re - w1.im * w2.im
    requires 2.0 * w2.im * w1.re - w1.im == w1.re * w2.im + w1.im * w2.re
    ensures Third(w1, w2) == Mul(w1, w2)
  {
    hide *;
    ThirdIs(w1, w2);
    MulParts(w1.re, w1.im, w2.re, w2.im);
  }

  lemma ThirdIs(w1: Complex, w2: Complex)
    ensures Third(w1, w2).re == w1.re - 2.0 * w2.im * w1.im && Third(w1, w2).im == 2.0 * w2.im * w1.re - w1.im
  {
  }

  lemma ThirdExpanded(x: real, y: real, u: real, v: real)
    requires x == x * (x * x + y * y) && y == y * (x * x + y * y)
    requires u == x * x - y * y && v == x * y + y * x
    ensures x - 2.0 * v * y == x * u - y * v
    ensures 2.0 * v * x - y == x * v + y * u
  {
    Expand(x, y);
    Expand(y, x);
  }

  lemma Expand(x: real, y: real)
    ensures x * (x * x + y * y) == x * x * x + x * y * y
    ensures (x * y + y * x) * y == 2.0 * (x * y * y)
    ensures (x * y + y * x) * x == 2.0 * (y * x * x)
    ensures x * (x * x - y * y) == x * x * x - x * y * y
    ensures y * (x * x - y * y) == y * x * x - y * y * y
    ensures x * (x * y + y * x) == 2.0 * (y * x * x)
    ensures y * (x * y + y * x) == 2.0 * (x * y * y)
  {
  }

  /** A square root of i has equal parts. */
  lemma RootOfI(h: Complex)
    requires Mul(h, h) == I
    ensures h.re == h.im
  {
    var x, y := h.re, h.im;
    assert x * x - y * y == 0.0 && x * y + y * x == 1.0;
    assert (x - y) * (x + y) == x * x - y * y;
  }

  /** Squares of table entries are table entries: even blocks. */
  lemma SquareExponent(q: nat, b: nat)
    requires 0 < q && 0 < b < Pow2(q)
    ensures 2 * Rev(q, b) == (if b % 2 == 1 then Pow2(q) else 0) + Rev(q, b / 2)
    ensures Rev(q, 1) == Pow2(q - 1)
  {
    hide *;
    RevUnfold(q, b);
    RevUnfold(q, 1);
    RevZero(q - 1);
    Pow2Two(q);
    Pow2Small();
    RevExtend(q - 1, 1, b / 2);
  }

  lemma PowSquare(w: Complex, e: nat)
    ensures Mul(Pow(w, e), Pow(w, e)) == Pow(w, 2 * e)
    ensures Mul(Pow(w, e), Pow(w, 2 * e)) == Pow(w, 3 * e)
  {
    hide Mul, Pow;
    PowAdd(w, e, e);
    PowAdd(w, e, 2 * e);
  }

  lemma TwiddleIsPower(tab: seq<Complex>, w: Complex, q: nat, b: nat, c: nat)
    requires q >= 2 && Root(w, q) && GoodTable(tab, w, q) && b < Pow2(q - 2) && c < 4
    ensures Twiddle(tab, b, c) == Pow(w, Rev(q - 2, b) * c)
  {
    if b == 0 || c == 0 {
      RevZero(q - 2);
      hide Mul, Rev, Pow2, Root, GoodTable;
      assert Rev(q - 2, b) * c == 0;
      assert Pow(w, 0) == ONE;
    } else {
      Pow2Small();
      hide *;
      var e := Rev(q - 2, b);
      TwiddleFactors(tab, w, q, b);
      PowSquare(w, e);
      TimesSmall(e, c);
    }
  }

  lemma TimesSmall(e: nat, c: nat)
    requires 0 < c < 4
    ensures c == 1 ==> e * c == e
    ensures c == 2 ==> e * c == 2 * e
    ensures c == 3 ==> e * c == 3 * e
  {
  }

  lemma TwiddleFactors(tab: seq<Complex>, w: Complex, q: nat, b: nat)
    requires q > 2 && Root(w, q) && GoodTable(tab, w, q) && 0 < b < Pow2(q - 2)
    ensures var t := Pow(w, Rev(q - 2, b));
            Twiddle(tab, b, 1) == t && Twiddle(tab, b, 2) == Mul(t, t) && Twiddle(tab, b, 3) == Mul(t, Mul(t, t))
  {
    hide *;
    var t := Pow(w, Rev(q - 2, b));
    TableEntries(tab, w, q, b);
    TwiddleSquare(w, q, b);
    ThirdIsCube(t);
    if b == 1 {
      EighthRoot(t);
    }
    TwiddleIs(tab, b);
  }

  lemma TableEntries(tab: seq<Complex>, w: Complex, q: nat, b: nat)
    requires q > 2 && GoodTable(tab, w, q) && b < Pow2(q - 2)
    ensures At(tab, b) == Pow(w, Rev(q - 2, b)) && At(tab, b / 2) == Pow(w, Rev(q - 2, b / 2))
  {
    hide Pow, Rev, Pow2, At;
  }

  lemma TwiddleIs(tab: seq<Complex>, b: nat)
    requires b > 0
    ensures b == 1 ==> && Twiddle(tab, b, 1) == Complex(At(tab, 1).re, At(tab, 1).re)
                       && Twiddle(tab, b, 2) == I && Twiddle(tab, b, 3) == TimesI(Twiddle(tab, b, 1))
    ensures b > 1 ==> && Twiddle(tab, b, 1) == At(tab, b)
                      && Twiddle(tab, b, 2) == (if b % 2 == 0 then At(tab, b / 2) else TimesI(At(tab, b / 2)))
                      && Twiddle(tab, b, 3) == Third(Twiddle(tab, b, 1), Twiddle(tab, b, 2))
  {
  }

  lemma EighthRoot(t: Complex)
    requires Mul(t, t) == I
    ensures t == Complex(t.re, t.re)
    ensures Mul(t, Mul(t, t)) == TimesI(t)
  {
    RootOfI(t);
    MulComm(t, I);
    UnitProducts(t);
  }

  /** The square of the first factor of block b is the entry of block b/2, times i if b is odd. */
  lemma TwiddleSquare(w: Complex, q: nat, b: nat)
    requires q > 2 && Root(w, q) && 0 < b < Pow2(q - 2)
    ensures var t, h := Pow(w, Rev(q - 2, b)), Pow(w, Rev(q - 2, b / 2));
            && Unit(t)
            && Mul(t, t) == (if b % 2 == 1 then TimesI(h) else h)
            && (b == 1 ==> Mul(t, t) == I)
  {
    SquareExponent(q - 2, b);
    RevZero(q - 2);
    assert Pow(w, 0) == ONE && Pow(w, Pow2(q - 2)) == I;
    hide Pow, Mul, Rev, Pow2;
    var e, f := Rev(q - 2, b), Rev(q - 2, b / 2);
    PowSquare(w, e);
    PowUnit(w, e);
    if b % 2 == 1 {
      PowAdd(w, Pow2(q - 2), f);
      UnitProducts(Pow(w, f));
    }
    if b == 1 {
      MulOne(I);
    }
  }

  // ---- one pass takes the transform two bits further ----

  /** A product of three numbers; by name, so that proofs can hide it. */
  function Prod(x: nat, y: nat, z: nat): nat {
    x * y * z
  }

  function Times(x: nat, y: nat): nat {
    x * y
  }

  /** Entry r of column s, with stride d. */
  function Index(d: nat, r: nat, s: nat): nat {
    s + d * r
  }

  /** After the passes up to stride 2^u, what entry r of column s still contributes to the
      coefficient with upper part k. */
  ghost function Term(a: seq<Complex>, w: Complex, q: nat, u: nat, s: nat, k: nat, r: nat): Complex
    requires u <= q
  {
    Mul(At(a, Index(Pow2(u), r, s)), Pow(w, Prod(Pow2(u), Rev(q - u, r), k)))
  }

  ghost function Partial(a: seq<Complex>, w: Complex, q: nat, u: nat, s: nat, k: nat): Complex
    requires u <= q
  {
    Sum(Pow2(q - u), Terms(a, w, q, u, s, k))
  }

  ghost function Terms(a: seq<Complex>, w: Complex, q: nat, u: nat, s: nat, k: nat): nat -> Complex
    requires u <= q
  {
    (r: nat) => Term(a, w, q, u, s, k, r)
  }

  /** Every coefficient of x's transform is a transform of size 2^(q-u) of one column of a. */
  ghost predicate Reached(a: seq<Complex>, w: Complex, q: nat, u: nat, x: seq<Complex>) {
    && u <= q
    && |a| == |x| == Pow2(q)
    && forall s: nat, k: nat | s < Pow2(u) && k < Pow2(q - u) :: ReachedAt(a, w, q, u, x, s, k)
  }

  ghost predicate ReachedAt(a: seq<Complex>, w: Complex, q: nat, u: nat, x: seq<Complex>, s: nat, k: nat)
    requires u <= q
  {
    Partial(a, w, q, u, s, k) == Dft(x, w, Index(Pow2(u), k, s))
  }

  lemma ExponentSum(d: nat, v: nat, g: nat, t: nat, c: nat, k: nat)
    ensures Prod(d, Times(v, g) + t, c + 4 * k) ==
            (Prod(4 * d, t, k) + Prod(d, t, c))
            + (Prod(1, Times(d, g), Times(v, c)) + Prod(4, Times(d, g), Times(v, k)))
  {
    MulDistrib(d, v * g, t);
    MulDistribRight(c + 4 * k, d * (v * g), d * t);
    MulDistrib(d * t, c, 4 * k);
    MulDistrib(d * (v * g), c, 4 * k);
    Shuffle(d, v, g, c);
    Shuffle(d, v, g, 4 * k);
    assert v * (4 * k) == 4 * (v * k);
    assert d * t * (4 * k) == 4 * d * t * k;
  }

  lemma Shuffle(d: nat, v: nat, g: nat, c: nat)
    ensures d * (v * g) * c == d * g * (v * c)
  {
    MulAssoc3(d, v, g);
    MulAssoc3(v, d * g, c);
  }

  lemma PowQuarters(w: Complex, h: nat, n: nat)
    requires Pow(w, h) == I
    ensures Pow(w, Prod(1, h, n)) == Pow(I, n)
    ensures Pow(w, Prod(4, h, n)) == ONE
  {
    hide Pow, Mul;
    PowMul(w, h, n);
    PowMul(w, h, 4 * n);
    IPeriod(n, 0);
    IPowers();
    assert h * (4 * n) == 4 * h * n;
  }

  lemma PowSplit(w: Complex, e1: nat, e2: nat, x: nat, y: nat)
    requires Pow(w, y) == ONE
    ensures Pow(w, (e1 + e2) + (x + y)) == Mul(Mul(Pow(w, e1), Pow(w, e2)), Pow(w, x))
  {
    hide Pow, Mul;
    PowAdd(w, e1 + e2, x + y);
    PowAdd(w, e1, e2);
    PowAdd(w, x, y);
    MulOne(Pow(w, x));
  }

  ghost function Factor(w: Complex, d: nat, t: nat, c: nat, k: nat): Complex {
    Mul(Pow(w, Prod(4 * d, t, k)), Pow(w, Prod(d, t, c)))
  }

  /** The exponent of one term splits into the part kept for later passes, the twiddle factor
      and a power of i. */
  lemma TermPower(w: Complex, d: nat, v: nat, g: nat, t: nat, c: nat, k: nat)
    requires Pow(w, Times(d, g)) == I
    ensures Pow(w, Prod(d, Times(v, g) + t, c + 4 * k)) ==
            Mul(Factor(w, d, t, c, k), Pow(I, Times(v, c)))
  {
    hide Pow, Mul, Prod, Times;
    ExponentSum(d, v, g, t, c, k);
    PowParts(w, Prod(4 * d, t, k), Prod(d, t, c), Times(d, g), Times(v, c), Times(v, k));
  }

  lemma PowParts(w: Complex, e1: nat, e2: nat, h: nat, m: nat, n: nat)
    requires Pow(w, h) == I
    ensures Pow(w, (e1 + e2) + (Prod(1, h, m) + Prod(4, h, n))) == Mul(Mul(Pow(w, e1), Pow(w, e2)), Pow(I, m))
  {
    hide Pow, Mul, Prod;
    PowQuarters(w, h, m);
    PowQuarters(w, h, n);
    PowSplit(w, e1, e2, Prod(1, h, m), Prod(4, h, n));
  }

  /** Reversal of a block number followed by two bits. */
  lemma RevOfFour(m: nat, b: nat, i: nat)
    requires b < Pow2(m) && i < 4
    ensures Rev(m + 2, 4 * b + i) == Times(Rev2(i), Pow2(m)) + Rev(m, b)
  {
    RevSmall(i);
    assert Pow2(2) == 4 by {
      assert Pow2(2) == 2 * Pow2(1) && Pow2(1) == 2 * Pow2(0);
    }
    hide Rev, Pow2, Rev2;
    RevSplit(m, 2, b, i);
  }

  lemma OneTerm(a: seq<Complex>, w: Complex, u: nat, m: nat, s: nat, c: nat, k: nat, b: nat, i: nat)
    requires Root(w, u + 2 + m) && b < Pow2(m) && i < 4
    ensures Term(a, w, u + 2 + m, u, s, c + 4 * k, 4 * b + i) ==
            Mul(At(a, Index(4 * Pow2(u), b, s) + Times(i, Pow2(u))),
                Mul(Factor(w, Pow2(u), Rev(m, b), c, k), Pow(I, Times(Rev2(i), c))))
  {
    hide *;
    QuarterTurn(w, u, m);
    TermIs(a, w, u + 2 + m, u, s, c + 4 * k, 4 * b + i);
    RevOfFour(m, b, i);
    TermPower(w, Pow2(u), Rev2(i), Pow2(m), Rev(m, b), c, k);
    TermIndex(Pow2(u), b, i, s);
    assert u + 2 + m - u == m + 2;
  }

  lemma TermIs(a: seq<Complex>, w: Complex, q: nat, u: nat, s: nat, k: nat, r: nat)
    requires u <= q
    ensures Term(a, w, q, u, s, k, r) == Mul(At(a, Index(Pow2(u), r, s)), Pow(w, Prod(Pow2(u), Rev(q - u, r), k)))
  {
  }

  lemma QuarterTurn(w: Complex, u: nat, m: nat)
    requires Root(w, u + 2 + m)
    ensures Pow(w, Times(Pow2(u), Pow2(m))) == I
  {
    hide Pow;
    Pow2Add(u, m);
    assert u + 2 + m - 2 == u + m;
  }

  lemma TermIndex(d: nat, b: nat, i: nat, s: nat)
    ensures Index(d, 4 * b + i, s) == Index(4 * d, b, s) + Times(i, d)
  {
    MulDistrib(d, 4 * b, i);
    MulAssoc3(d, 4, b);
  }

  /** The entry of the next stage that block b of the pass produces. */
  lemma PassedEntry(tab: seq<Complex>, a: seq<Complex>, w: Complex, u: nat, m: nat, s: nat, c: nat, b: nat)
    requires Root(w, u + 2 + m) && GoodTable(tab, w, u + 2 + m) && |a| == Pow2(u + 2 + m)
    requires s < Pow2(u) && c < 4 && b < Pow2(m)
    ensures var d, e := Pow2(u), Index(4 * Pow2(u), b, s);
            At(Pass(tab, d, a), Index(Pow2(u + 2), b, s + Times(c, d))) ==
            Mul(Pow(w, Prod(d, Rev(m, b), c)),
                Four(c, At(a, e), At(a, e + d), At(a, e + 2 * d), At(a, e + 3 * d)))
  {
    hide *;
    var d := Pow2(u);
    PassedBound(u, m, s, c, b);
    PassedTwiddle(tab, w, u, m, c, b);
    PassedPlace(d, b, s, c);
    PassAtIndex(tab, d, a, b, c, s);
    EntryIs(tab, d, a, b, c, s);
  }

  lemma PassedPlace(d: nat, b: nat, s: nat, c: nat)
    ensures Index(4 * d, b, s + Times(c, d)) == 4 * d * b + c * d + s
    ensures Index(4 * d, b, s) == 4 * d * b + s
  {
  }

  lemma PassAtIndex(tab: seq<Complex>, d: nat, a: seq<Complex>, b: nat, c: nat, s: nat)
    requires s < d && c < 4 && 4 * d * b + c * d + s < |a|
    ensures At(Pass(tab, d, a), 4 * d * b + c * d + s) == PassEntry(tab, d, a, b, c, s)
  {
    hide PassEntry;
    PassIndex(d, b, c, s);
  }

  lemma EntryIs(tab: seq<Complex>, d: nat, a: seq<Complex>, b: nat, c: nat, s: nat)
    ensures var e := 4 * d * b + s;
            PassEntry(tab, d, a, b, c, s) ==
            Mul(Twiddle(tab, b, c), Four(c, At(a, e), At(a, e + d), At(a, e + 2 * d), At(a, e + 3 * d)))
  {
    hide Mul, Four, Twiddle;
  }

  lemma PassedBound(u: nat, m: nat, s: nat, c: nat, b: nat)
    requires s < Pow2(u) && c < 4 && b < Pow2(m)
    ensures Pow2(u + 2) == 4 * Pow2(u)
    ensures 4 * Pow2(u) * b + c * Pow2(u) + s < Pow2(u + 2 + m)
  {
    assert Pow2(u + 2) == 2 * Pow2(u + 1) == 4 * Pow2(u);
    Pow2Add(u + 2, m);
    hide Pow2;
    DigitsBound(Pow2(u), 4, s, c);
    DigitsBound(4 * Pow2(u), Pow2(m), s + Pow2(u) * c, b);
  }

  /** The same table serves every stage. */
  lemma PassedTwiddle(tab: seq<Complex>, w: Complex, u: nat, m: nat, c: nat, b: nat)
    requires Root(w, u + 2 + m) && GoodTable(tab, w, u + 2 + m) && c < 4 && b < Pow2(m)
    ensures Twiddle(tab, b, c) == Pow(w, Prod(Pow2(u), Rev(m, b), c))
  {
    Pow2Monotone(m, u + m);
    hide *;
    RevExtend(m, u, b);
    assert u + 2 + m - 2 == u + m == m + u;
    TwiddleIsPower(tab, w, u + 2 + m, b, c);
    ProdIs(Pow2(u), Rev(m, b), c, Rev(u + m, b));
  }

  lemma ProdIs(p: nat, r: nat, c: nat, v: nat)
    requires v == r * p
    ensures v * c == Prod(p, r, c)
  {
  }

  lemma StepTerm(tab: seq<Complex>, a: seq<Complex>, w: Complex, u: nat, m: nat, s: nat, c: nat, k: nat, b: nat)
    requires Root(w, u + 2 + m) && GoodTable(tab, w, u + 2 + m) && |a| == Pow2(u + 2 + m)
    requires s < Pow2(u) && c < 4 && b < Pow2(m)
    ensures var q, j := u + 2 + m, c + 4 * k;
            Term(Pass(tab, Pow2(u), a), w, q, u + 2, s + Times(c, Pow2(u)), k, b) ==
            Add(Add(Term(a, w, q, u, s, j, 4 * b), Term(a, w, q, u, s, j, 4 * b + 1)),
                Add(Term(a, w, q, u, s, j, 4 * b + 2), Term(a, w, q, u, s, j, 4 * b + 3)))
  {
    hide *;
    var d, e, t := Pow2(u), Index(4 * Pow2(u), b, s), Rev(m, b);
    OneTerm(a, w, u, m, s, c, k, b, 0);
    OneTerm(a, w, u, m, s, c, k, b, 1);
    OneTerm(a, w, u, m, s, c, k, b, 2);
    OneTerm(a, w, u, m, s, c, k, b, 3);
    Offsets(d, c);
    FourIsSum(c, Factor(w, d, t, c, k), At(a, e), At(a, e + d), At(a, e + 2 * d), At(a, e + 3 * d));
    TermIs(Pass(tab, d, a), w, u + 2 + m, u + 2, s + Times(c, d), k, b);
    PassedEntry(tab, a, w, u, m, s, c, b);
    PassedBound(u, m, s, c, b);
    FactorIs(w, d, t, c, k, Four(c, At(a, e), At(a, e + d), At(a, e + 2 * d), At(a, e + 3 * d)));
    assert u + 2 + m - (u + 2) == m;
  }

  lemma Offsets(d: nat, c: nat)
    ensures Times(0, d) == 0 && Times(1, d) == d && Times(2, d) == 2 * d && Times(3, d) == 3 * d
    ensures Times(Rev2(0), c) == 0 && Times(Rev2(1), c) == 2 * c && Times(Rev2(2), c) == 1 * c
        && Times(Rev2(3), c) == 3 * c
  {
  }

  lemma FactorIs(w: Complex, d: nat, t: nat, c: nat, k: nat, z: Complex)
    ensures Mul(Factor(w, d, t, c, k), z) == Mul(Mul(Pow(w, Prod(d, t, c)), z), Pow(w, Prod(4 * d, t, k)))
  {
    hide Pow, Mul, Prod;
    var x, y := Pow(w, Prod(4 * d, t, k)), Pow(w, Prod(d, t, c));
    MulAssoc(x, y, z);
    MulComm(x, Mul(y, z));
  }

  lemma StepSum(tab: seq<Complex>, a: seq<Complex>, w: Complex, u: nat, m: nat, s: nat, c: nat, k: nat)
    requires Root(w, u + 2 + m) && GoodTable(tab, w, u + 2 + m) && |a| == Pow2(u + 2 + m)
    requires s < Pow2(u) && c < 4
    ensures Partial(Pass(tab, Pow2(u), a), w, u + 2 + m, u + 2, s + Times(c, Pow2(u)), k) ==
            Partial(a, w, u + 2 + m, u, s, c + 4 * k)
  {
    hide *;
    var q, r := u + 2 + m, Pass(tab, Pow2(u), a);
    var f, g := Terms(a, w, q, u, s, c + 4 * k), Terms(r, w, q, u + 2, s + Times(c, Pow2(u)), k);
    forall b: nat | b < Pow2(m)
      ensures g(b) == Add(Add(f(4 * b), f(4 * b + 1)), Add(f(4 * b + 2), f(4 * b + 3)))
    {
      StepTerm(tab, a, w, u, m, s, c, k, b);
      TermsAt(r, w, q, u + 2, s + Times(c, Pow2(u)), k, b);
      TermsAt(a, w, q, u, s, c + 4 * k, 4 * b);
      TermsAt(a, w, q, u, s, c + 4 * k, 4 * b + 1);
      TermsAt(a, w, q, u, s, c + 4 * k, 4 * b + 2);
      TermsAt(a, w, q, u, s, c + 4 * k, 4 * b + 3);
    }
    SumByFours(Pow2(m), f, g);
    PartialIs(a, w, q, u, s, c + 4 * k);
    PartialIs(r, w, q, u + 2, s + Times(c, Pow2(u)), k);
    assert q - (u + 2) == m && q - u == m + 2;
    Pow2Four(m);
  }

  lemma Pow2Four(m: nat)
    ensures Pow2(m + 2) == 4 * Pow2(m)
  {
    assert Pow2(m + 2) == 2 * Pow2(m + 1);
  }

  lemma TermsAt(a: seq<Complex>, w: Complex, q: nat, u: nat, s: nat, k: nat, r: nat)
    requires u <= q
    ensures Terms(a, w, q, u, s, k)(r) == Term(a, w, q, u, s, k, r)
  {
    hide Term;
  }

  lemma PartialIs(a: seq<Complex>, w: Complex, q: nat, u: nat, s: nat, k: nat)
    requires u <= q
    ensures Partial(a, w, q, u, s, k) == Sum(Pow2(q - u), Terms(a, w, q, u, s, k))
  {
  }

  // ---- all passes together ----

  lemma ReachedStep(tab: seq<Complex>, a: seq<Complex>, w: Complex, q: nat, u: nat, x: seq<Complex>)
    requires u + 2 <= q && Root(w, q) && GoodTable(tab, w, q) && Reached(a, w, q, u, x)
    ensures Reached(Pass(tab, Pow2(u), a), w, q, u + 2, x)
  {
    var r, next := Pass(tab, Pow2(u), a), u + 2;
    hide Pow2, Pass, Root, GoodTable, ReachedAt;
    forall s: nat, k: nat | s < Pow2(next) && k < Pow2(q - next) ensures ReachedAt(r, w, q, next, x, s, k) {
      ReachedStepAt(tab, a, w, q, u, x, s, k);
    }
  }

  lemma ReachedStepAt(tab: seq<Complex>, a: seq<Complex>, w: Complex, q: nat, u: nat, x: seq<Complex>, s: nat, k: nat)
    requires u + 2 <= q && Root(w, q) && GoodTable(tab, w, q) && Reached(a, w, q, u, x)
    requires s < Pow2(u + 2) && k < Pow2(q - u - 2)
    ensures ReachedAt(Pass(tab, Pow2(u), a), w, q, u + 2, x, s, k)
  {
    var d, m := Pow2(u), q - u - 2;
    hide *;
    Pow2Four(u);
    Pow2Four(m);
    var c, s0 := QuarterOf(d, s);
    assert u + 2 + m == q;
    ReachedUse(a, w, q, u, x, s0, c + 4 * k);
    StepSum(tab, a, w, u, m, s0, c, k);
    IndexSplit(d, c, k, s0);
    ReachedIs(Pass(tab, d, a), w, q, u + 2, x, s, k);
  }

  lemma QuarterOf(d: nat, s: nat) returns (c: nat, s0: nat)
    requires s < 4 * d
    ensures c < 4 && s0 < d && s == s0 + Times(c, d)
  {
    c := if s < d then 0 else if s < 2 * d then 1 else if s < 3 * d then 2 else 3;
    s0 := if c == 0 then s else if c == 1 then s - d else if c == 2 then s - 2 * d else s - 3 * d;
  }

  lemma ReachedUse(a: seq<Complex>, w: Complex, q: nat, u: nat, x: seq<Complex>, s: nat, k: nat)
    requires Reached(a, w, q, u, x) && s < Pow2(u) && k < Pow2(q - u)
    ensures Partial(a, w, q, u, s, k) == Dft(x, w, Index(Pow2(u), k, s)) && |a| == Pow2(q)
  {
    assert ReachedAt(a, w, q, u, x, s, k);
  }

  lemma ReachedIs(a: seq<Complex>, w: Complex, q: nat, u: nat, x: seq<Complex>, s: nat, k: nat)
    requires u <= q
    ensures ReachedAt(a, w, q, u, x, s, k) <==> Partial(a, w, q, u, s, k) == Dft(x, w, Index(Pow2(u), k, s))
  {
  }

  lemma IndexSplit(d: nat, c: nat, k: nat, s: nat)
    ensures Index(d, c + 4 * k, s) == Index(4 * d, k, s + Times(c, d))
  {
    MulDistrib(d, c, 4 * k);
    MulAssoc3(d, 4, k);
  }

  lemma HalfReached(a: seq<Complex>, w: Complex, q: nat, x: seq<Complex>, s: nat, c: nat)
    requires 1 <= q && Root(w, q) && Reached(a, w, q, q - 1, x) && s < Pow2(q - 1) && c < 2
    ensures |a| == 2 * Pow2(q - 1)
    ensures Dft(x, w, if c == 0 then s else s + Pow2(q - 1)) ==
            (if c == 0 then Add(a[s], a[s + Pow2(q - 1)]) else Sub(a[s], a[s + Pow2(q - 1)]))
  {
    hide *;
    HalfPartial(a, w, q, x, s, c);
    PartialIs(a, w, q, q - 1, s, c);
    HalfTerms(a, w, q, s, c);
    SumTwo(Terms(a, w, q, q - 1, s, c));
    HalfSub(a, s, s + Pow2(q - 1));
  }

  lemma HalfSub(a: seq<Complex>, i: nat, j: nat)
    requires i < |a| && j < |a|
    ensures At(a, i) == a[i] && At(a, j) == a[j] && Add(a[i], Neg(a[j])) == Sub(a[i], a[j])
  {
  }

  lemma HalfPartial(a: seq<Complex>, w: Complex, q: nat, x: seq<Complex>, s: nat, c: nat)
    requires 1 <= q && Reached(a, w, q, q - 1, x) && s < Pow2(q - 1) && c < 2
    ensures |a| == 2 * Pow2(q - 1) && Pow2(q - (q - 1)) == 2
    ensures Partial(a, w, q, q - 1, s, c) == Dft(x, w, if c == 0 then s else s + Pow2(q - 1))
  {
    hide *;
    HalfSizes(q, s);
    ReachedUse(a, w, q, q - 1, x, s, c);
    assert c == 0 || c == 1;
  }

  lemma HalfSizes(q: nat, s: nat)
    requires 1 <= q
    ensures Pow2(q) == 2 * Pow2(q - 1) && Pow2(q - (q - 1)) == 2
    ensures Index(Pow2(q - 1), 0, s) == s && Index(Pow2(q - 1), 1, s) == s + Pow2(q - 1)
  {
    assert Pow2(1) == 2 * Pow2(0) == 2;
  }

  lemma SumTwo(f: nat -> Complex)
    ensures Sum(1, f) == f(0) && Sum(2, f) == Add(f(0), f(1))
  {
    assert Sum(2, f) == Add(Sum(1, f), f(1)) && Sum(1, f) == Add(Sum(0, f), f(0));
    AddZero(f(0));
  }

  lemma HalfTerms(a: seq<Complex>, w: Complex, q: nat, s: nat, c: nat)
    requires 1 <= q && Root(w, q) && c < 2
    ensures Terms(a, w, q, q - 1, s, c)(0) == At(a, s)
    ensures Terms(a, w, q, q - 1, s, c)(1) == (if c == 0 then At(a, s + Pow2(q - 1)) else Neg(At(a, s + Pow2(q - 1))))
  {
    var d := Pow2(q - 1);
    TermsAt(a, w, q, q - 1, s, c, 0);
    TermsAt(a, w, q, q - 1, s, c, 1);
    RootPowers(w, q);
    RevSmall(0);
    RevSmall(1);
    assert q - (q - 1) == 1;
    assert Pow(w, 0) == ONE;
    hide Terms, Rev, Pow2, Pow, Mul;
    MulOne(At(a, s));
    MulOne(At(a, s + d));
    MulComm(Neg(ONE), At(a, s + d));
    UnitProducts(At(a, s + d));
    assert Prod(d, 0, c) == 0 && Prod(d, 1, 0) == 0 && Prod(d, 1, 1) == d;
    assert Index(d, 0, s) == s && Index(d, 1, s) == s + d;
  }

  lemma EndReached(a: seq<Complex>, w: Complex, q: nat, x: seq<Complex>, s: nat)
    requires Reached(a, w, q, q, x) && s < Pow2(q)
    ensures a[s] == Dft(x, w, s)
  {
    assert Pow2(q - q) == 1;
    assert ReachedAt(a, w, q, q, x, s, 0);
    TermsAt(a, w, q, q, s, 0, 0);
    SumTwo(Terms(a, w, q, q, s, 0));
    assert Pow(w, 0) == ONE;
    hide Terms, Mul, Pow, Pow2;
    assert Prod(Pow2(q), Rev(0, 0), 0) == 0 && Index(Pow2(q), 0, s) == s;
    MulOne(a[s]);
  }

  /** From any stage on, the remaining passes finish the transform. */
  lemma {:induction false} PassesFinish(tab: seq<Complex>, a: seq<Complex>, w: Complex, q: nat, u: nat,
      x: seq<Complex>, k: nat)
    requires Root(w, q) && GoodTable(tab, w, q) && Reached(a, w, q, u, x) && k < Pow2(q)
    ensures Passes(tab, q, u, a)[k] == Dft(x, w, k)
    decreases q - u
  {
    hide *;
    ReachedLength(a, w, q, u, x);
    if u == q {
      PassesNone(tab, q, a);
      EndReached(a, w, q, x, k);
    } else if u + 1 == q {
      FinishHalf(tab, a, w, q, x, k);
    } else {
      ReachedStep(tab, a, w, q, u, x);
      PassesUnfold(tab, q, u, a);
      PassesFinish(tab, Pass(tab, Pow2(u), a), w, q, u + 2, x, k);
    }
  }

  lemma PassesNone(tab: seq<Complex>, q: nat, a: seq<Complex>)
    requires |a| == Pow2(q)
    ensures Passes(tab, q, q, a) == a
  {
  }

  lemma FinishHalf(tab: seq<Complex>, a: seq<Complex>, w: Complex, q: nat, x: seq<Complex>, k: nat)
    requires 1 <= q && Root(w, q) && Reached(a, w, q, q - 1, x) && k < Pow2(q) && |a| == Pow2(q)
    ensures Passes(tab, q, q - 1, a)[k] == Dft(x, w, k)
  {
    hide *;
    var d := Pow2(q - 1);
    Pow2Two(q);
    PassesLast(tab, q, q - 1, a);
    HalfPassAt(d, a, k);
    if k < d {
      HalfReached(a, w, q, x, k, 0);
    } else {
      HalfReached(a, w, q, x, k - d, 1);
    }
  }

  lemma ReachedLength(a: seq<Complex>, w: Complex, q: nat, u: nat, x: seq<Complex>)
    requires Reached(a, w, q, u, x)
    ensures |a| == |x| == Pow2(q) && u <= q
  {
  }

  ghost function Upper(f: nat -> Complex, n: nat): nat -> Complex {
    (t: nat) => f(n + t)
  }

  ghost function Folded(f: nat -> Complex, n: nat): nat -> Complex {
    (t: nat) => Add(f(t), f(n + t))
  }

  ghost function Paired(g: nat -> Complex): nat -> Complex {
    (r: nat) => Add(g(2 * r), g(2 * r + 1))
  }

  lemma FoldedAt(f: nat -> Complex, n: nat, t: nat)
    ensures Upper(f, n)(t) == f(n + t)
    ensures Folded(f, n)(t) == Add(f(t), f(n + t))
  {
    hide Add;
  }

  lemma FoldedSum(f: nat -> Complex, n: nat)
    ensures Sum(n, Folded(f, n)) == Sum(2 * n, f)
  {
    hide *;
    var u, v := Upper(f, n), Folded(f, n);
    forall i: nat | i < n ensures v(i) == Add(f(i), u(i)) && u(i) == f(n + i) {
      FoldedAt(f, n, i);
    }
    SumAdd(n, f, u, v);
    SumConcat(n, n, f, u);
  }

  lemma PairedSum(g: nat -> Complex, n: nat)
    ensures Sum(n, Paired(g)) == Sum(2 * n, g)
  {
    hide Sum, Add;
    SumByTwos(n, g, Paired(g));
  }

  /** A sum may be taken in bit-reversed order. */
  lemma {:induction false} SumReversed(q: nat, f: nat -> Complex, g: nat -> Complex)
    requires forall r: nat | r < Pow2(q) :: g(r) == f(Rev(q, r))
    ensures Sum(Pow2(q), g) == Sum(Pow2(q), f)
  {
    hide *;
    if q == 0 {
      SumReversedZero(f, g);
    } else {
      Pow2Two(q);
      var n := Pow2(q - 1);
      var v, h := Folded(f, n), Paired(g);
      forall r: nat | r < n ensures h(r) == v(Rev(q - 1, r)) {
        PairFolds(q, f, g, r);
      }
      SumReversed(q - 1, v, h);
      FoldedSum(f, n);
      PairedSum(g, n);
    }
  }

  lemma SumReversedZero(f: nat -> Complex, g: nat -> Complex)
    requires forall r: nat | r < Pow2(0) :: g(r) == f(Rev(0, r))
    ensures Sum(Pow2(0), g) == Sum(Pow2(0), f)
  {
    SumTwo(f);
    SumTwo(g);
    assert g(0) == f(Rev(0, 0));
  }

  lemma PairFolds(q: nat, f: nat -> Complex, g: nat -> Complex, r: nat)
    requires q > 0 && r < Pow2(q - 1)
    requires forall r: nat | r < Pow2(q) :: g(r) == f(Rev(q, r))
    ensures Paired(g)(r) == Folded(f, Pow2(q - 1))(Rev(q - 1, r))
  {
    hide *;
    Pow2Two(q);
    assert g(2 * r) == f(Rev(q, 2 * r)) && g(2 * r + 1) == f(Rev(q, 2 * r + 1));
    PairedAt(g, r);
    FoldedAt(f, Pow2(q - 1), Rev(q - 1, r));
    RevPair(q, r);
  }

  lemma PairedAt(g: nat -> Complex, r: nat)
    ensures Paired(g)(r) == Add(g(2 * r), g(2 * r + 1))
  {
    hide Add;
  }

  lemma RevPair(q: nat, r: nat)
    requires q > 0
    ensures Rev(q, 2 * r) == Rev(q - 1, r) && Rev(q, 2 * r + 1) == Pow2(q - 1) + Rev(q - 1, r)
  {
    hide Pow2, Rev;
    RevUnfold(q, 2 * r);
    RevUnfold(q, 2 * r + 1);
  }

  lemma ReachedStart(w: Complex, q: nat, x: seq<Complex>)
    requires |x| == Pow2(q)
    ensures Reached(Reordered(false, q, x), w, q, 0, x)
  {
    var a := Reordered(false, q, x);
    assert Pow2(0) == 1;
    forall s: nat, k: nat | s < Pow2(0) && k < Pow2(q - 0) ensures ReachedAt(a, w, q, 0, x, s, k) {
      assert s == 0 && Index(1, k, 0) == k;
      StartSum(w, q, x, k);
    }
  }

  lemma StartSum(w: Complex, q: nat, x: seq<Complex>, k: nat)
    requires |x| == Pow2(q)
    ensures Partial(Reordered(false, q, x), w, q, 0, 0, k) == Dft(x, w, k)
  {
    var a := Reordered(false, q, x);
    var f, g := DftTerms(x, w, k), Terms(a, w, q, 0, 0, k);
    assert Pow2(0) == 1;
    forall r: nat | r < Pow2(q) ensures g(r) == f(Rev(q, r)) {
      TermsAt(a, w, q, 0, 0, k, r);
      RevBound(q, r);
      assert a[r] == x[Rev(q, r)];
      hide Rev, Pow, Mul, Sum, Pow2;
      assert Index(1, r, 0) == r && Prod(1, Rev(q, r), k) == Times(Rev(q, r), k);
    }
    SumReversed(q, f, g);
  }

  /** Reordering and all passes compute the documented transform, for every power of two. */
  lemma FftIsDft(tab: seq<Complex>, w: Complex, q: nat, x: seq<Complex>, k: nat)
    requires Root(w, q) && GoodTable(tab, w, q) && |x| == Pow2(q) && k < Pow2(q)
    ensures Passes(tab, q, 0, Reordered(false, q, x))[k] == Dft(x, w, k)
  {
    ReachedStart(w, q, x);
    PassesFinish(tab, Reordered(false, q, x), w, q, 0, x, k);
  }
}
