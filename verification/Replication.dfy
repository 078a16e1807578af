/** Zeros stuffed in the frequency domain (soxr-sys/src/cr.c, lines 87-124): the spectrum of the
    short block, repeated around the circle, is the spectrum of the zero-stuffed long one. */
module Replication {
  import opened Arith
  import opened Complexes
  import opened BitReversal
  import opened FftView
  import opened FftTheorem
  import opened FftReal
  import opened FftTables
  import opened FftSpectrum
  import opened FftRealSpectrum
  import opened FftInverse
  import opened Convolution
  import opened OverlapSave

  // ---- copies of a spectrum ----

  /** The packed half-spectrum of length size made of copies of the spectrum packed in z. */
  function Replicated(z: seq<Complex>, size: nat): (r: seq<Complex>)
    requires |z| > 0
    ensures |r| == size / 2
  {
    seq(size / 2, b requires 0 <= b < size / 2 => ReplicatedAt(z, b))
  }

  function ReplicatedAt(z: seq<Complex>, b: nat): Complex
    requires |z| > 0
  {
    if b == 0 then Complex(At(z, 0).re, At(z, 0).re) else Full(z, b % (2 * |z|))
  }

  // ---- the spectrum is periodic ----

  lemma NextPeriod(x: seq<real>, w: Complex, b: nat)
    requires Pow(w, |x|) == ONE
    ensures RealDft(x, w, b + |x|) == RealDft(x, w, b)
  {
    hide *;
    var n := |x|;
    forall j: nat | j < n ensures RealTerms(x, w, b + n)(j) == RealTerms(x, w, b)(j) {
      RealTermsAt(x, w, b + n, j);
      RealTermsAt(x, w, b, j);
      TimesAdd(j, b, n);
      PowAdd(w, Times(j, b), Times(j, n));
      TurnsAway(w, n, j);
      MulOne(Pow(w, Times(j, b)));
    }
    SumCongruence(n, RealTerms(x, w, b + n), RealTerms(x, w, b));
    RealDftIs(x, w, b + n);
    RealDftIs(x, w, b);
  }

  lemma {:induction false} Periodic(x: seq<real>, w: Complex, b: nat, m: nat)
    requires Pow(w, |x|) == ONE
    ensures RealDft(x, w, b + Times(|x|, m)) == RealDft(x, w, b)
    decreases m
  {
    hide *;
    TimesSteps(m, |x|);
    TimesSwap(|x|, m);
    if m > 0 {
      TimesSwap(|x|, m - 1);
      Periodic(x, w, b, m - 1);
      NextPeriod(x, w, b + Times(|x|, m - 1));
    }
  }

  lemma TimesSwap(a: nat, b: nat)
    ensures Times(a, b) == Times(b, a)
  {
  }

  // ---- the transform of a zero-stuffed block ----

  ghost function Moved(f: nat -> Complex, m: nat): nat -> Complex {
    (i: nat) => f(m + i)
  }

  /** A sum in which only every l-th term counts. */
  lemma {:induction false} SumStride(l: nat, n: nat, f: nat -> Complex, g: nat -> Complex)
    requires l > 0
    requires forall j: nat | j < n :: f(Times(l, j)) == g(j)
    requires forall i: nat | i < Times(l, n) && i % l != 0 :: f(i) == ZERO
    ensures Sum(Times(l, n), f) == Sum(n, g)
  {
    hide *;
    TimesSwap(l, n);
    TimesSteps(n, l);
    SumUnfold(n, g);
    if n == 0 {
      SumUnfold(0, f);
    } else {
      TimesSwap(l, n - 1);
      var m := Times(l, n - 1);
      SumStride(l, n - 1, f, g);
      var h := Moved(f, m);
      assert h.requires(0);
      forall i: nat | i < l ensures h(i) == f(m + i) {
        MovedAt(f, m, i);
      }
      forall i: nat | i < l && i != 0 ensures h(i) == ZERO {
        OffStride(l, n - 1, i);
      }
      SumSingle(l, h, 0);
      SumConcat(m, l, f, h);
    }
  }

  lemma MovedAt(f: nat -> Complex, m: nat, i: nat)
    ensures Moved(f, m)(i) == f(m + i)
  {
  }

  lemma OffStride(l: nat, k: nat, r: nat)
    requires r < l
    ensures (Times(l, k) + r) % l == r && (Times(l, k) + r) / l == k
  {
    DigitsDivMod(l, r, k);
  }

  lemma SpreadCells(s: seq<real>, l: nat, n: nat, i: nat)
    requires l > 0 && n <= |s| && i < Times(l, n)
    ensures var y := Spread(s, l, 0, Times(l, n));
            && (i % l != 0 ==> Cell(y, i) == 0.0)
            && (i % l == 0 ==> i / l < n && Cell(y, i) == Cell(s[..n], i / l))
  {
    var y := Spread(s, l, 0, Times(l, n));
    assert y[i] == Stuffed(s, l, 0, i);
    QuotientBound(l, n, i);
  }

  lemma SpreadTransform(s: seq<real>, l: nat, n: nat, w: Complex, b: nat)
    requires l > 0 && n <= |s|
    ensures RealDft(Spread(s, l, 0, Times(l, n)), w, b) == RealDft(s[..n], Pow(w, l), b)
  {
    hide *;
    var y, x := Spread(s, l, 0, Times(l, n)), s[..n];
    var f, g := RealTerms(y, w, b), RealTerms(x, Pow(w, l), b);
    forall j: nat | j < n ensures f(Times(l, j)) == g(j) {
      RealTermsAt(y, w, b, Times(l, j));
      RealTermsAt(x, Pow(w, l), b, j);
      OffStride(l, j, 0);
      StrideInside(l, j, n);
      SpreadCells(s, l, n, Times(l, j));
      StridePower(w, l, j, b);
    }
    forall i: nat | i < Times(l, n) && i % l != 0 ensures f(i) == ZERO {
      RealTermsAt(y, w, b, i);
      SpreadCells(s, l, n, i);
      RealZero();
      MulZero(Pow(w, Times(i, b)));
    }
    SumStride(l, n, f, g);
    RealDftIs(y, w, b);
    RealDftIs(x, Pow(w, l), b);
  }

  lemma RealZero()
    ensures Real(0.0) == ZERO
  {
  }

  lemma StrideInside(l: nat, j: nat, n: nat)
    requires l > 0 && j < n
    ensures Times(l, j) < Times(l, n)
  {
    MulLe(l, j + 1, n);
    MulDistrib(l, j, 1);
  }

  lemma StridePower(w: Complex, l: nat, j: nat, b: nat)
    ensures Pow(w, Times(Times(l, j), b)) == Pow(Pow(w, l), Times(j, b))
  {
    PowTimes(w, l, Times(j, b));
    MulAssoc3(l, j, b);
    hide Pow;
  }

  /** The copies are the spectrum of the zero-stuffed block. */
  lemma ReplicatedIsSpectrum(s: seq<real>, turn: nat -> Complex, q: nat, p: nat)
    requires IsTurn(turn) && p > 0 && 2 * Pow2(q) <= |s|
    ensures var n, size := 2 * Pow2(q), 2 * Pow2(q + p);
            Replicated(HalfSpectrum(s[..n], turn(n)), size) == HalfSpectrum(Spread(s, Pow2(p), 0, size), turn(size))
  {
    hide *;
    var n, l, size := 2 * Pow2(q), Pow2(p), 2 * Pow2(q + p);
    SizesOf(q, p);
    var z, y := HalfSpectrum(s[..n], turn(n)), Spread(s, l, 0, size);
    TurnRoot(turn, q + 1);
    TurnNest(turn, q + 1, p);
    Pow2Two(q + 1);
    Pow2Two(q + p + 1);
    forall b: nat | b < size / 2 ensures Replicated(z, size)[b] == HalfSpectrum(y, turn(size))[b] {
      ReplicaEntry(s, turn, q, p, b);
    }
  }

  lemma SizesOf(q: nat, p: nat)
    requires p > 0
    ensures Times(Pow2(p), 2 * Pow2(q)) == 2 * Pow2(q + p)
    ensures Times(2 * Pow2(q), Pow2(p - 1)) == Pow2(q + p)
    ensures Pow2(q) > 0
  {
    Pow2Add(q, p);
    Pow2Add(q, p - 1);
    Pow2Two(q + p);
    MulAssoc3(Pow2(p), 2, Pow2(q));
    MulAssoc3(2, Pow2(q), Pow2(p - 1));
  }

  lemma ReplicaEntry(s: seq<real>, turn: nat -> Complex, q: nat, p: nat, b: nat)
    requires IsTurn(turn) && p > 0 && 2 * Pow2(q) <= |s| && b < Pow2(q + p)
    ensures var n, size := 2 * Pow2(q), 2 * Pow2(q + p);
            Replicated(HalfSpectrum(s[..n], turn(n)), size)[b] ==
                HalfSpectrum(Spread(s, Pow2(p), 0, size), turn(size))[b]
  {
    hide *;
    var n, l, size := 2 * Pow2(q), Pow2(p), 2 * Pow2(q + p);
    SizesOf(q, p);
    Pow2Two(q + 1);
    Pow2Two(q + p + 1);
    TurnRoot(turn, q + 1);
    RootPowers(turn(n), q + 1);
    TurnNest(turn, q + 1, p);
    var x, z, y := s[..n], HalfSpectrum(s[..n], turn(n)), Spread(s, l, 0, size);
    HalfSpectrumAt(y, turn(size), b);
    ReplicatedIs(z, size, b);
    SpreadTransform(s, l, n, turn(size), b);
    if b == 0 {
      SpreadTransform(s, l, n, turn(size), size / 2);
      Periodic(x, turn(n), 0, Pow2(p - 1));
      HalfSpectrumAt(x, turn(n), 0);
    } else {
      Remainder(b, n);
      Periodic(x, turn(n), b % n, b / n);
      FullIsSpectrum(x, turn(n), q, b % n);
    }
  }

  lemma Remainder(b: nat, n: nat)
    requires n > 0
    ensures b == b % n + Times(n, b / n) && b % n < n
  {
  }

  lemma ReplicatedIs(z: seq<Complex>, size: nat, b: nat)
    requires |z| > 0 && b < size / 2
    ensures b == 0 ==> Replicated(z, size)[b] == Complex(z[0].re, z[0].re)
    ensures b > 0 ==> Replicated(z, size)[b] == Full(z, b % (2 * |z|))
  {
  }

  // ---- the loops ----

  ghost predicate MirrorUpTo(v: seq<Complex>, z: seq<Complex>, p: nat) {
    && 0 < |z| < p <= 2 * |z| <= |v|
    && (forall b: nat | b < |z| :: v[b] == z[b])
    && (forall b: nat | |z| < b < p :: v[b] == Full(z, b))
  }

  lemma MirrorStep(v: seq<Complex>, z: seq<Complex>, p: nat)
    requires MirrorUpTo(v, z, p) && p < 2 * |z|
    ensures MirrorUpTo(v[p := Conj(v[2 * |z| - p])], z, p + 1)
  {
    FullCases(z, p);
    hide Full, Conj;
  }

  ghost predicate CopiesUpTo(v: seq<Complex>, z: seq<Complex>, m: nat) {
    && 0 < |z| && m <= |v|
    && forall b: nat | b < m :: v[b] == ReplicatedAt(z, b)
  }

  lemma MirrorEnd(v: seq<Complex>, z: seq<Complex>)
    requires MirrorUpTo(v, z, 2 * |z|)
    ensures var u := v[|z| := Complex(v[0].im, 0.0)]; CopiesUpTo(u[0 := Complex(u[0].re, u[0].re)], z, 2 * |z|)
  {
    var u := v[|z| := Complex(v[0].im, 0.0)];
    var t := u[0 := Complex(u[0].re, u[0].re)];
    forall b: nat | b < 2 * |z| ensures t[b] == ReplicatedAt(z, b) {
      FullCases(z, b);
      SmallRemainder(b, 2 * |z|);
      hide Full;
    }
  }

  lemma SmallRemainder(b: nat, n: nat)
    requires b < n
    ensures b % n == b
  {
  }

  /** One doubling: the first m entries again, the first of them without its packed part. */
  lemma CopyStep(v: seq<Complex>, u: seq<Complex>, z: seq<Complex>, m: nat)
    requires CopiesUpTo(v, z, m) && 0 < m && 2 * m <= |v| == |u| && m % (2 * |z|) == 0
    requires forall b: nat | b < m :: u[b] == v[b] && u[m + b] == v[b]
    ensures CopiesUpTo(u[m := Complex(u[m].re, 0.0)], z, 2 * m)
  {
    hide Full;
    var t, n := u[m := Complex(u[m].re, 0.0)], 2 * |z|;
    FullCases(z, 0);
    SmallRemainder(0, n);
    forall b: nat | b < 2 * m ensures t[b] == ReplicatedAt(z, b) {
      if b == m {
        assert v[0] == ReplicatedAt(z, 0);
      } else if b > m {
        SameRemainder(n, m, b - m);
        assert v[b - m] == ReplicatedAt(z, b - m);
      }
    }
  }

  lemma SameRemainder(n: nat, m: nat, b: nat)
    requires n > 0 && m % n == 0
    ensures (m + b) % n == b % n && 2 * m % n == 0
  {
    var q, r, k := m / n, b % n, b / n;
    assert m == n * q && b == r + n * k;
    MulDistrib(n, q, k);
    DigitsDivMod(n, r, q + k);
    MulDistrib(n, q, q);
    DigitsDivMod(n, 0, q + q);
  }

  lemma MirrorStart(v: seq<Complex>, z: seq<Complex>)
    requires 0 < |z| && 2 * |z| <= |v| && z == v[..|z|]
    ensures MirrorUpTo(v, z, |z| + 1)
  {
    assert forall b: nat | b < |z| :: v[b] == z[b];
  }

  /** Lines 93-98. */
  method Mirror(portion: nat, a: array<real>, ghost size: nat) returns (i: nat)
    requires portion % 2 == 0 && 0 < portion && 2 * portion <= size <= a.Length && size % 2 == 0
    modifies a
    ensures i == 2 * portion
    ensures CopiesUpTo(Head(a, size), old(Head(a, portion)), portion)
    ensures a[size..] == old(a[size..])
  {
    hide *;
    ghost var z := Head(a, portion);
    HeadPart(a, portion, size);
    MirrorStart(Head(a, size), z);
    i := portion + 2;
    ghost var p := |z| + 1;
    while i < 2 * portion
      invariant i == 2 * p && |z| < p <= portion && portion == 2 * |z|
      invariant MirrorUpTo(Head(a, size), z, p)
      invariant a[size..] == old(a[size..])
    {
      HeadAt(a, size, 2 * portion - i);
      MirrorStep(Head(a, size), z, p);
      var re, im := a[2 * portion - i], -a[2 * portion - i + 1];
      MirrorPair(Head(a, size), z, p, re, im);
      SetPair(a, i, re, im, size);
      i := i + 2;
      p := p + 1;
    }
    HeadAt(a, size, 0);
    MirrorEnd(Head(a, size), z);
    var re := a[1];
    SetPair(a, portion, re, 0.0, size);
    HeadAt(a, size, 0);
    re := a[0];
    SetPair(a, 0, re, re, size);
  }

  lemma MirrorPair(v: seq<Complex>, z: seq<Complex>, p: nat, re: real, im: real)
    requires |z| < p < 2 * |z| <= |v| && v[2 * |z| - p] == Complex(re, -im)
    ensures Complex(re, im) == Conj(v[2 * |z| - p])
  {
  }

  lemma HeadPart(a: array<real>, n: nat, size: nat)
    requires n % 2 == 0 && size % 2 == 0 && n <= size <= a.Length
    ensures |Head(a, n)| == n / 2 && |Head(a, size)| == size / 2 && Head(a, n) == Head(a, size)[..n / 2]
  {
    var u, v := Head(a, n), Head(a, size);
    forall b: nat | b < n / 2 ensures u[b] == v[b] {
      HeadAt(a, n, 2 * b);
      HeadAt(a, size, 2 * b);
    }
  }

  /** So many cells hold whole copies of the spectrum packed in z. */
  ghost predicate WholeCopies(cells: nat, z: seq<Complex>) {
    |z| > 0 && cells / 2 % (2 * |z|) == 0
  }

  lemma WholeCopiesIs(cells: nat, z: seq<Complex>)
    requires WholeCopies(cells, z) && cells % 2 == 0
    ensures cells / 2 % (2 * |z|) == 0 && WholeCopies(2 * cells, z)
  {
    SameRemainder(2 * |z|, cells / 2, 0);
    assert 2 * cells / 2 == 2 * (cells / 2);
  }

  lemma TwoCopies(cells: nat, z: seq<Complex>)
    requires cells == 2 * |z| && |z| > 0
    ensures WholeCopies(2 * cells, z)
  {
    DigitsDivMod(2 * |z|, 0, 1);
    assert 2 * cells / 2 == 2 * |z| * 1;
  }

  /** One turn of the loop of lines 112-122. */
  method Duplicate(i: nat, portion: nat, a: array<real>, ghost z: seq<Complex>, ghost size: nat)
    requires i == portion && portion % 2 == 0 && 0 < portion && 2 * portion <= size <= a.Length && size % 2 == 0
    requires CopiesUpTo(Head(a, size), z, portion / 2) && |z| > 0 && WholeCopies(portion, z)
    modifies a
    ensures CopiesUpTo(Head(a, size), z, portion) && WholeCopies(2 * portion, z)
    ensures a[size..] == old(a[size..])
  {
    hide *;
    ghost var v, s := Head(a, size), a[..];
    HeadSeq(a, size);
    forall j | 0 <= j < portion {
      a[i + j] := a[j];
    }
    CopiedCells(s, a[..], portion, size);
    HeadSeq(a, size);
    WholeCopiesIs(portion, z);
    CopyHalves(v, Head(a, size), z, portion);
    HeadAt(a, size, i);
    var re := a[i];
    SetPair(a, i, re, 0.0, size);
  }

  lemma CopyHalves(v: seq<Complex>, u: seq<Complex>, z: seq<Complex>, portion: nat)
    requires portion % 2 == 0 && 0 < portion <= |v| == |u|
    requires CopiesUpTo(v, z, portion / 2) && |z| > 0 && portion / 2 % (2 * |z|) == 0
    requires forall b: nat | b < portion / 2 :: u[b] == v[b] && u[portion / 2 + b] == v[b]
    ensures CopiesUpTo(u[portion / 2 := Complex(u[portion / 2].re, 0.0)], z, portion)
  {
    hide *;
    var m := portion / 2;
    assert portion == 2 * m;
    CopyStep(v, u, z, m);
  }

  lemma HeadSeq(a: array<real>, n: nat)
    requires n % 2 == 0 && n <= a.Length
    ensures Head(a, n) == View(a[..][..n])
  {
    assert a[..][..n] == a[..n];
  }

  lemma CopiedCells(s: seq<real>, t: seq<real>, portion: nat, size: nat)
    requires portion % 2 == 0 && size % 2 == 0 && 2 * portion <= size <= |s| == |t|
    requires forall j: nat | j < portion :: t[j] == s[j]
    requires forall j: nat | j < portion :: t[portion + j] == s[j]
    ensures var v, u, m := View(s[..size]), View(t[..size]), portion / 2;
            |v| == |u| == size / 2 && forall b: nat | b < m :: u[b] == v[b] && u[m + b] == v[b]
  {
    var m := portion / 2;
    var y, x := t[..size], s[..size];
    forall b: nat | b < m ensures View(y)[b] == View(x)[b] && View(y)[m + b] == View(x)[b] {
      var j := 2 * b;
      assert y[j] == x[j] && y[j + 1] == x[j + 1];
      assert y[portion + j] == x[j] && y[portion + j + 1] == x[j + 1];
      assert 2 * (m + b) == portion + j;
    }
  }

  /** Lines 112-122. */
  method DoubleUp(start: nat, size: nat, a: array<real>, ghost z: seq<Complex>, ghost rounds: nat)
    requires start % 2 == 0 && 0 < start && Times(start, Pow2(rounds)) == size && size <= a.Length && size % 2 == 0
    requires CopiesUpTo(Head(a, size), z, start / 2) && |z| > 0 && WholeCopies(start, z)
    modifies a
    ensures Head(a, size) == Replicated(z, size)
    ensures a[size..] == old(a[size..])
  {
    hide *;
    var i, portion := start, start;
    ghost var r := rounds;
    while i < size
      invariant i == portion && portion % 2 == 0 && 0 < portion && Times(portion, Pow2(r)) == size
      invariant WholeCopies(portion, z) && CopiesUpTo(Head(a, size), z, portion / 2)
      invariant a[size..] == old(a[size..])
      decreases size - i
    {
      NextDouble(portion, r, size);
      Duplicate(i, portion, a, z, size);
      i := i + portion;
      portion := 2 * portion;
      r := r - 1;
    }
    LastDouble(portion, r, size);
    HeadLength(a, size);
    CopiesEnd(Head(a, size), z, size);
  }

  lemma HeadLength(a: array<real>, n: nat)
    requires n % 2 == 0 && n <= a.Length
    ensures |Head(a, n)| == n / 2
  {
  }

  /** The portion cells that hold the packed half-spectrum of the short block become the packed
      half-spectrum of the long one: lines 91-122. */
  method Replicate(portion: nat, size: nat, a: array<real>, ghost p: nat)
    requires portion % 2 == 0 && size % 2 == 0 && 0 < portion <= size <= a.Length
    requires p > 0 && size == Times(portion, Pow2(p))
    modifies a
    ensures |old(Head(a, portion))| > 0 && Head(a, size) == Replicated(old(Head(a, portion)), size)
    ensures a[size..] == old(a[size..])
  {
    ghost var z := Head(a, portion);
    hide *;
    DoublesTo(portion, p);
    HeadLength(a, portion);
    TwoCopies(portion, z);
    TwiceIs(portion);
    var i := Mirror(portion, a, size);
    DoubleUp(i, size, a, z, p - 1);
  }

  lemma TwiceIs(x: nat)
    ensures 2 * x % 2 == 0 && 2 * x / 2 == x
  {
  }

  lemma DoublesTo(portion: nat, p: nat)
    requires portion % 2 == 0 && 0 < portion && p > 0
    ensures var size := Times(portion, Pow2(p));
            && size % 2 == 0 && 2 * portion <= size && Times(2 * portion, Pow2(p - 1)) == size
  {
    assert Pow2(p) == 2 * Pow2(p - 1);
    MulAssoc3(portion, 2, Pow2(p - 1));
    MulLe(2 * portion, 1, Pow2(p - 1));
    hide Pow2;
    DigitsDivMod(2, 0, portion * Pow2(p - 1));
  }

  lemma NextDouble(width: nat, r: nat, size: nat)
    requires 0 < width < size && Times(width, Pow2(r)) == size
    ensures r > 0 && Times(2 * width, Pow2(r - 1)) == size && 2 * width <= size
  {
    if r > 0 {
      MulAssoc3(width, 2, Pow2(r - 1));
      MulLe(2 * width, 1, Pow2(r - 1));
    }
  }

  lemma LastDouble(width: nat, r: nat, size: nat)
    requires width >= size && Times(width, Pow2(r)) == size && 0 < width
    ensures width == size
  {
    MulLe(width, 1, Pow2(r));
  }

  lemma CopiesEnd(v: seq<Complex>, z: seq<Complex>, size: nat)
    requires CopiesUpTo(v, z, size / 2) && |v| == size / 2
    ensures v == Replicated(z, size)
  {
    hide ReplicatedAt;
  }
}
