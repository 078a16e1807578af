/** The butterfly passes cft1st, cftmdl, cftfsub and cftbsub (fft4g.c, lines 923-1252). */
module FftPasses {
  import opened Arith
  import opened Complexes
  import opened BitReversal
  import opened FftView

  // ---- what the passes compute ----

  function TimesI(z: Complex): Complex {
    Complex(-z.im, z.re)
  }

  /** Output s of the four-point transform of z0, z1, z2, z3 given in bit-reversed order. */
  function Four(s: nat, z0: Complex, z1: Complex, z2: Complex, z3: Complex): Complex {
    if s == 0 then Add(Add(z0, z1), Add(z2, z3))
    else if s == 1 then Add(Sub(z0, z1), TimesI(Sub(z2, z3)))
    else if s == 2 then Sub(Add(z0, z1), Add(z2, z3))
    else Sub(Sub(z0, z1), TimesI(Sub(z2, z3)))
  }

  /** The third twiddle factor of a block, from the first two. */
  function Third(w1: Complex, w2: Complex): Complex {
    Complex(w1.re - 2.0 * w2.im * w1.im, 2.0 * w2.im * w1.re - w1.im)
  }

  /** Twiddle factor s of block b, as the passes fetch it from the table w. */
  function Twiddle(w: seq<Complex>, b: nat, s: nat): Complex {
    if s == 0 || b == 0 then ONE
    else
      var w1 := if b == 1 then Complex(At(w, 1).re, At(w, 1).re) else At(w, b);
      var w2 := if b == 1 then I else if b % 2 == 0 then At(w, b / 2) else TimesI(At(w, b / 2));
      if s == 1 then w1
      else if s == 2 then w2
      else if b == 1 then TimesI(w1)
      else Third(w1, w2)
  }

  /** A radix-4 pass with stride d: entry x of quarter s of block b. */
  function PassEntry(w: seq<Complex>, d: nat, a: seq<Complex>, b: nat, s: nat, x: nat): Complex {
    var e := 4 * d * b + x;
    Mul(Twiddle(w, b, s), Four(s, At(a, e), At(a, e + d), At(a, e + 2 * d), At(a, e + 3 * d)))
  }

  function Pass(w: seq<Complex>, d: nat, a: seq<Complex>): (r: seq<Complex>)
    requires 0 < d
    ensures |r| == |a|
  {
    seq(|a|, p requires 0 <= p < |a| => PassEntry(w, d, a, p / (4 * d), p / d % 4, p % d))
  }

  /** The closing radix-2 pass. */
  function HalfPass(d: nat, a: seq<Complex>): (r: seq<Complex>)
    requires |a| == 2 * d
    ensures |r| == |a|
  {
    seq(|a|, p requires 0 <= p < |a| => if p < d then Add(a[p], a[p + d]) else Sub(a[p - d], a[p]))
  }

  /** All passes from stride 2^u up, on 2^q entries. */
  function Passes(w: seq<Complex>, q: nat, u: nat, a: seq<Complex>): (r: seq<Complex>)
    requires u <= q && |a| == Pow2(q)
    ensures |r| == |a|
    decreases q - u
  {
    if u == q then a
    else if u + 1 == q then HalfPass(Pow2(u), a)
    else Passes(w, q, u + 2, Pass(w, Pow2(u), a))
  }

  // ---- indices ----

  lemma PassIndex(d: nat, b: nat, s: nat, x: nat)
    requires x < d && s < 4
    ensures var p := 4 * d * b + s * d + x; p / (4 * d) == b && p / d % 4 == s && p % d == x
  {
    var p := 4 * d * b + s * d + x;
    DigitsBound(d, 4, x, s);
    DigitsDivMod(4 * d, s * d + x, b);
    MulAssoc3(d, 4, b);
    MulDistrib(d, s, 4 * b);
    DigitsDivMod(d, x, s + 4 * b);
  }

  lemma PassAt(w: seq<Complex>, d: nat, a: seq<Complex>, b: nat, s: nat, x: nat)
    requires x < d && s < 4 && 4 * d * b + s * d + x < |a|
    ensures Pass(w, d, a)[4 * d * b + s * d + x] == PassEntry(w, d, a, b, s, x)
  {
    hide PassEntry;
    PassIndex(d, b, s, x);
  }

  /** The entries of Pass, one quarter at a time. */
  lemma PassQuarters(w: seq<Complex>, d: nat, a: seq<Complex>, b: nat, x: nat)
    requires x < d && 4 * d * b + 4 * d <= |a|
    ensures Pass(w, d, a)[4 * d * b + x] == PassEntry(w, d, a, b, 0, x)
    ensures Pass(w, d, a)[4 * d * b + d + x] == PassEntry(w, d, a, b, 1, x)
    ensures Pass(w, d, a)[4 * d * b + 2 * d + x] == PassEntry(w, d, a, b, 2, x)
    ensures Pass(w, d, a)[4 * d * b + 3 * d + x] == PassEntry(w, d, a, b, 3, x)
  {
    hide *;
    assert 0 * d == 0 && 1 * d == d;
    PassAt(w, d, a, b, 0, x);
    PassAt(w, d, a, b, 1, x);
    PassAt(w, d, a, b, 2, x);
    PassAt(w, d, a, b, 3, x);
  }

  // ---- one butterfly ----

  /** The four entries p, p+d, p+2d, p+3d replaced by their butterfly, conjugated if cj. */
  function PutFour(cj: bool, s: seq<Complex>, p: nat, d: nat, t1: Complex, t2: Complex, t3: Complex): (r: seq<Complex>)
    requires 0 < d && p + 3 * d < |s|
    ensures |r| == |s|
  {
    var z0, z1, z2, z3 := s[p], s[p + d], s[p + 2 * d], s[p + 3 * d];
    s[p := Image(cj, Four(0, z0, z1, z2, z3))]
     [p + d := Image(cj, Mul(t1, Four(1, z0, z1, z2, z3)))]
     [p + 2 * d := Image(cj, Mul(t2, Four(2, z0, z1, z2, z3)))]
     [p + 3 * d := Image(cj, Mul(t3, Four(3, z0, z1, z2, z3)))]
  }

  /** Stores the four results of a butterfly at j, j+l, j+2l and j+3l. */
  method StoreFour(a: array<real>, j: nat, l: nat, y0: Complex, y1: Complex, y2: Complex, y3: Complex, ghost n: nat)
    requires n % 2 == 0 && n <= a.Length && j % 2 == 0 && l % 2 == 0 && 0 < l && j + 3 * l < n
    modifies a
    ensures var s, p, d := old(Head(a, n)), j / 2, l / 2;
            Head(a, n) == s[p := y0][p + d := y1][p + 2 * d := y2][p + 3 * d := y3]
    ensures a[n..] == old(a[n..])
  {
    hide Head, View;
    HalfOf(j, l);
    SetPair(a, j, y0.re, y0.im, n);
    SetPair(a, j + l, y1.re, y1.im, n);
    SetPair(a, j + 2 * l, y2.re, y2.im, n);
    SetPair(a, j + 3 * l, y3.re, y3.im, n);
  }

  /** The four entries a butterfly reads. */
  lemma FourCells(a: array<real>, j: nat, l: nat, n: nat)
    requires n % 2 == 0 && n <= a.Length && j % 2 == 0 && l % 2 == 0 && 0 < l && j + 3 * l < n
    ensures var s, p, d := Head(a, n), j / 2, l / 2;
            && s[p] == Complex(a[j], a[j + 1])
            && s[p + d] == Complex(a[j + l], a[j + l + 1])
            && s[p + 2 * d] == Complex(a[j + 2 * l], a[j + 2 * l + 1])
            && s[p + 3 * d] == Complex(a[j + 3 * l], a[j + 3 * l + 1])
  {
    hide Head, View;
    HalfOf(j, l);
    HeadAt(a, n, j);
    HeadAt(a, n, j + l);
    HeadAt(a, n, j + 2 * l);
    HeadAt(a, n, j + 3 * l);
  }

  lemma HalfOf(j: nat, l: nat)
    requires j % 2 == 0 && l % 2 == 0
    ensures (j + l) / 2 == j / 2 + l / 2 && (j + l) % 2 == 0
    ensures (j + 2 * l) / 2 == j / 2 + 2 * (l / 2) && (j + 2 * l) % 2 == 0
    ensures (j + 3 * l) / 2 == j / 2 + 3 * (l / 2) && (j + 3 * l) % 2 == 0
  {
  }

  /** Lines 939-957 and 1136-1154: no multiplication. */
  method Butterfly(a: array<real>, j: nat, l: nat, ghost n: nat)
    requires n % 2 == 0 && n <= a.Length && j % 2 == 0 && l % 2 == 0 && 0 < l && j + 3 * l < n
    modifies a
    ensures Head(a, n) == PutFour(false, old(Head(a, n)), j / 2, l / 2, ONE, ONE, ONE)
    ensures a[n..] == old(a[n..])
  {
    hide *;
    FourCells(a, j, l, n);
    ghost var s := Head(a, n);
    var x0r, x0i := a[j] + a[j + l], a[j + 1] + a[j + l + 1];
    var x1r, x1i := a[j] - a[j + l], a[j + 1] - a[j + l + 1];
    var x2r, x2i := a[j + 2 * l] + a[j + 3 * l], a[j + 2 * l + 1] + a[j + 3 * l + 1];
    var x3r, x3i := a[j + 2 * l] - a[j + 3 * l], a[j + 2 * l + 1] - a[j + 3 * l + 1];
    FourParts(s[j / 2], s[j / 2 + l / 2], s[j / 2 + 2 * (l / 2)], s[j / 2 + 3 * (l / 2)]);
    var y0, y2 := Complex(x0r + x2r, x0i + x2i), Complex(x0r - x2r, x0i - x2i);
    var y1, y3 := Complex(x1r - x3i, x1i + x3r), Complex(x1r + x3i, x1i - x3r);
    MulOne(y1);
    MulOne(y2);
    MulOne(y3);
    PlainImages(y0, y1, y2, y3);
    PutFourIs(false, s, j / 2, l / 2, ONE, ONE, ONE, y0, y1, y2, y3);
    StoreFour(a, j, l, y0, y1, y2, y3, n);
  }

  lemma PutFourIs(cj: bool, s: seq<Complex>, p: nat, d: nat, t1: Complex, t2: Complex, t3: Complex,
                  y0: Complex, y1: Complex, y2: Complex, y3: Complex)
    requires 0 < d && p + 3 * d < |s|
    requires y0 == Image(cj, Four(0, s[p], s[p + d], s[p + 2 * d], s[p + 3 * d]))
    requires y1 == Image(cj, Mul(t1, Four(1, s[p], s[p + d], s[p + 2 * d], s[p + 3 * d])))
    requires y2 == Image(cj, Mul(t2, Four(2, s[p], s[p + d], s[p + 2 * d], s[p + 3 * d])))
    requires y3 == Image(cj, Mul(t3, Four(3, s[p], s[p + d], s[p + 2 * d], s[p + 3 * d])))
    ensures s[p := y0][p + d := y1][p + 2 * d := y2][p + 3 * d := y3] == PutFour(cj, s, p, d, t1, t2, t3)
  {
    hide Mul, Four, Image;
  }

  /** Lines 1045-1065 and 1161-1180: block 1, whose first factor has equal parts. */
  method ButterflyEighth(a: array<real>, j: nat, l: nat, wk1r: real, ghost n: nat)
    requires n % 2 == 0 && n <= a.Length && j % 2 == 0 && l % 2 == 0 && 0 < l && j + 3 * l < n
    modifies a
    ensures Head(a, n) == PutFour(false, old(Head(a, n)), j / 2, l / 2, Complex(wk1r, wk1r), I, Complex(-wk1r, wk1r))
    ensures a[n..] == old(a[n..])
  {
    hide Head, View, PutFour, Mul, Four;
    FourCells(a, j, l, n);
    ghost var s := Head(a, n);
    EighthValues(wk1r, s[j / 2], s[j / 2 + l / 2], s[j / 2 + 2 * (l / 2)], s[j / 2 + 3 * (l / 2)]);
    var x0r, x0i := a[j] + a[j + l], a[j + 1] + a[j + l + 1];
    var x1r, x1i := a[j] - a[j + l], a[j + 1] - a[j + l + 1];
    var x2r, x2i := a[j + 2 * l] + a[j + 3 * l], a[j + 2 * l + 1] + a[j + 3 * l + 1];
    var x3r, x3i := a[j + 2 * l] - a[j + 3 * l], a[j + 2 * l + 1] - a[j + 3 * l + 1];
    var y0, y2 := Complex(x0r + x2r, x0i + x2i), Complex(x2i - x0i, x0r - x2r);
    x0r, x0i := x1r - x3i, x1i + x3r;
    var y1 := Complex(wk1r * (x0r - x0i), wk1r * (x0r + x0i));
    x0r, x0i := x3i + x1r, x3r - x1i;
    var y3 := Complex(wk1r * (x0i - x0r), wk1r * (x0i + x0r));
    PutFourIs(false, s, j / 2, l / 2, Complex(wk1r, wk1r), I, Complex(-wk1r, wk1r), y0, y1, y2, y3);
    StoreFour(a, j, l, y0, y1, y2, y3, n);
  }

  /** The products of block 1, in the form in which the code spells them. */
  lemma EighthValues(c: real, z0: Complex, z1: Complex, z2: Complex, z3: Complex)
    ensures var x0r, x0i, x1r, x1i := z0.re + z1.re, z0.im + z1.im, z0.re - z1.re, z0.im - z1.im;
            var x2r, x2i, x3r, x3i := z2.re + z3.re, z2.im + z3.im, z2.re - z3.re, z2.im - z3.im;
            && Four(0, z0, z1, z2, z3) == Complex(x0r + x2r, x0i + x2i)
            && Mul(I, Four(2, z0, z1, z2, z3)) == Complex(x2i - x0i, x0r - x2r)
            && Mul(Complex(c, c), Four(1, z0, z1, z2, z3)) ==
               Complex(c * ((x1r - x3i) - (x1i + x3r)), c * ((x1r - x3i) + (x1i + x3r)))
            && Mul(Complex(-c, c), Four(3, z0, z1, z2, z3)) ==
               Complex(c * ((x3r - x1i) - (x3i + x1r)), c * ((x3r - x1i) + (x3i + x1r)))
  {
    EighthFactors(c, Four(1, z0, z1, z2, z3));
    EighthFactors(c, Four(2, z0, z1, z2, z3));
    EighthFactors(c, Four(3, z0, z1, z2, z3));
    hide Mul;
  }

  lemma EighthFactors(c: real, z: Complex)
    ensures Mul(Complex(c, c), z) == Complex(c * (z.re - z.im), c * (z.re + z.im))
    ensures Mul(Complex(-c, c), z) == Complex(c * (-z.im - z.re), c * (-z.im + z.re))
    ensures Mul(I, z) == TimesI(z)
  {
  }

  /** The four sums, part by part. */
  lemma FourParts(z0: Complex, z1: Complex, z2: Complex, z3: Complex)
    ensures Four(0, z0, z1, z2, z3) == Complex(z0.re + z1.re + (z2.re + z3.re), z0.im + z1.im + (z2.im + z3.im))
    ensures Four(1, z0, z1, z2, z3) == Complex(z0.re - z1.re - (z2.im - z3.im), z0.im - z1.im + (z2.re - z3.re))
    ensures Four(2, z0, z1, z2, z3) == Complex(z0.re + z1.re - (z2.re + z3.re), z0.im + z1.im - (z2.im + z3.im))
    ensures Four(3, z0, z1, z2, z3) == Complex(z0.re - z1.re + (z2.im - z3.im), z0.im - z1.im - (z2.re - z3.re))
  {
  }

  lemma PlainImages(y0: Complex, y1: Complex, y2: Complex, y3: Complex)
    ensures Image(false, y0) == y0 && Image(false, y1) == y1 && Image(false, y2) == y2 && Image(false, y3) == y3
  {
  }

  /** Lines 1076-1097 and 1197-1218; with (-wk2i, wk2r) for the second factor, lines 1102-1123
      and 1228-1249. */
  method ButterflyTwiddled(a: array<real>, j: nat, l: nat, wk1r: real, wk1i: real,
                           wk2r: real, wk2i: real, wk3r: real, wk3i: real, ghost n: nat)
    requires n % 2 == 0 && n <= a.Length && j % 2 == 0 && l % 2 == 0 && 0 < l && j + 3 * l < n
    modifies a
    ensures Head(a, n) == PutFour(false, old(Head(a, n)), j / 2, l / 2,
                                  Complex(wk1r, wk1i), Complex(wk2r, wk2i), Complex(wk3r, wk3i))
    ensures a[n..] == old(a[n..])
  {
    hide *;
    FourCells(a, j, l, n);
    ghost var s := Head(a, n);
    var x0r, x0i := a[j] + a[j + l], a[j + 1] + a[j + l + 1];
    var x1r, x1i := a[j] - a[j + l], a[j + 1] - a[j + l + 1];
    var x2r, x2i := a[j + 2 * l] + a[j + 3 * l], a[j + 2 * l + 1] + a[j + 3 * l + 1];
    var x3r, x3i := a[j + 2 * l] - a[j + 3 * l], a[j + 2 * l + 1] - a[j + 3 * l + 1];
    FourParts(s[j / 2], s[j / 2 + l / 2], s[j / 2 + 2 * (l / 2)], s[j / 2 + 3 * (l / 2)]);
    var y0 := Complex(x0r + x2r, x0i + x2i);
    x0r, x0i := x0r - x2r, x0i - x2i;
    MulParts(wk2r, wk2i, x0r, x0i);
    var y2 := Complex(wk2r * x0r - wk2i * x0i, wk2r * x0i + wk2i * x0r);
    x0r, x0i := x1r - x3i, x1i + x3r;
    MulParts(wk1r, wk1i, x0r, x0i);
    var y1 := Complex(wk1r * x0r - wk1i * x0i, wk1r * x0i + wk1i * x0r);
    x0r, x0i := x1r + x3i, x1i - x3r;
    MulParts(wk3r, wk3i, x0r, x0i);
    var y3 := Complex(wk3r * x0r - wk3i * x0i, wk3r * x0i + wk3i * x0r);
    PlainImages(y0, y1, y2, y3);
    PutFourIs(false, s, j / 2, l / 2, Complex(wk1r, wk1i), Complex(wk2r, wk2i), Complex(wk3r, wk3i), y0, y1, y2, y3);
    StoreFour(a, j, l, y0, y1, y2, y3, n);
  }

  // ---- one block, one pass ----

  /** The first c columns of the block at p have been through their butterflies; all else is as in o. */
  ghost predicate BlockUpTo(cj: bool, s: seq<Complex>, o: seq<Complex>, p: nat, d: nat, c: nat,
                            t1: Complex, t2: Complex, t3: Complex)
  {
    && |s| == |o| && 0 < d && p + 4 * d <= |o| && c <= d
    && (forall x: nat | x < d :: ColumnOk(cj, s, o, p, d, c, x, t1, t2, t3))
    && (forall i: nat | i < |o| && (i < p || p + 4 * d <= i) :: s[i] == o[i])
  }

  ghost predicate ColumnOk(cj: bool, s: seq<Complex>, o: seq<Complex>, p: nat, d: nat, c: nat, x: nat,
                           t1: Complex, t2: Complex, t3: Complex)
  {
    var e, done := p + x, x < c;
    var z0, z1, z2, z3 := At(o, e), At(o, e + d), At(o, e + 2 * d), At(o, e + 3 * d);
    && At(s, e) == (if done then Image(cj, Four(0, z0, z1, z2, z3)) else z0)
    && At(s, e + d) == (if done then Image(cj, Mul(t1, Four(1, z0, z1, z2, z3))) else z1)
    && At(s, e + 2 * d) == (if done then Image(cj, Mul(t2, Four(2, z0, z1, z2, z3))) else z2)
    && At(s, e + 3 * d) == (if done then Image(cj, Mul(t3, Four(3, z0, z1, z2, z3))) else z3)
  }

  lemma BlockStart(cj: bool, o: seq<Complex>, p: nat, d: nat, t1: Complex, t2: Complex, t3: Complex)
    requires 0 < d && p + 4 * d <= |o|
    ensures BlockUpTo(cj, o, o, p, d, 0, t1, t2, t3)
  {
  }

  lemma BlockStep(cj: bool, s: seq<Complex>, o: seq<Complex>, p: nat, d: nat, c: nat, t1: Complex, t2: Complex,
      t3: Complex)
    requires BlockUpTo(cj, s, o, p, d, c, t1, t2, t3) && c < d
    ensures BlockUpTo(cj, PutFour(cj, s, p + c, d, t1, t2, t3), o, p, d, c + 1, t1, t2, t3)
  {
    hide Four, Mul, Image;
    var r, next := PutFour(cj, s, p + c, d, t1, t2, t3), c + 1;
    forall x: nat | x < d
      ensures ColumnOk(cj, r, o, p, d, next, x, t1, t2, t3)
    {
      assert ColumnOk(cj, s, o, p, d, c, x, t1, t2, t3);
      assert ColumnOk(cj, s, o, p, d, c, c, t1, t2, t3);
    }
  }

  /** Where block b begins, blocks being of 4 * d entries. */
  function BlockAt(d: nat, b: nat): nat {
    4 * d * b
  }

  /** The first b blocks of a pass are done. */
  ghost predicate PassUpTo(w: seq<Complex>, d: nat, s: seq<Complex>, o: seq<Complex>, b: nat) {
    && |s| == |o| && 0 < d
    && forall i: nat | i < |o| :: s[i] == if i < BlockAt(d, b) then Pass(w, d, o)[i] else o[i]
  }

  lemma PassStep(w: seq<Complex>, d: nat, s: seq<Complex>, r: seq<Complex>, o: seq<Complex>, b: nat)
    requires PassUpTo(w, d, s, o, b) && BlockAt(d, b) + 4 * d <= |o|
    requires BlockUpTo(false, r, s, BlockAt(d, b), d, d, Twiddle(w, b, 1), Twiddle(w, b, 2), Twiddle(w, b, 3))
    ensures PassUpTo(w, d, r, o, b + 1)
  {
    var p := BlockAt(d, b);
    MulDistrib(4 * d, b, 1);
    hide Four, Mul, Twiddle, Pass;
    forall i: nat | i < |o|
      ensures r[i] == if i < p + 4 * d then Pass(w, d, o)[i] else o[i]
    {
      if p <= i < p + 4 * d {
        var c := if i < p + d then 0 else if i < p + 2 * d then 1 else if i < p + 3 * d then 2 else 3;
        var x := i - p - (if c == 0 then 0 else if c == 1 then d else if c == 2 then 2 * d else 3 * d);
        PassQuarters(w, d, o, b, x);
        PassColumn(w, d, s, r, o, b, x);
      }
    }
  }

  lemma PassColumn(w: seq<Complex>, d: nat, s: seq<Complex>, r: seq<Complex>, o: seq<Complex>, b: nat, x: nat)
    requires PassUpTo(w, d, s, o, b) && BlockAt(d, b) + 4 * d <= |o| && x < d
    requires BlockUpTo(false, r, s, BlockAt(d, b), d, d, Twiddle(w, b, 1), Twiddle(w, b, 2), Twiddle(w, b, 3))
    ensures var p := BlockAt(d, b);
            && r[p + x] == PassEntry(w, d, o, b, 0, x)
            && r[p + d + x] == PassEntry(w, d, o, b, 1, x)
            && r[p + 2 * d + x] == PassEntry(w, d, o, b, 2, x)
            && r[p + 3 * d + x] == PassEntry(w, d, o, b, 3, x)
  {
    var p := BlockAt(d, b);
    assert Twiddle(w, b, 0) == ONE;
    hide Twiddle, Pass;
    assert ColumnOk(false, r, s, p, d, d, x, Twiddle(w, b, 1), Twiddle(w, b, 2), Twiddle(w, b, 3));
    MulOne(Four(0, o[p + x], o[p + x + d], o[p + x + 2 * d], o[p + x + 3 * d]));
    hide Four, Mul;
  }

  lemma PassStart(w: seq<Complex>, d: nat, o: seq<Complex>)
    requires 0 < d
    ensures PassUpTo(w, d, o, o, 0)
  {
  }

  lemma PassEnd(w: seq<Complex>, d: nat, s: seq<Complex>, o: seq<Complex>, b: nat)
    requires PassUpTo(w, d, s, o, b) && BlockAt(d, b) == |o|
    ensures s == Pass(w, d, o)
  {
    hide Pass;
  }

  // ---- the passes ----

  /** The first inner loop of cftmdl and the radix-4 loop of cftfsub. */
  method PlainBlock(a: array<real>, k: nat, l: nat, ghost n: nat)
    requires n % 2 == 0 && n <= a.Length && k % 2 == 0 && l % 2 == 0 && 0 < l && k + 4 * l <= n
    modifies a
    ensures BlockUpTo(false, Head(a, n), old(Head(a, n)), k / 2, l / 2, l / 2, ONE, ONE, ONE)
    ensures a[n..] == old(a[n..])
  {
    hide Head, View, BlockUpTo, PutFour;
    ghost var o, p, d := Head(a, n), k / 2, l / 2;
    BlockStart(false, o, p, d, ONE, ONE, ONE);
    var j := k;
    while j < k + l
      invariant k <= j <= k + l && j % 2 == 0
      invariant BlockUpTo(false, Head(a, n), o, p, d, j / 2 - p, ONE, ONE, ONE)
      invariant a[n..] == old(a[n..])
    {
      BlockStep(false, Head(a, n), o, p, d, j / 2 - p, ONE, ONE, ONE);
      Butterfly(a, j, l, n);
      j := j + 2;
    }
  }

  /** The second inner loop of cftmdl. */
  method EighthBlock(a: array<real>, k: nat, l: nat, wk1r: real, ghost n: nat)
    requires n % 2 == 0 && n <= a.Length && k % 2 == 0 && l % 2 == 0 && 0 < l && k + 4 * l <= n
    modifies a
    ensures BlockUpTo(false, Head(a, n), old(Head(a, n)), k / 2, l / 2, l / 2,
                      Complex(wk1r, wk1r), I, Complex(-wk1r, wk1r))
    ensures a[n..] == old(a[n..])
  {
    hide Head, View, BlockUpTo, PutFour;
    ghost var o, p, d := Head(a, n), k / 2, l / 2;
    BlockStart(false, o, p, d, Complex(wk1r, wk1r), I, Complex(-wk1r, wk1r));
    var j := k;
    while j < k + l
      invariant k <= j <= k + l && j % 2 == 0
      invariant BlockUpTo(false, Head(a, n), o, p, d, j / 2 - p, Complex(wk1r, wk1r), I, Complex(-wk1r, wk1r))
      invariant a[n..] == old(a[n..])
    {
      BlockStep(false, Head(a, n), o, p, d, j / 2 - p, Complex(wk1r, wk1r), I, Complex(-wk1r, wk1r));
      ButterflyEighth(a, j, l, wk1r, n);
      j := j + 2;
    }
  }

  /** The remaining inner loops of cftmdl. */
  method TwiddledBlock(a: array<real>, k: nat, l: nat, wk1r: real, wk1i: real,
                       wk2r: real, wk2i: real, wk3r: real, wk3i: real, ghost n: nat)
    requires n % 2 == 0 && n <= a.Length && k % 2 == 0 && l % 2 == 0 && 0 < l && k + 4 * l <= n
    modifies a
    ensures BlockUpTo(false, Head(a, n), old(Head(a, n)), k / 2, l / 2, l / 2,
                      Complex(wk1r, wk1i), Complex(wk2r, wk2i), Complex(wk3r, wk3i))
    ensures a[n..] == old(a[n..])
  {
    hide Head, View, BlockUpTo, PutFour;
    ghost var o, p, d := Head(a, n), k / 2, l / 2;
    BlockStart(false, o, p, d, Complex(wk1r, wk1i), Complex(wk2r, wk2i), Complex(wk3r, wk3i));
    var j := k;
    while j < k + l
      invariant k <= j <= k + l && j % 2 == 0
      invariant BlockUpTo(false, Head(a, n), o, p, d, j / 2 - p,
                          Complex(wk1r, wk1i), Complex(wk2r, wk2i), Complex(wk3r, wk3i))
      invariant a[n..] == old(a[n..])
    {
      BlockStep(false, Head(a, n), o, p, d, j / 2 - p, Complex(wk1r, wk1i), Complex(wk2r, wk2i), Complex(wk3r, wk3i));
      ButterflyTwiddled(a, j, l, wk1r, wk1i, wk2r, wk2i, wk3r, wk3i, n);
      j := j + 2;
    }
  }

  /** Sizes at which a pass with stride d is made with a table of nw cells: n cells of data
      make an even number of blocks. */
  ghost predicate PassSizes(n: nat, d: nat, blocks: nat, nw: nat) {
    && 0 < d && n % 2 == 0 && n == 2 * (4 * d * blocks)
    && 2 <= blocks && blocks % 2 == 0
    && 2 * blocks <= nw && nw % 2 == 0
  }

  /** While the loop over blocks runs, two more blocks fit. */
  lemma EvenSizes(n: nat, d: nat, blocks: nat, nw: nat)
    requires PassSizes(n, d, blocks, nw)
    ensures n % 2 == 0 && nw % 2 == 0 && 0 < d && blocks >= 2 && blocks % 2 == 0
    ensures 2 * blocks <= nw
  {
  }

  lemma BlocksFit(n: nat, d: nat, blocks: nat, nw: nat, b: nat)
    requires PassSizes(n, d, blocks, nw) && b % 2 == 0 && b <= blocks
    ensures 2 * BlockAt(d, b) < n <==> b < blocks
    ensures b < blocks ==> 2 * BlockAt(d, b) + 16 * d <= n && b + 2 <= blocks && 2 * b + 3 < nw
    ensures BlockAt(d, b + 1) == BlockAt(d, b) + 4 * d
    ensures BlockAt(d, b + 2) == BlockAt(d, b) + 8 * d
    ensures BlockAt(d, 0) == 0
    ensures b == blocks ==> n == 2 * BlockAt(d, b)
  {
    MulDistrib(4 * d, b, 1);
    MulDistrib(4 * d, b, 2);
    if b < blocks {
      MulLe(4 * d, b + 2, blocks);
    }
  }

  /** The factors of the odd and even blocks, as the loops of cft1st and cftmdl compute them. */
  method EvenFactors(w: array<real>, k1: nat, ghost nw: nat)
    returns (wk1r: real, wk1i: real, wk2r: real, wk2i: real, wk3r: real, wk3i: real)
    requires nw % 2 == 0 && nw <= w.Length
    requires k1 % 2 == 0 && 0 < k1 && 2 * k1 + 3 < nw
    ensures Complex(wk1r, wk1i) == Twiddle(Head(w, nw), k1, 1)
    ensures Complex(wk2r, wk2i) == Twiddle(Head(w, nw), k1, 2)
    ensures Complex(wk3r, wk3i) == Twiddle(Head(w, nw), k1, 3)
    ensures wk2r == w[k1] && wk2i == w[k1 + 1]
  {
    hide Head, View;
    HeadAt(w, nw, k1);
    HeadAt(w, nw, 2 * k1);
    var k2 := 2 * k1;
    wk2r := w[k1];
    wk2i := w[k1 + 1];
    wk1r := w[k2];
    wk1i := w[k2 + 1];
    wk3r := wk1r - 2.0 * wk2i * wk1i;
    wk3i := 2.0 * wk2i * wk1r - wk1i;
  }

  method OddFactors(w: array<real>, k1: nat, wk2r: real, wk2i: real, ghost nw: nat)
    returns (wk1r: real, wk1i: real, wk3r: real, wk3i: real)
    requires nw % 2 == 0 && nw <= w.Length
    requires k1 % 2 == 0 && 0 < k1 && 2 * k1 + 3 < nw
    requires wk2r == w[k1] && wk2i == w[k1 + 1]
    ensures Complex(wk1r, wk1i) == Twiddle(Head(w, nw), k1 + 1, 1)
    ensures Complex(-wk2i, wk2r) == Twiddle(Head(w, nw), k1 + 1, 2)
    ensures Complex(wk3r, wk3i) == Twiddle(Head(w, nw), k1 + 1, 3)
  {
    hide *;
    HeadAt(w, nw, k1);
    EvenNext(k1);
    HeadAt(w, nw, 2 * k1 + 2);
    var k2 := 2 * k1;
    wk1r := w[k2 + 2];
    wk1i := w[k2 + 3];
    wk3r := wk1r - 2.0 * wk2r * wk1i;
    wk3i := 2.0 * wk2r * wk1r - wk1i;
    OddTwiddle(Head(w, nw), k1, wk2r, wk2i, wk1r, wk1i);
  }

  lemma EvenNext(k1: nat)
    ensures (2 * k1 + 2) % 2 == 0 && (2 * k1 + 2) / 2 == k1 + 1
  {
  }

  lemma OddTwiddle(w: seq<Complex>, k1: nat, wk2r: real, wk2i: real, wk1r: real, wk1i: real)
    requires k1 % 2 == 0 && 0 < k1 && k1 + 1 < |w|
    requires w[k1 / 2] == Complex(wk2r, wk2i) && w[(2 * k1 + 2) / 2] == Complex(wk1r, wk1i)
    ensures Complex(wk1r, wk1i) == Twiddle(w, k1 + 1, 1)
    ensures Complex(-wk2i, wk2r) == Twiddle(w, k1 + 1, 2)
    ensures Complex(wk1r - 2.0 * wk2r * wk1i, 2.0 * wk2r * wk1r - wk1i) == Twiddle(w, k1 + 1, 3)
  {
    assert (k1 + 1) / 2 == k1 / 2 && (k1 + 1) % 2 == 1 && (2 * k1 + 2) / 2 == k1 + 1;
  }

  /** Both blocks of one round of the loop of cftmdl, lines 1185-1250. */
  method BlockPair(n: nat, k: nat, l: nat, k1: nat, a: array<real>, w: array<real>,
                   ghost d: nat, ghost o: seq<Complex>, ghost nw: nat)
    requires n % 2 == 0 && n <= a.Length && nw % 2 == 0 && nw <= w.Length && a != w
    requires k1 % 2 == 0 && 0 < k1 && 2 * k1 + 3 < nw
    requires l == 2 * d && k == 2 * BlockAt(d, k1) && k + 16 * d <= n && BlockAt(d, k1 + 1) == BlockAt(d, k1) + 4 * d
    requires PassUpTo(Head(w, nw), d, Head(a, n), o, k1)
    modifies a
    ensures PassUpTo(Head(w, nw), d, Head(a, n), o, k1 + 2)
    ensures a[n..] == old(a[n..])
  {
    hide *;
    ghost var tab := Head(w, nw);
    EvenCells(d, k1);
    PassLength(tab, d, Head(a, n), o, k1);
    var wk1r, wk1i, wk2r, wk2i, wk3r, wk3i := EvenFactors(w, k1, nw);
    ghost var s := Head(a, n);
    TwiddledBlock(a, k, l, wk1r, wk1i, wk2r, wk2i, wk3r, wk3i, n);
    PassStep(tab, d, s, Head(a, n), o, k1);
    wk1r, wk1i, wk3r, wk3i := OddFactors(w, k1, wk2r, wk2i, nw);
    s := Head(a, n);
    TwiddledBlock(a, k + 4 * l, l, wk1r, wk1i, -wk2i, wk2r, wk3r, wk3i, n);
    PassStep(tab, d, s, Head(a, n), o, k1 + 1);
  }

  lemma EvenCells(d: nat, k1: nat)
    ensures 2 * d % 2 == 0 && 2 * d / 2 == d
    ensures 2 * BlockAt(d, k1) % 2 == 0 && 2 * BlockAt(d, k1) / 2 == BlockAt(d, k1)
    ensures (2 * BlockAt(d, k1) + 8 * d) % 2 == 0 && (2 * BlockAt(d, k1) + 8 * d) / 2 == BlockAt(d, k1) + 4 * d
  {
    hide BlockAt;
    ProductIsMultiple(2, d);
    ProductIsMultiple(2, BlockAt(d, k1));
    ProductIsMultiple(2, BlockAt(d, k1) + 4 * d);
  }

  lemma PassLength(w: seq<Complex>, d: nat, s: seq<Complex>, o: seq<Complex>, b: nat)
    requires PassUpTo(w, d, s, o, b)
    ensures |s| == |o| && 0 < d
  {
  }

  /** Blocks 0 and 1, lines 1134-1181; with l == 2, lines 1029-1065. */
  method FirstBlocks(n: nat, l: nat, a: array<real>, w: array<real>, ghost d: nat, ghost nw: nat)
    requires n % 2 == 0 && n <= a.Length && nw % 2 == 0 && nw <= w.Length && a != w
    requires l == 2 * d && 0 < d && 16 * d <= n && 4 <= nw
    modifies a
    ensures PassUpTo(Head(w, nw), d, Head(a, n), old(Head(a, n)), 2)
    ensures a[n..] == old(a[n..])
  {
    hide Head, View, Twiddle, BlockUpTo, PassUpTo;
    ghost var tab, o := Head(w, nw), Head(a, n);
    HeadAt(w, nw, 2);
    FirstFactors(tab, w[2]);
    PlainBlock(a, 0, l, n);
    FirstStep(tab, d, Head(a, n), o);
    SecondBlock(n, l, a, w, d, o, nw);
  }

  method SecondBlock(n: nat, l: nat, a: array<real>, w: array<real>, ghost d: nat, ghost o: seq<Complex>, ghost nw: nat)
    requires n % 2 == 0 && n <= a.Length && nw % 2 == 0 && nw <= w.Length && a != w
    requires l == 2 * d && 0 < d && 16 * d <= n && 4 <= nw && |o| == n / 2
    requires PassUpTo(Head(w, nw), d, Head(a, n), o, 1)
    modifies a
    ensures PassUpTo(Head(w, nw), d, Head(a, n), o, 2)
    ensures a[n..] == old(a[n..])
  {
    hide Head, View, Twiddle, BlockUpTo, PassUpTo;
    ghost var tab, s := Head(w, nw), Head(a, n);
    HeadAt(w, nw, 2);
    FirstFactors(tab, w[2]);
    var wk1r := w[2];
    EighthBlock(a, 4 * l, l, wk1r, n);
    SecondStep(tab, d, s, Head(a, n), o);
  }

  lemma SecondStep(w: seq<Complex>, d: nat, s: seq<Complex>, r: seq<Complex>, o: seq<Complex>)
    requires 8 * d <= |o| && PassUpTo(w, d, s, o, 1)
    requires BlockUpTo(false, r, s, 4 * d, d, d, Twiddle(w, 1, 1), Twiddle(w, 1, 2), Twiddle(w, 1, 3))
    ensures PassUpTo(w, d, r, o, 2)
  {
    hide Twiddle, BlockUpTo, PassUpTo;
    assert BlockAt(d, 1) == 4 * d;
    PassStep(w, d, s, r, o, 1);
  }

  lemma FirstStep(w: seq<Complex>, d: nat, s: seq<Complex>, o: seq<Complex>)
    requires 0 < d && 4 * d <= |o|
    requires BlockUpTo(false, s, o, 0, d, d, Twiddle(w, 0, 1), Twiddle(w, 0, 2), Twiddle(w, 0, 3))
    ensures PassUpTo(w, d, s, o, 1)
  {
    hide Twiddle, BlockUpTo;
    PassStart(w, d, o);
    assert BlockAt(d, 0) == 0;
    PassStep(w, d, o, s, o, 0);
  }

  lemma FirstFactors(w: seq<Complex>, c: real)
    requires 1 < |w| && w[1].re == c
    ensures Twiddle(w, 0, 1) == ONE && Twiddle(w, 0, 2) == ONE && Twiddle(w, 0, 3) == ONE
    ensures Twiddle(w, 1, 1) == Complex(c, c) && Twiddle(w, 1, 2) == I && Twiddle(w, 1, 3) == Complex(-c, c)
  {
  }

  method Cftmdl(n: nat, l: nat, a: array<real>, w: array<real>, ghost d: nat, ghost blocks: nat, ghost nw: nat)
    requires PassSizes(n, d, blocks, nw) && l == 2 * d
    requires n <= a.Length && nw <= w.Length && a != w
    modifies a
    ensures Head(a, n) == Pass(Head(w, nw), d, old(Head(a, n)))
    ensures a[n..] == old(a[n..])
  {
    EvenSizes(n, d, blocks, nw);
    hide *;
    ghost var tab, o := Head(w, nw), Head(a, n);
    BlocksFit(n, d, blocks, nw, 0);
    BlocksFit(n, d, blocks, nw, 2);
    FirstBlocks(n, l, a, w, d, nw);
    var k1 := 0;
    var m := 4 * l;
    var m2 := 2 * m;
    var k := m2;
    while k < n
      invariant k1 % 2 == 0 && k1 + 2 <= blocks && k == 2 * BlockAt(d, k1 + 2)
      invariant PassUpTo(tab, d, Head(a, n), o, k1 + 2)
      invariant a[n..] == old(a[n..])
    {
      BlocksFit(n, d, blocks, nw, k1 + 2);
      EvenStep(k1);
      k1 := k1 + 2;
      BlockPair(n, k, l, k1, a, w, d, o, nw);
      k := k + m2;
    }
    BlocksFit(n, d, blocks, nw, k1 + 2);
    PassEnd(tab, d, Head(a, n), o, blocks);
  }

  lemma EvenStep(k: nat)
    requires k % 2 == 0
    ensures (k + 2) % 2 == 0 && (k + 4) % 2 == 0
  {
  }

  /** The same pass with stride one, unrolled. */
  method Cft1st(n: nat, a: array<real>, w: array<real>, ghost blocks: nat, ghost nw: nat)
    requires PassSizes(n, 1, blocks, nw)
    requires n <= a.Length && nw <= w.Length && a != w
    modifies a
    ensures Head(a, n) == Pass(Head(w, nw), 1, old(Head(a, n)))
    ensures a[n..] == old(a[n..])
  {
    ghost var tab, o := Head(w, nw), Head(a, n);
    UnitBlocks(n, blocks, nw, 0);
    UnitBlocks(n, blocks, nw, 2);
    hide *;
    FirstBlocks(n, 2, a, w, 1, nw);
    var k1 := 0;
    var j := 16;
    while j < n
      invariant k1 % 2 == 0 && k1 + 2 <= blocks && j == 8 * (k1 + 2)
      invariant PassUpTo(tab, 1, Head(a, n), o, k1 + 2)
      invariant a[n..] == old(a[n..])
    {
      UnitBlocks(n, blocks, nw, k1 + 2);
      k1 := k1 + 2;
      BlockPair(n, j, 2, k1, a, w, 1, o, nw);
      j := j + 16;
    }
    UnitBlocks(n, blocks, nw, k1 + 2);
    PassEnd(tab, 1, Head(a, n), o, blocks);
  }

  lemma UnitBlocks(n: nat, blocks: nat, nw: nat, b: nat)
    requires PassSizes(n, 1, blocks, nw) && b % 2 == 0 && b <= blocks
    ensures n == 8 * blocks && n % 2 == 0 && nw % 2 == 0 && 2 <= blocks && blocks % 2 == 0 && 2 * blocks <= nw
    ensures BlockAt(1, b) == 4 * b && BlockAt(1, b + 1) == 4 * b + 4
    ensures b < blocks ==> b + 2 <= blocks
  {
  }

  /** Lines 989-1007: the butterfly of the backward transform's last pass. */
  lemma ConjFour(z0: Complex, z1: Complex, z2: Complex, z3: Complex)
    ensures Image(true, Four(0, z0, z1, z2, z3)) ==
            Complex(z0.re + z1.re + (z2.re + z3.re), -z0.im - z1.im - (z2.im + z3.im))
    ensures Image(true, Mul(ONE, Four(1, z0, z1, z2, z3))) ==
            Complex(z0.re - z1.re - (z2.im - z3.im), -z0.im + z1.im - (z2.re - z3.re))
    ensures Image(true, Mul(ONE, Four(2, z0, z1, z2, z3))) ==
            Complex(z0.re + z1.re - (z2.re + z3.re), -z0.im - z1.im + (z2.im + z3.im))
    ensures Image(true, Mul(ONE, Four(3, z0, z1, z2, z3))) ==
            Complex(z0.re - z1.re + (z2.im - z3.im), -z0.im + z1.im + (z2.re - z3.re))
  {
    MulOne(Four(1, z0, z1, z2, z3));
    MulOne(Four(2, z0, z1, z2, z3));
    MulOne(Four(3, z0, z1, z2, z3));
    hide Mul;
  }

  method ButterflyConj(a: array<real>, j: nat, l: nat, ghost n: nat)
    requires n % 2 == 0 && n <= a.Length && j % 2 == 0 && l % 2 == 0 && 0 < l && j + 3 * l < n
    modifies a
    ensures Head(a, n) == PutFour(true, old(Head(a, n)), j / 2, l / 2, ONE, ONE, ONE)
    ensures a[n..] == old(a[n..])
  {
    hide *;
    FourCells(a, j, l, n);
    ghost var s := Head(a, n);
    ghost var z0, z1 := Complex(a[j], a[j + 1]), Complex(a[j + l], a[j + l + 1]);
    ghost var z2, z3 := Complex(a[j + 2 * l], a[j + 2 * l + 1]), Complex(a[j + 3 * l], a[j + 3 * l + 1]);
    var x0r, x0i := a[j] + a[j + l], -a[j + 1] - a[j + l + 1];
    var x1r, x1i := a[j] - a[j + l], -a[j + 1] + a[j + l + 1];
    var x2r, x2i := a[j + 2 * l] + a[j + 3 * l], a[j + 2 * l + 1] + a[j + 3 * l + 1];
    var x3r, x3i := a[j + 2 * l] - a[j + 3 * l], a[j + 2 * l + 1] - a[j + 3 * l + 1];
    var y0, y2 := Complex(x0r + x2r, x0i - x2i), Complex(x0r - x2r, x0i + x2i);
    var y1, y3 := Complex(x1r - x3i, x1i - x3r), Complex(x1r + x3i, x1i + x3r);
    ConjFour(z0, z1, z2, z3);
    PutFourIs(true, s, j / 2, l / 2, ONE, ONE, ONE, y0, y1, y2, y3);
    StoreFour(a, j, l, y0, y1, y2, y3, n);
  }

  method ConjBlock(a: array<real>, l: nat, ghost n: nat)
    requires n % 2 == 0 && n <= a.Length && l % 2 == 0 && 0 < l && 4 * l <= n
    modifies a
    ensures BlockUpTo(true, Head(a, n), old(Head(a, n)), 0, l / 2, l / 2, ONE, ONE, ONE)
    ensures a[n..] == old(a[n..])
  {
    hide Head, View, BlockUpTo, PutFour;
    ghost var o, d := Head(a, n), l / 2;
    BlockStart(true, o, 0, d, ONE, ONE, ONE);
    var j := 0;
    while j < l
      invariant j <= l && j % 2 == 0
      invariant BlockUpTo(true, Head(a, n), o, 0, d, j / 2, ONE, ONE, ONE)
      invariant a[n..] == old(a[n..])
    {
      BlockStep(true, Head(a, n), o, 0, d, j / 2, ONE, ONE, ONE);
      ButterflyConj(a, j, l, n);
      j := j + 2;
    }
  }

  function ImageAll(cj: bool, s: seq<Complex>): (r: seq<Complex>)
    ensures |r| == |s|
  {
    if cj then ConjAll(s) else s
  }

  /** A single block makes a whole pass. */
  lemma WholePass(cj: bool, w: seq<Complex>, d: nat, r: seq<Complex>, o: seq<Complex>)
    requires |o| == 4 * d && BlockUpTo(cj, r, o, 0, d, d, ONE, ONE, ONE)
    ensures r == ImageAll(cj, Pass(w, d, o))
  {
    hide Pass, Mul, Four, PassEntry;
    forall i: nat | i < |o| ensures r[i] == ImageAll(cj, Pass(w, d, o))[i] {
      var x := if i < d then i else if i < 2 * d then i - d else if i < 3 * d then i - 2 * d else i - 3 * d;
      WholeColumn(cj, w, d, r, o, x);
    }
  }

  lemma BlockColumn(cj: bool, r: seq<Complex>, o: seq<Complex>, d: nat, x: nat)
    requires |o| == 4 * d && x < d && BlockUpTo(cj, r, o, 0, d, d, ONE, ONE, ONE)
    ensures |r| == |o|
    ensures r[x] == Image(cj, Plain(o, d, x, 0)) && r[d + x] == Image(cj, Plain(o, d, x, 1))
    ensures r[2 * d + x] == Image(cj, Plain(o, d, x, 2)) && r[3 * d + x] == Image(cj, Plain(o, d, x, 3))
  {
    assert |r| == |o| && ColumnOk(cj, r, o, 0, d, d, x, ONE, ONE, ONE);
    hide BlockUpTo, Image, Four, Mul;
    MulOne(Plain(o, d, x, 1));
    MulOne(Plain(o, d, x, 2));
    MulOne(Plain(o, d, x, 3));
  }

  /** What becomes of a column without factors. */
  function Plain(o: seq<Complex>, d: nat, x: nat, s: nat): Complex {
    Four(s, At(o, x), At(o, x + d), At(o, x + 2 * d), At(o, x + 3 * d))
  }

  lemma EntryAt(w: seq<Complex>, d: nat, o: seq<Complex>, b: nat, s: nat, x: nat, e: nat)
    requires e == 4 * d * b + x
    ensures PassEntry(w, d, o, b, s, x) ==
            Mul(Twiddle(w, b, s), Four(s, At(o, e), At(o, e + d), At(o, e + 2 * d), At(o, e + 3 * d)))
  {
    hide Twiddle, Four, Mul, At;
  }

  lemma PlainEntry(w: seq<Complex>, d: nat, o: seq<Complex>, s: nat, x: nat)
    ensures PassEntry(w, d, o, 0, s, x) == Plain(o, d, x, s)
  {
    assert Twiddle(w, 0, s) == ONE;
    hide Twiddle, Four, Mul, At;
    EntryAt(w, d, o, 0, s, x, x);
    MulOne(Plain(o, d, x, s));
  }

  lemma WholeColumn(cj: bool, w: seq<Complex>, d: nat, r: seq<Complex>, o: seq<Complex>, x: nat)
    requires |o| == 4 * d && x < d && BlockUpTo(cj, r, o, 0, d, d, ONE, ONE, ONE)
    ensures r[x] == Image(cj, Pass(w, d, o)[x])
    ensures r[d + x] == Image(cj, Pass(w, d, o)[d + x])
    ensures r[2 * d + x] == Image(cj, Pass(w, d, o)[2 * d + x])
    ensures r[3 * d + x] == Image(cj, Pass(w, d, o)[3 * d + x])
  {
    hide *;
    assert 4 * d * 0 == 0;
    PassQuarters(w, d, o, 0, x);
    BlockColumn(cj, r, o, d, x);
    PlainEntry(w, d, o, 0, x);
    PlainEntry(w, d, o, 1, x);
    PlainEntry(w, d, o, 2, x);
    PlainEntry(w, d, o, 3, x);
  }

  ghost predicate HalfUpTo(cj: bool, s: seq<Complex>, o: seq<Complex>, d: nat, c: nat) {
    && |s| == |o| == 2 * d
    && forall x: nat | x < d :: HalfOk(cj, s, o, d, c, x)
  }

  ghost predicate HalfOk(cj: bool, s: seq<Complex>, o: seq<Complex>, d: nat, c: nat, x: nat)
    requires |s| == |o| == 2 * d && x < d
  {
    && s[x] == (if x < c then Image(cj, Add(o[x], o[x + d])) else o[x])
    && s[x + d] == (if x < c then Image(cj, Sub(o[x], o[x + d])) else o[x + d])
  }

  lemma HalfNext(cj: bool, s: seq<Complex>, o: seq<Complex>, d: nat, c: nat)
    requires HalfUpTo(cj, s, o, d, c) && c < d
    ensures HalfUpTo(cj, s[c := Image(cj, Add(s[c], s[c + d]))][c + d := Image(cj, Sub(s[c], s[c + d]))], o, d, c + 1)
  {
    hide Add, Sub, Image;
    var r, next := s[c := Image(cj, Add(s[c], s[c + d]))][c + d := Image(cj, Sub(s[c], s[c + d]))], c + 1;
    assert HalfOk(cj, s, o, d, c, c);
    forall x: nat | x < d ensures HalfOk(cj, r, o, d, next, x) {
      assert HalfOk(cj, s, o, d, c, x);
    }
  }

  /** The radix-2 loops, lines 960-968 and 1010-1018. */
  method HalfBlock(cj: bool, a: array<real>, l: nat, ghost n: nat)
    requires n == 2 * l <= a.Length && l % 2 == 0 && 0 < l
    modifies a
    ensures Head(a, n) == ImageAll(cj, HalfPass(l / 2, old(Head(a, n))))
    ensures a[n..] == old(a[n..])
  {
    ghost var o, d := Head(a, n), l / 2;
    assert HalfUpTo(cj, o, o, d, 0);
    hide *;
    var j := 0;
    ghost var c: nat := 0;
    while j < l
      invariant j == 2 * c && c <= d
      invariant HalfUpTo(cj, Head(a, n), o, d, c)
      invariant a[n..] == old(a[n..])
    {
      HalfNext(cj, Head(a, n), o, d, c);
      HalfButterfly(cj, a, j, l, n, c, d);
      j, c := j + 2, c + 1;
    }
    HalfDone(cj, Head(a, n), o, d);
  }

  method HalfButterfly(cj: bool, a: array<real>, j: nat, l: nat, ghost n: nat, ghost c: nat, ghost d: nat)
    requires n == 2 * l <= a.Length && l == 2 * d && j == 2 * c && c < d && n % 2 == 0
    modifies a
    ensures var s := old(Head(a, n));
            Head(a, n) == s[c := Image(cj, Add(s[c], s[c + d]))][c + d := Image(cj, Sub(s[c], s[c + d]))]
    ensures a[n..] == old(a[n..])
  {
    hide Head, View;
    assert j / 2 == c && l / 2 == d && (j + l) / 2 == c + d;
    HalfOf(j, l);
    HalfStep(a, j, l, n);
    var j1 := j + l;
    var x0r := a[j] - a[j1];
    var x0i := if cj then -a[j + 1] + a[j1 + 1] else a[j + 1] - a[j1 + 1];
    var y0r := a[j] + a[j1];
    var y0i := if cj then -a[j + 1] - a[j1 + 1] else a[j + 1] + a[j1 + 1];
    SetPair(a, j, y0r, y0i, n);
    SetPair(a, j1, x0r, x0i, n);
  }

  lemma HalfStep(a: array<real>, j: nat, l: nat, n: nat)
    requires n == 2 * l <= a.Length && l % 2 == 0 && j < l && j % 2 == 0
    ensures Head(a, n)[j / 2] == Complex(a[j], a[j + 1])
    ensures Head(a, n)[j / 2 + l / 2] == Complex(a[j + l], a[j + l + 1])
  {
    hide Head, View;
    HalfOf(j, l);
    HeadAt(a, n, j);
    HeadAt(a, n, j + l);
  }

  lemma HalfPassAt(d: nat, a: seq<Complex>, k: nat)
    requires |a| == 2 * d && k < 2 * d
    ensures HalfPass(d, a)[k] == if k < d then Add(a[k], a[k + d]) else Sub(a[k - d], a[k])
  {
    hide Add, Sub;
  }

  lemma HalfDone(cj: bool, s: seq<Complex>, o: seq<Complex>, d: nat)
    requires HalfUpTo(cj, s, o, d, d)
    ensures s == ImageAll(cj, HalfPass(d, o))
  {
    hide HalfPass, Image, ImageAll;
    forall i: nat | i < |o| ensures s[i] == ImageAll(cj, HalfPass(d, o))[i] {
      HalfDoneAt(cj, s, o, d, i);
    }
  }

  lemma HalfDoneAt(cj: bool, s: seq<Complex>, o: seq<Complex>, d: nat, i: nat)
    requires HalfUpTo(cj, s, o, d, d) && i < |o|
    ensures |s| == |o| == 2 * d && s[i] == ImageAll(cj, HalfPass(d, o))[i]
  {
    assert HalfOk(cj, s, o, d, d, if i < d then i else i - d);
    hide HalfUpTo, HalfPass, Add, Sub, Image;
    HalfPassAt(d, o, i);
    ImageAllAt(cj, HalfPass(d, o), i);
  }

  lemma ImageAllAt(cj: bool, s: seq<Complex>, i: nat)
    requires i < |s|
    ensures ImageAll(cj, s)[i] == Image(cj, s[i])
  {
  }

  /** The table is long enough for a transform of n == 2 * Pow2(q) cells: none is needed up to 8. */
  ghost predicate TableLong(n: nat, nw: nat) {
    nw % 2 == 0 && (n > 8 ==> n <= 4 * nw)
  }

  lemma SizesOf(q: nat, u: nat, n: nat, nw: nat)
    requires n == 2 * Pow2(q) && u <= q && TableLong(n, nw)
    ensures u + 2 < q ==> PassSizes(n, Pow2(u), Pow2(q - u - 2), nw)
    ensures 2 * Pow2(u) * 4 < n <==> u + 2 < q
    ensures 2 * Pow2(u) * 4 == n <==> u + 2 == q
    ensures u + 1 == q ==> n == 4 * Pow2(u)
    ensures Pow2(u + 2) == 4 * Pow2(u)
    ensures Pow2(0) == 1
    ensures n > 8 <==> q > 2
  {
    assert TableLong(n, nw) ==> nw % 2 == 0 && (n > 8 ==> n <= 4 * nw);
    hide *;
    Pow2Small();
    Pow2Two(u + 1);
    Pow2Two(u + 2);
    if q < 3 { Pow2Monotone(q, 2); } else { Pow2Monotone(3, q); }
    if u + 2 < q {
      Pow2Monotone(u + 3, q);
      Pow2Two(u + 3);
      PassSizesOf(q, u, n, nw);
    } else if u + 2 > q {
      Pow2Monotone(q, u + 1);
    }
  }

  lemma PassSizesOf(q: nat, u: nat, n: nat, nw: nat)
    requires n == 2 * Pow2(q) && u + 2 < q && nw % 2 == 0 && n <= 4 * nw
    ensures PassSizes(n, Pow2(u), Pow2(q - u - 2), nw)
  {
    var d, c := Pow2(u), q - u - 2;
    Pow2Add(u + 2, c);
    Pow2Two(u + 1);
    Pow2Two(u + 2);
    Pow2Two(c);
    Pow2Monotone(c + 2, q);
    Pow2Two(c + 1);
    Pow2Two(c + 2);
    hide Pow2;
    ProductIsMultiple(2, Pow2(c - 1));
    ProductIsMultiple(2, Pow2(q));
    assert Pow2(u + 2) * Pow2(c) == 4 * d * Pow2(c);
  }

  /** Lines 928-936 and 978-986: every radix-4 pass but the last. */
  method CftLeading(n: nat, a: array<real>, w: array<real>, ghost q: nat, ghost nw: nat) returns (l: nat, ghost u: nat)
    requires 1 <= q && n % 2 == 0 && n == 2 * Pow2(q) <= a.Length
    requires nw % 2 == 0 && nw <= w.Length && a != w && TableLong(n, nw)
    modifies a
    ensures u < q <= u + 2 && l == 2 * Pow2(u)
    ensures Passes(Head(w, nw), q, u, Head(a, n)) == Passes(Head(w, nw), q, 0, old(Head(a, n)))
    ensures a[n..] == old(a[n..])
  {
    ghost var tab, o := Head(w, nw), Head(a, n);
    l := 2;
    u := 0;
    SizesOf(q, 0, n, nw);
    if n > 8 {
      PassesUnfold(tab, q, 0, o);
      hide *;
      Cft1st(n, a, w, Pow2(q - 2), nw);
      l := 8;
      u := 2;
      SizesOf(q, u, n, nw);
      while l * 4 < n
        invariant u < q && l == 2 * Pow2(u)
        invariant Passes(tab, q, u, Head(a, n)) == Passes(tab, q, 0, o)
        invariant a[n..] == old(a[n..])
      {
        SizesOf(q, u, n, nw);
        PassesUnfold(tab, q, u, Head(a, n));
        Cftmdl(n, l, a, w, Pow2(u), Pow2(q - u - 2), nw);
        l := l * 4;
        u := u + 2;
        SizesOf(q, u, n, nw);
      }
    }
    SizesOf(q, u, n, nw);
  }

  lemma PassesUnfold(w: seq<Complex>, q: nat, u: nat, a: seq<Complex>)
    requires u + 2 <= q && |a| == Pow2(q)
    ensures Passes(w, q, u, a) == Passes(w, q, u + 2, Pass(w, Pow2(u), a))
  {
  }

  lemma PassesLast(w: seq<Complex>, q: nat, u: nat, a: seq<Complex>)
    requires |a| == Pow2(q) && u < q <= u + 2
    ensures u + 1 == q ==> |a| == 2 * Pow2(u) && Passes(w, q, u, a) == HalfPass(Pow2(u), a)
    ensures u + 2 == q ==> |a| == 4 * Pow2(u) && Passes(w, q, u, a) == Pass(w, Pow2(u), a)
  {
    if u + 2 == q {
      assert Passes(w, q, u, a) == Passes(w, q, u + 2, Pass(w, Pow2(u), a));
      assert Pow2(u + 2) == 2 * Pow2(u + 1) == 4 * Pow2(u);
    }
  }

  method Cftfsub(n: nat, a: array<real>, w: array<real>, ghost q: nat, ghost nw: nat)
    requires 1 <= q && n % 2 == 0 && n == 2 * Pow2(q) <= a.Length
    requires nw % 2 == 0 && nw <= w.Length && a != w && TableLong(n, nw)
    modifies a
    ensures Head(a, n) == Passes(Head(w, nw), q, 0, old(Head(a, n)))
    ensures a[n..] == old(a[n..])
  {
    hide Head, View, Pass, HalfPass, Passes, BlockUpTo, Pow2, PassSizes;
    var l, u := CftLeading(n, a, w, q, nw);
    ghost var tab, o := Head(w, nw), Head(a, n);
    SizesOf(q, u, n, nw);
    PassesLast(tab, q, u, o);
    if l * 4 == n {
      PlainBlock(a, 0, l, n);
      WholePass(false, tab, Pow2(u), Head(a, n), o);
    } else {
      HalfBlock(false, a, l, n);
    }
  }

  method Cftbsub(n: nat, a: array<real>, w: array<real>, ghost q: nat, ghost nw: nat)
    requires 1 <= q && n % 2 == 0 && n == 2 * Pow2(q) <= a.Length
    requires nw % 2 == 0 && nw <= w.Length && a != w && TableLong(n, nw)
    modifies a
    ensures Head(a, n) == ConjAll(Passes(Head(w, nw), q, 0, old(Head(a, n))))
    ensures a[n..] == old(a[n..])
  {
    hide Head, View, Pass, HalfPass, Passes, BlockUpTo, Pow2, PassSizes;
    var l, u := CftLeading(n, a, w, q, nw);
    ghost var tab, o := Head(w, nw), Head(a, n);
    SizesOf(q, u, n, nw);
    PassesLast(tab, q, u, o);
    if l * 4 == n {
      ConjBlock(a, l, n);
      WholePass(true, tab, Pow2(u), Head(a, n), o);
    } else {
      HalfBlock(true, a, l, n);
    }
  }
}
