/** The passes that turn the transform of packed real data into its half spectrum and back:
    rftfsub and rftbsub (fft4g.c, lines 1255-1304). */
module FftReal {
  import opened Arith
  import opened Complexes
  import opened FftView

  function Cell(s: seq<real>, i: int): real {
    if 0 <= i < |s| then s[i] else 0.0
  }

  /** The factor of pair j, fetched from the table c with step ks. */
  function Half(c: seq<real>, ks: nat, j: nat): Complex {
    Complex(0.5 - Cell(c, |c| - ks * j), Cell(c, ks * j))
  }

  /** Entry p after rftfsub; entries p and |z|-p are treated together. */
  function ForwardEntry(c: seq<real>, ks: nat, z: seq<Complex>, p: nat): Complex
    requires p < |z|
  {
    if p == 0 || 2 * p == |z| then z[p]
    else
      var k := |z| - p;
      if p < k then
        Sub(z[p], Mul(Half(c, ks, p), Sub(z[p], Conj(z[k]))))
      else
        Add(z[p], Conj(Mul(Half(c, ks, k), Sub(z[k], Conj(z[p])))))
  }

  /** Entry p after rftbsub. */
  function BackwardEntry(c: seq<real>, ks: nat, z: seq<Complex>, p: nat): Complex
    requires p < |z|
  {
    if p == 0 || 2 * p == |z| then Conj(z[p])
    else
      var k := |z| - p;
      if p < k then
        Conj(Sub(z[p], Mul(Conj(Half(c, ks, p)), Sub(z[p], Conj(z[k])))))
      else
        Conj(Add(z[p], Conj(Mul(Conj(Half(c, ks, k)), Sub(z[k], Conj(z[p]))))))
  }

  function Forward(c: seq<real>, ks: nat, z: seq<Complex>): (r: seq<Complex>)
    ensures |r| == |z|
  {
    seq(|z|, p requires 0 <= p < |z| => ForwardEntry(c, ks, z, p))
  }

  function Backward(c: seq<real>, ks: nat, z: seq<Complex>): (r: seq<Complex>)
    ensures |r| == |z|
  {
    seq(|z|, p requires 0 <= p < |z| => BackwardEntry(c, ks, z, p))
  }

  /** What makect guarantees of its table: half a cosine faces half a sine. */
  ghost predicate Balanced(c: seq<real>) {
    forall k: nat | 0 < k < |c| :: c[k] * c[k] + c[|c| - k] * c[|c| - k] == 0.25
  }

  lemma HalfBalanced(c: seq<real>, ks: nat, j: nat)
    requires Balanced(c) && 0 < ks * j < |c|
    ensures var h := Half(c, ks, j); h.re * h.re + h.im * h.im == h.re
  {
    var k := ks * j;
    assert c[k] * c[k] + c[|c| - k] * c[|c| - k] == 0.25;
    HalfAlgebra(c[|c| - k], c[k]);
  }

  lemma HalfAlgebra(s: real, x: real)
    requires x * x + s * s == 0.25
    ensures (0.5 - s) * (0.5 - s) + x * x == 0.5 - s
  {
  }

  /** One pair: going there and back conjugates both entries. */
  lemma PairCancels(h: Complex, u: Complex, v: Complex)
    requires h.re * h.re + h.im * h.im == h.re
    ensures var y := Mul(h, Sub(u, v));
            var u1, v1 := Sub(u, y), Add(v, y);
            var y1 := Mul(Conj(h), Sub(u1, v1));
            Sub(u1, y1) == u && Add(v1, y1) == v
  {
    var x := Sub(u, v);
    var y := Mul(h, x);
    var u1, v1 := Sub(u, y), Add(v, y);
    Diff(u, v, y);
    PairFactor(h, x);
  }

  lemma Diff(u: Complex, v: Complex, y: Complex)
    ensures Sub(Sub(u, y), Add(v, y)) == Sub(Sub(u, v), Add(y, y))
  {
  }

  lemma PairFactor(h: Complex, x: Complex)
    requires h.re * h.re + h.im * h.im == h.re
    ensures Mul(Conj(h), Sub(x, Add(Mul(h, x), Mul(h, x)))) == Neg(Mul(h, x))
  {
    Modulus(h);
    MulReal(h.re, x);
    MulReal(2.0 * h.re, x);
    hide Mul;
    var y := Mul(h, x);
    MulAssoc(Conj(h), h, x);
    MulSub(Conj(h), x, Add(y, y));
    MulAdd(Conj(h), y, y);
    MulAdd(x, Conj(h), h);
    assert Add(Conj(h), h) == Complex(2.0 * h.re, 0.0);
    assert Scale(2.0 * h.re, x) == Add(Scale(h.re, x), Scale(h.re, x));
  }

  lemma Modulus(h: Complex)
    ensures Mul(Conj(h), h) == Complex(h.re * h.re + h.im * h.im, 0.0)
  {
  }

  lemma MulReal(r: real, x: Complex)
    ensures Mul(Complex(r, 0.0), x) == Scale(r, x)
  {
  }

  lemma MulSub(x: Complex, y: Complex, z: Complex)
    ensures Mul(x, Sub(y, z)) == Sub(Mul(x, y), Mul(x, z))
  {
  }

  /** The step through the table: pair j of n/2 entries uses entry ks*j of a table of |c|. */
  ghost predicate StepFits(ks: nat, entries: nat, tab: nat) {
    0 < ks && ks * entries == 2 * tab
  }

  lemma StepInside(ks: nat, entries: nat, tab: nat, j: nat)
    requires StepFits(ks, entries, tab) && 0 < j && 2 * j < entries
    ensures 0 < ks * j < tab
  {
    MulLe(ks, 1, j);
    MulLe(ks, 2 * j + 1, entries);
    MulDistrib(ks, 2 * j, 1);
    MulAssoc3(ks, 2, j);
  }

  /** The two real passes cancel up to conjugation of every entry. */
  lemma RealPassesCancel(c: seq<real>, ks: nat, z: seq<Complex>)
    requires Balanced(c) && StepFits(ks, |z|, |c|)
    ensures Backward(c, ks, Forward(c, ks, z)) == ConjAll(z)
  {
    var f := Forward(c, ks, z);
    hide Forward, Backward;
    forall p: nat | p < |z|
      ensures Backward(c, ks, f)[p] == Conj(z[p])
    {
      CancelEntry(c, ks, z, p);
    }
  }

  lemma CancelEntry(c: seq<real>, ks: nat, z: seq<Complex>, p: nat)
    requires Balanced(c) && StepFits(ks, |z|, |c|) && p < |z|
    ensures Backward(c, ks, Forward(c, ks, z))[p] == Conj(z[p])
  {
    if p == 0 || 2 * p == |z| {
      assert Forward(c, ks, z)[p] == z[p];
    } else {
      hide Half, Mul, Add, Sub, Conj, Balanced, StepFits;
      var k := |z| - p;
      CancelPair(c, ks, z, if p < k then p else k);
    }
  }

  lemma CancelPair(c: seq<real>, ks: nat, z: seq<Complex>, j: nat)
    requires Balanced(c) && StepFits(ks, |z|, |c|) && 0 < j && 2 * j < |z|
    ensures var f := Forward(c, ks, z);
            Backward(c, ks, f)[j] == Conj(z[j]) && Backward(c, ks, f)[|z| - j] == Conj(z[|z| - j])
  {
    var f, i, h := Forward(c, ks, z), |z| - j, Half(c, ks, j);
    StepInside(ks, |z|, |c|, j);
    HalfBalanced(c, ks, j);
    PairReturns(h, z[j], z[i]);
    hide Half, Mul, Add, Sub, Conj, Balanced, StepFits;
    var y := Mul(h, Sub(z[j], Conj(z[i])));
    assert f[j] == Sub(z[j], y) && f[i] == Add(z[i], Conj(y));
  }

  lemma PairReturns(h: Complex, zj: Complex, zi: Complex)
    requires h.re * h.re + h.im * h.im == h.re
    ensures var y := Mul(h, Sub(zj, Conj(zi)));
            var fj, fi := Sub(zj, y), Add(zi, Conj(y));
            var x := Mul(Conj(h), Sub(fj, Conj(fi)));
            Conj(Sub(fj, x)) == Conj(zj) && Conj(Add(fi, Conj(x))) == Conj(zi)
  {
    PairCancels(h, zj, Conj(zi));
    hide Mul;
    var y := Mul(h, Sub(zj, Conj(zi)));
    assert Conj(Add(zi, Conj(y))) == Add(Conj(zi), y);
  }

  /** Nor does it matter which comes first. */
  lemma RealPassesCancelBack(c: seq<real>, ks: nat, u: seq<Complex>)
    requires |u| <= 2 || (Balanced(c) && StepFits(ks, |u|, |c|))
    ensures Forward(c, ks, ConjAll(Backward(c, ks, u))) == u
  {
    var b := ConjAll(Backward(c, ks, u));
    hide Forward, Backward;
    forall p: nat | p < |u| ensures Forward(c, ks, b)[p] == u[p] {
      CancelBackEntry(c, ks, u, p);
    }
  }

  lemma CancelBackEntry(c: seq<real>, ks: nat, u: seq<Complex>, p: nat)
    requires |u| <= 2 || (Balanced(c) && StepFits(ks, |u|, |c|))
    requires p < |u|
    ensures Forward(c, ks, ConjAll(Backward(c, ks, u)))[p] == u[p]
  {
    if p == 0 || 2 * p == |u| {
      assert Backward(c, ks, u)[p] == Conj(u[p]);
      ConjLaws(u[p], u[p]);
    } else {
      hide Half, Mul, Add, Sub, Conj, Balanced, StepFits;
      var k := |u| - p;
      CancelBackPair(c, ks, u, if p < k then p else k);
    }
  }

  lemma CancelBackPair(c: seq<real>, ks: nat, u: seq<Complex>, j: nat)
    requires Balanced(c) && StepFits(ks, |u|, |c|) && 0 < j && 2 * j < |u|
    ensures var b := ConjAll(Backward(c, ks, u));
            Forward(c, ks, b)[j] == u[j] && Forward(c, ks, b)[|u| - j] == u[|u| - j]
  {
    var b, i, h := Backward(c, ks, u), |u| - j, Half(c, ks, j);
    StepInside(ks, |u|, |c|, j);
    HalfBalanced(c, ks, j);
    PairReturnsBack(h, u[j], u[i]);
    var y := Mul(Conj(h), Sub(u[j], Conj(u[i])));
    ConjLaws(Sub(u[j], y), Add(u[i], Conj(y)));
    ConjLaws(Add(u[i], Conj(y)), y);
    hide Half, Mul, Add, Sub, Conj, Balanced, StepFits;
    assert b[j] == Conj(Sub(u[j], y)) && b[i] == Conj(Add(u[i], Conj(y)));
  }

  lemma PairReturnsBack(h: Complex, uj: Complex, ui: Complex)
    requires h.re * h.re + h.im * h.im == h.re
    ensures var y := Mul(Conj(h), Sub(uj, Conj(ui)));
            var bj, bi := Sub(uj, y), Add(ui, Conj(y));
            var x := Mul(h, Sub(bj, Conj(bi)));
            Sub(bj, x) == uj && Add(bi, Conj(x)) == ui
  {
    SignSquared(h.im);
    PairCancels(Conj(h), uj, Conj(ui));
    hide Mul;
    var y := Mul(Conj(h), Sub(uj, Conj(ui)));
    assert Conj(Add(ui, Conj(y))) == Add(Conj(ui), y);
  }

  lemma SignSquared(x: real)
    ensures (-x) * (-x) == x * x
  {
  }

  // ---- the loops ----

  /** Pairs below j are done. */
  ghost predicate PairsUpTo(back: bool, c: seq<real>, ks: nat, s: seq<Complex>, o: seq<Complex>, j: nat) {
    && |s| == |o|
    && forall p: nat | p < |o| :: PairOk(back, c, ks, s, o, j, p)
  }

  ghost predicate PairOk(back: bool, c: seq<real>, ks: nat, s: seq<Complex>, o: seq<Complex>, j: nat, p: nat)
    requires |s| == |o| && p < |o|
  {
    s[p] == if 0 < p && 2 * p != |o| && (p < j || |o| - p < j) then
              (if back then BackwardEntry(c, ks, o, p) else ForwardEntry(c, ks, o, p))
            else o[p]
  }

  lemma PairsStep(back: bool, c: seq<real>, ks: nat, s: seq<Complex>, o: seq<Complex>, j: nat, u: Complex, v: Complex)
    requires PairsUpTo(back, c, ks, s, o, j) && 0 < j && 2 * j < |o|
    requires u == (if back then BackwardEntry(c, ks, o, j) else ForwardEntry(c, ks, o, j))
    requires v == (if back then BackwardEntry(c, ks, o, |o| - j) else ForwardEntry(c, ks, o, |o| - j))
    ensures PairsUpTo(back, c, ks, s[j := u][|o| - j := v], o, j + 1)
    ensures s[j] == o[j] && s[|o| - j] == o[|o| - j]
  {
    hide BackwardEntry, ForwardEntry;
    var r, next := s[j := u][|o| - j := v], j + 1;
    assert PairOk(back, c, ks, s, o, j, j) && PairOk(back, c, ks, s, o, j, |o| - j);
    forall p: nat | p < |o| ensures PairOk(back, c, ks, r, o, next, p) {
      assert PairOk(back, c, ks, s, o, j, p);
    }
  }

  lemma PairsRead(back: bool, c: seq<real>, ks: nat, s: seq<Complex>, o: seq<Complex>, j: nat)
    requires PairsUpTo(back, c, ks, s, o, j) && 0 < j && 2 * j < |o|
    ensures s[j] == o[j] && s[|o| - j] == o[|o| - j]
  {
    hide BackwardEntry, ForwardEntry;
    assert PairOk(back, c, ks, s, o, j, j) && PairOk(back, c, ks, s, o, j, |o| - j);
  }

  lemma PairsStart(back: bool, c: seq<real>, ks: nat, o: seq<Complex>)
    ensures PairsUpTo(back, c, ks, o, o, 1)
  {
    forall p: nat | p < |o| ensures PairOk(back, c, ks, o, o, 1, p) {
    }
  }

  lemma PairsEnd(c: seq<real>, ks: nat, s: seq<Complex>, o: seq<Complex>, j: nat)
    requires PairsUpTo(false, c, ks, s, o, j) && |o| <= 2 * j
    ensures s == Forward(c, ks, o)
  {
    forall p: nat | p < |o| ensures s[p] == Forward(c, ks, o)[p] {
      assert PairOk(false, c, ks, s, o, j, p);
      hide PairOk;
    }
  }

  method Rftfsub(n: nat, a: array<real>, nc: nat, w: array<real>, off: nat, ghost ks0: nat)
    requires n % 4 == 0 && n % 2 == 0 && 0 < n <= a.Length && off + nc <= w.Length && a != w
    requires StepFits(ks0, n / 2, nc)
    modifies a
    ensures Head(a, n) == Forward(w[off..off + nc], ks0, old(Head(a, n)))
    ensures a[n..] == old(a[n..])
  {
    ghost var c, o := w[off..off + nc], Head(a, n);
    var m := n / 2;
    var ks := 2 * nc / m;
    StepIs(ks0, m, nc);
    var kk := 0;
    var j := 2;
    PairsStart(false, c, ks, o);
    hide Head, View, PairsUpTo, Forward;
    while j < m
      invariant j % 2 == 0 && 2 <= j && kk == ks * (j / 2 - 1)
      invariant PairsUpTo(false, c, ks, Head(a, n), o, j / 2)
      invariant a[n..] == old(a[n..])
    {
      MulDistrib(ks, j / 2 - 1, 1);
      kk := kk + ks;
      StepInside(ks, m, nc, j / 2);
      ForwardPair(n, a, nc, w, off, ks, kk, j, o);
      j := j + 2;
    }
    PairsEnd(c, ks, Head(a, n), o, j / 2);
  }

  lemma StepIs(ks: nat, m: nat, nc: nat)
    requires StepFits(ks, m, nc) && m > 0
    ensures 2 * nc / m == ks
  {
    DigitsDivMod(m, 0, ks);
  }

  /** The loop body of rftfsub. */
  method ForwardPair(n: nat, a: array<real>, nc: nat, w: array<real>, off: nat, ks: nat, kk: nat, j: nat,
      ghost o: seq<Complex>)
    requires n % 4 == 0 && n % 2 == 0 && n <= a.Length && off + nc <= w.Length && a != w
    requires j % 2 == 0 && 0 < j && 2 * j < n && kk == ks * (j / 2) && 0 < kk < nc
    requires PairsUpTo(false, w[off..off + nc], ks, Head(a, n), o, j / 2)
    modifies a
    ensures PairsUpTo(false, w[off..off + nc], ks, Head(a, n), o, j / 2 + 1)
    ensures a[n..] == old(a[n..])
  {
    hide Head, View, PairsUpTo, ForwardEntry;
    ghost var c, s := w[off..off + nc], Head(a, n);
    var k := n - j;
    PairCells(n, a, j);
    PairsLength(false, c, ks, s, o, j / 2);
    PairsRead(false, c, ks, s, o, j / 2);
    var wkr := 0.5 - w[off + nc - kk];
    var wki := w[off + kk];
    var xr := a[j] - a[k];
    var xi := a[j + 1] + a[k + 1];
    var yr := wkr * xr - wki * xi;
    var yi := wkr * xi + wki * xr;
    ghost var u := Complex(a[j] - yr, a[j + 1] - yi);
    ghost var v := Complex(a[k] + yr, a[k + 1] - yi);
    ForwardValues(c, ks, o, j / 2, kk, wkr, wki, u, v);
    PairsStep(false, c, ks, s, o, j / 2, u, v);
    StorePair(n, a, j, a[j] - yr, a[j + 1] - yi, a[k] + yr, a[k + 1] - yi);
  }

  /** Entries j and n-j, in cells. */
  lemma PairCells(n: nat, a: array<real>, j: nat)
    requires n % 4 == 0 && n % 2 == 0 && n <= a.Length && j % 2 == 0 && 0 < j && 2 * j < n
    ensures Head(a, n)[j / 2] == Complex(a[j], a[j + 1])
    ensures Head(a, n)[n / 2 - j / 2] == Complex(a[n - j], a[n - j + 1])
  {
    hide Head, View;
    HalfDifference(n, j);
    HeadAt(a, n, j);
    HeadAt(a, n, n - j);
  }

  lemma HalfDifference(n: nat, j: nat)
    requires n % 4 == 0 && n % 2 == 0 && j % 2 == 0 && j <= n
    ensures (n - j) / 2 == n / 2 - j / 2 && (n - j) % 2 == 0
  {
    var x, y := n / 4, j / 2;
    assert n == 4 * x && j == 2 * y;
    assert n - j == 2 * (2 * x - y);
  }

  method StorePair(n: nat, a: array<real>, j: nat, ur: real, ui: real, vr: real, vi: real)
    requires n % 4 == 0 && n % 2 == 0 && n <= a.Length && j % 2 == 0 && 0 < j && 2 * j < n
    modifies a
    ensures Head(a, n) == old(Head(a, n))[j / 2 := Complex(ur, ui)][n / 2 - j / 2 := Complex(vr, vi)]
    ensures a[n..] == old(a[n..])
  {
    hide Head, View;
    var k := n - j;
    HalfDifference(n, j);
    SetPair(a, j, ur, ui, n);
    SetPair(a, k, vr, vi, n);
  }

  lemma PairsLength(back: bool, c: seq<real>, ks: nat, s: seq<Complex>, o: seq<Complex>, j: nat)
    requires PairsUpTo(back, c, ks, s, o, j)
    ensures |s| == |o|
  {
  }

  lemma ForwardValues(c: seq<real>, ks: nat, o: seq<Complex>, p: nat, kk: nat, wkr: real, wki: real, u: Complex,
      v: Complex)
    requires 0 < p && 2 * p < |o| && kk == ks * p && 0 < kk < |c|
    requires wkr == 0.5 - c[|c| - kk] && wki == c[kk]
    requires var k := |o| - p;
             var xr, xi := o[p].re - o[k].re, o[p].im + o[k].im;
             var yr, yi := wkr * xr - wki * xi, wkr * xi + wki * xr;
             u == Complex(o[p].re - yr, o[p].im - yi) && v == Complex(o[k].re + yr, o[k].im - yi)
    ensures u == ForwardEntry(c, ks, o, p) && v == ForwardEntry(c, ks, o, |o| - p)
  {
    hide Mul;
    var k := |o| - p;
    MulParts(wkr, wki, o[p].re - o[k].re, o[p].im + o[k].im);
    assert Half(c, ks, p) == Complex(wkr, wki);
    assert Sub(o[p], Conj(o[k])) == Complex(o[p].re - o[k].re, o[p].im + o[k].im);
  }

  /** The loop body of rftbsub. */
  method BackwardPair(n: nat, a: array<real>, nc: nat, w: array<real>, off: nat, ks: nat, kk: nat, j: nat,
      ghost o: seq<Complex>)
    requires n % 4 == 0 && n % 2 == 0 && n <= a.Length && off + nc <= w.Length && a != w
    requires j % 2 == 0 && 0 < j && 2 * j < n && kk == ks * (j / 2) && 0 < kk < nc
    requires PairsUpTo(true, w[off..off + nc], ks, Head(a, n), o, j / 2)
    modifies a
    ensures PairsUpTo(true, w[off..off + nc], ks, Head(a, n), o, j / 2 + 1)
    ensures a[n..] == old(a[n..])
  {
    hide Head, View, PairsUpTo, BackwardEntry;
    ghost var c, s := w[off..off + nc], Head(a, n);
    var k := n - j;
    PairCells(n, a, j);
    PairsLength(true, c, ks, s, o, j / 2);
    PairsRead(true, c, ks, s, o, j / 2);
    var wkr := 0.5 - w[off + nc - kk];
    var wki := w[off + kk];
    var xr := a[j] - a[k];
    var xi := a[j + 1] + a[k + 1];
    var yr := wkr * xr + wki * xi;
    var yi := wkr * xi - wki * xr;
    ghost var u := Complex(a[j] - yr, yi - a[j + 1]);
    ghost var v := Complex(a[k] + yr, yi - a[k + 1]);
    BackwardValues(c, ks, o, j / 2, kk, wkr, wki, u, v);
    PairsStep(true, c, ks, s, o, j / 2, u, v);
    StorePair(n, a, j, a[j] - yr, yi - a[j + 1], a[k] + yr, yi - a[k + 1]);
  }

  lemma BackwardValues(c: seq<real>, ks: nat, o: seq<Complex>, p: nat, kk: nat, wkr: real, wki: real, u: Complex,
      v: Complex)
    requires 0 < p && 2 * p < |o| && kk == ks * p && 0 < kk < |c|
    requires wkr == 0.5 - c[|c| - kk] && wki == c[kk]
    requires var k := |o| - p;
             var xr, xi := o[p].re - o[k].re, o[p].im + o[k].im;
             var yr, yi := wkr * xr + wki * xi, wkr * xi - wki * xr;
             u == Complex(o[p].re - yr, yi - o[p].im) && v == Complex(o[k].re + yr, yi - o[k].im)
    ensures u == BackwardEntry(c, ks, o, p) && v == BackwardEntry(c, ks, o, |o| - p)
  {
    hide Mul;
    var k := |o| - p;
    MulParts(wkr, wki, o[p].re - o[k].re, o[p].im + o[k].im);
    assert Conj(Half(c, ks, p)) == Complex(wkr, -wki);
    assert Sub(o[p], Conj(o[k])) == Complex(o[p].re - o[k].re, o[p].im + o[k].im);
  }

  lemma BackwardEnd(c: seq<real>, ks: nat, s: seq<Complex>, o: seq<Complex>, z: seq<Complex>, j: nat)
    requires |z| % 2 == 0 && |z| > 0 && o == z[0 := Conj(z[0])]
    requires PairsUpTo(true, c, ks, s, o, j) && |o| <= 2 * j
    ensures s[|z| / 2 := Conj(s[|z| / 2])] == Backward(c, ks, z)
  {
    var r := s[|z| / 2 := Conj(s[|z| / 2])];
    forall p: nat | p < |z| ensures r[p] == Backward(c, ks, z)[p] {
      assert PairOk(true, c, ks, s, o, j, p);
      if p > 0 {
        BackwardSame(c, ks, o, z, p);
        hide BackwardEntry;
      }
    }
  }

  lemma BackwardSame(c: seq<real>, ks: nat, o: seq<Complex>, z: seq<Complex>, p: nat)
    requires |o| == |z| && 0 < p < |z| && (forall i: nat | 0 < i < |z| :: o[i] == z[i])
    ensures BackwardEntry(c, ks, o, p) == BackwardEntry(c, ks, z, p)
  {
    hide Mul, Add, Sub, Half;
  }

  method Rftbsub(n: nat, a: array<real>, nc: nat, w: array<real>, off: nat, ghost ks0: nat)
    requires n % 4 == 0 && n % 2 == 0 && 0 < n <= a.Length && off + nc <= w.Length && a != w
    requires StepFits(ks0, n / 2, nc)
    modifies a
    ensures Head(a, n) == Backward(w[off..off + nc], ks0, old(Head(a, n)))
    ensures a[n..] == old(a[n..])
  {
    hide Head, View, PairsUpTo, Backward;
    ghost var c, z := w[off..off + nc], Head(a, n);
    FlipCell(n, a, 0);
    var j := BackwardLoop(n, a, nc, w, off, ks0);
    var m := n / 2;
    BackwardEnd(c, ks0, Head(a, n), z[0 := Conj(z[0])], z, j / 2);
    FlipCell(n, a, m);
  }

  method FlipCell(n: nat, a: array<real>, j: nat)
    requires n % 2 == 0 && n <= a.Length && j % 2 == 0 && j < n
    modifies a
    ensures Head(a, n) == old(Head(a, n))[j / 2 := Conj(old(Head(a, n))[j / 2])]
    ensures a[n..] == old(a[n..])
  {
    hide Head, View;
    HeadAt(a, n, j);
    SetPair(a, j, a[j], -a[j + 1], n);
  }

  /** Lines 1286-1302. */
  method BackwardLoop(n: nat, a: array<real>, nc: nat, w: array<real>, off: nat, ghost ks0: nat) returns (j: nat)
    requires n % 4 == 0 && n % 2 == 0 && 0 < n <= a.Length && off + nc <= w.Length && a != w
    requires StepFits(ks0, n / 2, nc)
    modifies a
    ensures j % 2 == 0 && n / 2 <= 2 * (j / 2)
    ensures PairsUpTo(true, w[off..off + nc], ks0, Head(a, n), old(Head(a, n)), j / 2)
    ensures a[n..] == old(a[n..])
  {
    ghost var c, o := w[off..off + nc], Head(a, n);
    var m := n / 2;
    var ks := 2 * nc / m;
    StepIs(ks0, m, nc);
    var kk := 0;
    j := 2;
    PairsStart(true, c, ks, o);
    hide Head, View, PairsUpTo, Backward;
    while j < m
      invariant j % 2 == 0 && 2 <= j && kk == ks * (j / 2 - 1)
      invariant PairsUpTo(true, c, ks, Head(a, n), o, j / 2)
      invariant a[n..] == old(a[n..])
    {
      MulDistrib(ks, j / 2 - 1, 1);
      kk := kk + ks;
      StepInside(ks, m, nc, j / 2);
      BackwardPair(n, a, nc, w, off, ks, kk, j, o);
      j := j + 2;
    }
  }
}
