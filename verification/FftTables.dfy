/** makewt and makect (fft4g.c, lines 661-706): the tables of cosines and sines.
    The angle delta of both is a quarter circle divided by the table size, so cos(delta*j) and
    sin(delta*j) are the parts of the j-th power of one root of unity, passed in as a number. */
module FftTables {
  import opened Arith
  import opened Complexes
  import opened BitReversal
  import opened FftView
  import opened FftReorder
  import opened FftTheorem
  import opened FftReal

  /** turn(m) stands for exp(2*pi*i/m), the pair of cos(2*pi/m) and sin(2*pi/m): for every power
      of two a root of unity of that order, and they nest. */
  ghost predicate IsTurn(turn: nat -> Complex) {
    && (forall p: nat :: TurnIsRoot(turn, p))
    && (forall p: nat, r: nat :: TurnsNest(turn, p, r))
  }

  ghost predicate TurnIsRoot(turn: nat -> Complex, p: nat) {
    Root(turn(Pow2(p)), p)
  }

  ghost predicate TurnsNest(turn: nat -> Complex, p: nat, r: nat) {
    Pow(turn(Pow2(p + r)), Pow2(r)) == turn(Pow2(p))
  }

  lemma TurnRoot(turn: nat -> Complex, p: nat)
    requires IsTurn(turn)
    ensures Root(turn(Pow2(p)), p)
  {
    assert TurnIsRoot(turn, p);
  }

  lemma TurnNest(turn: nat -> Complex, p: nat, r: nat)
    requires IsTurn(turn)
    ensures Pow(turn(Pow2(p + r)), Pow2(r)) == turn(Pow2(p))
  {
    assert TurnsNest(turn, p, r);
  }

  // ---- mirror images within a quarter circle ----

  /** Going back from the quarter turn exchanges the parts. */
  lemma QuarterMirror(rho: Complex, quarter: nat, j: nat)
    requires Unit(rho) && Pow(rho, quarter) == I && j <= quarter
    ensures Pow(rho, quarter - j) == Complex(Pow(rho, j).im, Pow(rho, j).re)
  {
    hide *;
    PowAdd(rho, j, quarter - j);
    PowUnit(rho, j);
    MirrorAlgebra(Pow(rho, j), Pow(rho, quarter - j));
  }

  lemma MirrorAlgebra(u: Complex, v: Complex)
    requires Unit(u) && Mul(u, v) == I
    ensures v == Complex(u.im, u.re)
  {
    UnitConj(u);
    UnitProducts(Conj(u));
    hide Mul;
    MulAssoc(Conj(u), u, v);
    MulComm(Conj(u), u);
    MulComm(Conj(u), I);
    MulOne(v);
  }

  /** Half way to the quarter turn both parts are equal. */
  lemma QuarterMiddle(rho: Complex, half: nat)
    requires Unit(rho) && Pow(rho, 2 * half) == I
    ensures Pow(rho, half).re == Pow(rho, half).im
  {
    hide Pow;
    QuarterMirror(rho, 2 * half, half);
    assert 2 * half - half == half;
  }

  // ---- makewt ----

  /** Entries 0, the middle one, those below j and those above their mirror image hold powers. */
  ghost predicate PowersUpTo(s: seq<Complex>, rho: Complex, j: nat) {
    forall p: nat | p < |s| && (p == 0 || 2 * p == |s| || p < j || |s| - p < j) :: s[p] == Pow(rho, 2 * p)
  }

  lemma PowersStep(s: seq<Complex>, rho: Complex, j: nat, x: real, y: real)
    requires PowersUpTo(s, rho, j) && 0 < j && 2 * j < |s|
    requires Unit(rho) && Pow(rho, 2 * |s|) == I && Complex(x, y) == Pow(rho, 2 * j)
    ensures PowersUpTo(s[j := Complex(x, y)][|s| - j := Complex(y, x)], rho, j + 1)
  {
    hide Pow;
    QuarterMirror(rho, 2 * |s|, 2 * j);
    assert 2 * |s| - 2 * j == 2 * (|s| - j);
  }

  lemma MakewtSizes(nw: nat, rho: Complex, q: nat)
    requires q >= 3 && 2 * nw == Pow2(q) && Root(rho, q + 1)
    ensures nw == 2 * Pow2(q - 2) && nw % 4 == 0 && Unit(rho) && Pow(rho, nw) == I
    ensures q > 3 ==> nw % 8 == 0
    ensures q == 3 <==> nw == 4
  {
    hide *;
    RootUnit(rho, q + 1);
    RootQuarter(rho, q + 1);
    Pow2Small();
    Pow2Two(q);
    Pow2Two(q - 1);
    Pow2Two(q - 2);
    ProductIsMultiple(4, Pow2(q - 3));
    if q > 3 {
      Pow2Two(q - 3);
      ProductIsMultiple(8, Pow2(q - 4));
    }
  }

  lemma FirstPowers(s: seq<Complex>, rho: Complex)
    requires |s| % 2 == 0 && |s| > 0 && Unit(rho) && Pow(rho, 2 * |s|) == I
    requires s[0] == Complex(1.0, 0.0) && s[|s| / 2] == Complex(Pow(rho, |s|).re, Pow(rho, |s|).re)
    ensures PowersUpTo(s, rho, 1)
  {
    assert Pow(rho, 0) == ONE;
    hide Pow;
    QuarterMiddle(rho, |s|);
  }

  /** The loop of makewt, lines 676-683. */
  method FillPowers(nw: nat, w: array<real>, rho: Complex)
    requires nw % 2 == 0 && nw % 8 == 0 && 0 < nw <= w.Length
    requires Unit(rho) && Pow(rho, nw) == I && PowersUpTo(Head(w, nw), rho, 1)
    modifies w
    ensures forall p: nat | p < nw / 2 :: Head(w, nw)[p] == Pow(rho, 2 * p)
    ensures w[nw..] == old(w[nw..])
  {
    hide *;
    var nwh := nw / 2;
    assert nw == 2 * nwh;
    var j := 2;
    ghost var p := 1;
    while j < nwh
      invariant j == 2 * p && 1 <= p
      invariant PowersUpTo(Head(w, nw), rho, p)
      invariant w[nw..] == old(w[nw..])
    {
      var x := Pow(rho, j).re;
      var y := Pow(rho, j).im;
      StoreMirrored(nw, w, rho, j, x, y, p);
      j := j + 2;
      p := p + 1;
    }
    PowersEnd(Head(w, nw), rho, p);
  }

  method StoreMirrored(nw: nat, w: array<real>, rho: Complex, j: nat, x: real, y: real, ghost p: nat)
    requires nw % 2 == 0 && nw % 8 == 0 && 0 < nw <= w.Length && j == 2 * p && 0 < p && 2 * j < nw
    requires Unit(rho) && Pow(rho, nw) == I && PowersUpTo(Head(w, nw), rho, p) && Complex(x, y) == Pow(rho, j)
    modifies w
    ensures PowersUpTo(Head(w, nw), rho, p + 1)
    ensures w[nw..] == old(w[nw..])
  {
    hide *;
    MirrorCell(nw, p);
    PowersStep(Head(w, nw), rho, p, x, y);
    SetPair(w, j, x, y, nw);
    SetPair(w, nw - j, y, x, nw);
  }

  lemma PowersEnd(s: seq<Complex>, rho: Complex, j: nat)
    requires PowersUpTo(s, rho, j) && |s| <= 2 * j
    ensures forall p: nat | p < |s| :: s[p] == Pow(rho, 2 * p)
  {
    hide Pow;
  }

  lemma MirrorCell(nw: nat, p: nat)
    requires nw % 8 == 0 && 2 * p <= nw
    ensures 2 * p % 2 == 0 && 2 * p / 2 == p && nw % 2 == 0 && 2 * (nw / 2) == nw
    ensures (nw - 2 * p) / 2 == nw / 2 - p && (nw - 2 * p) % 2 == 0
  {
    var x := nw / 8;
    DigitsDivMod(2, 0, p);
    DigitsDivMod(2, 0, 4 * x);
    DigitsDivMod(2, 0, 4 * x - p);
    assert nw == 2 * (4 * x) && nw - 2 * p == 2 * (4 * x - p);
  }

  /** Powers in natural order become a good table once reordered. */
  lemma ReorderedPowers(s: seq<Complex>, rho: Complex, q: nat)
    requires q >= 3 && |s| == Pow2(q - 2) && forall p: nat | p < |s| :: s[p] == Pow(rho, 2 * p)
    ensures GoodTable(Reordered(false, q - 2, s), Mul(rho, rho), q)
  {
    var t := Reordered(false, q - 2, s);
    forall b: nat | b < Pow2(q - 2) ensures At(t, b) == Pow(Mul(rho, rho), Rev(q - 2, b)) {
      RevBound(q - 2, b);
      assert t[b] == s[Rev(q - 2, b)];
      hide *;
      SquarePower(rho, Rev(q - 2, b));
    }
  }

  lemma SquarePower(rho: Complex, k: nat)
    ensures Pow(rho, 2 * k) == Pow(Mul(rho, rho), k)
  {
    PowOne(rho);
    hide Pow, Mul;
    PowAdd(rho, 1, 1);
    PowMul(rho, 2, k);
  }

  /** Two entries are in reversed order as they are. */
  lemma SmallTable(s: seq<Complex>, rho: Complex)
    requires |s| == 2 && PowersUpTo(s, rho, 1)
    ensures GoodTable(s, Mul(rho, rho), 3)
  {
    Pow2Small();
    RevSmall(0);
    RevSmall(1);
    SquarePower(rho, 0);
    SquarePower(rho, 1);
    hide Pow, Mul, Pow2, Rev;
    assert s[0] == Pow(rho, 2 * 0) && s[1] == Pow(rho, 2 * 1);
  }

  /** The table for nw cells, from the root rho of order 4*nw. */
  method Makewt(nw: nat, ip: array<nat>, w: array<real>, rho: Complex, ghost q: nat)
    requires ip.Length >= 2 && nw <= w.Length && nw <= Pow2(23)
    requires nw > 2 ==> nw % 2 == 0
    requires nw > 2 ==> q >= 3 && 2 * nw == Pow2(q) && Root(rho, q + 1)
    modifies ip, w
    ensures ip[0] == nw && ip[1] == 1
    ensures w[nw..] == old(w[nw..])
    ensures nw > 2 ==> GoodTable(Head(w, nw), Mul(rho, rho), q)
  {
    ip[0] := nw;
    ip[1] := 1;
    if nw > 2 {
      FillTable(nw, w, rho, q);
    }
  }

  /** Lines 669-685. */
  method FillTable(nw: nat, w: array<real>, rho: Complex, ghost q: nat)
    requires 2 < nw <= w.Length && nw <= Pow2(23) && nw % 2 == 0
    requires q >= 3 && 2 * nw == Pow2(q) && Root(rho, q + 1)
    modifies w
    ensures w[nw..] == old(w[nw..])
    ensures GoodTable(Head(w, nw), Mul(rho, rho), q)
  {
    hide *;
    MakewtSizes(nw, rho, q);
    var nwh := nw / 2;
    SetPair(w, 0, 1.0, 0.0, nw);
    SetPair(w, nwh, Pow(rho, nwh).re, Pow(rho, nwh).re, nw);
    assert 0 / 2 == 0 && nwh / 2 == nw / 2 / 2;
    FirstPowers(Head(w, nw), rho);
    if nwh > 2 {
      FillPowers(nw, w, rho);
      ghost var s := Head(w, nw);
      Bitrv2(nw, w, q - 2);
      ReorderedPowers(s, rho, q);
    } else {
      SmallTable(Head(w, nw), rho);
    }
  }

  // ---- makect ----

  /** The table for nc cells behind the first off cells, from the root rho of order 4*nc:
      entry k is half a cosine, so entry nc-k is half a sine. */
  ghost predicate HalfCosines(c: seq<real>, rho: Complex) {
    forall k: nat | 0 < k < |c| :: c[k] == 0.5 * Pow(rho, k).re
  }

  method Makect(nc: nat, ip: array<nat>, w: array<real>, off: nat, rho: Complex)
    requires ip.Length >= 2 && off + nc <= w.Length
    requires nc > 1 ==> nc % 2 == 0 && Unit(rho) && Pow(rho, nc) == I
    modifies ip, w
    ensures ip[1] == nc && ip[0] == old(ip[0])
    ensures w[..off] == old(w[..off])
    ensures HalfCosines(w[off..off + nc], rho)
  {
    hide Pow;
    ip[1] := nc;
    if nc > 1 {
      var nch := nc / 2;
      QuarterMiddle(rho, nch);
      w[off] := Pow(rho, nch).re;
      w[off + nch] := 0.5 * w[off];
      for j := 1 to nch
        invariant w[..off] == old(w[..off]) && ip[1] == nc && ip[0] == old(ip[0])
        invariant w[off + nch] == 0.5 * Pow(rho, nch).re
        invariant forall k: nat | 0 < k < j :: w[off + k] == 0.5 * Pow(rho, k).re
        invariant forall k: nat | nc - j < k < nc :: w[off + k] == 0.5 * Pow(rho, k).re
      {
        QuarterMirror(rho, nc, j);
        w[off + j] := 0.5 * Pow(rho, j).re;
        w[off + nc - j] := 0.5 * Pow(rho, j).im;
      }
    }
  }

  /** What the passes rftfsub and rftbsub need of the table. */
  lemma CosinesBalanced(c: seq<real>, rho: Complex)
    requires HalfCosines(c, rho) && Unit(rho) && (|c| > 1 ==> Pow(rho, |c|) == I)
    ensures Balanced(c)
  {
    forall k: nat | 0 < k < |c| ensures c[k] * c[k] + c[|c| - k] * c[|c| - k] == 0.25 {
      PowUnit(rho, k);
      QuarterMirror(rho, |c|, k);
      assert c[k] == 0.5 * Pow(rho, k).re && c[|c| - k] == 0.5 * Pow(rho, |c| - k).re;
      hide Pow;
      Quarter(Pow(rho, k));
    }
  }

  lemma Quarter(u: Complex)
    requires Unit(u)
    ensures (0.5 * u.re) * (0.5 * u.re) + (0.5 * u.im) * (0.5 * u.im) == 0.25
  {
  }
}
