/** cdft and rdft (fft4g.c, lines 326-382): the entry points, with their table building, proved
    against the documented definitions. */
module Fft {
  import opened Arith
  import opened Complexes
  import opened BitReversal
  import opened FftView
  import opened FftReorder
  import opened FftPasses
  import opened FftTheorem
  import opened FftReal
  import opened FftTables
  import opened FftSpectrum
  import opened FftRealSpectrum
  import opened FftInverse
  import opened TableSizes

  // ---- what the tables hold between calls ----

  /** The first nw cells serve every transform of up to 4*nw cells. */
  ghost predicate TwiddlesReady(nw: nat, w: array<real>, turn: nat -> Complex)
    reads w
  {
    nw <= w.Length && TwiddlesIn(w[..nw], turn)
  }

  ghost predicate TwiddlesIn(s: seq<real>, turn: nat -> Complex) {
    forall p: nat | |s| == Pow2(p) && p >= 2 :: |s| % 2 == 0 && GoodTable(View(s), turn(Pow2(p + 1)), p + 1)
  }

  /** The next nc cells serve the real passes of every transform of up to 4*nc cells. */
  ghost predicate CosinesReady(nw: nat, nc: nat, w: array<real>, turn: nat -> Complex)
    reads w
  {
    nc > 1 ==> nw + nc <= w.Length && HalfCosines(w[nw..nw + nc], turn(4 * nc))
  }

  ghost predicate IsPow2(n: nat) {
    exists p: nat :: n == Pow2(p)
  }

  /** ip[0] and ip[1] describe the tables in w; ip[0] == 0 says that there are none yet. */
  ghost predicate TablesReady(ip: array<nat>, w: array<real>, turn: nat -> Complex)
    reads ip, w
  {
    && ip.Length >= 2
    && (ip[0] != 0 ==> IsPow2(ip[0]) && IsPow2(ip[1])
                       && TwiddlesReady(ip[0], w, turn) && CosinesReady(ip[0], ip[1], w, turn))
  }

  // ---- a larger table serves a smaller transform ----

  lemma GoodTableScales(tab: seq<Complex>, turn: nat -> Complex, big: nat, q: nat)
    requires IsTurn(turn) && q <= big && GoodTable(tab, turn(Pow2(big)), big)
    ensures GoodTable(tab, turn(Pow2(q)), q)
  {
    hide *;
    var w := turn(Pow2(q));
    if q > 2 {
      Pow2Monotone(q - 2, big - 2);
      forall b: nat | b < Pow2(q - 2) ensures At(tab, b) == Pow(w, Rev(q - 2, b)) {
        ScaledEntry(tab, turn, big, q, b);
      }
      GoodTableIs(tab, turn(Pow2(big)), big);
    }
    GoodTableIs(tab, w, q);
  }

  lemma ScaledEntry(tab: seq<Complex>, turn: nat -> Complex, big: nat, q: nat, b: nat)
    requires IsTurn(turn) && 2 < q <= big && GoodTable(tab, turn(Pow2(big)), big) && b < Pow2(q - 2)
    ensures At(tab, b) == Pow(turn(Pow2(q)), Rev(q - 2, b))
  {
    hide *;
    Pow2Monotone(q - 2, big - 2);
    EntryScales(turn, big, q, b);
    TableEntries(tab, turn(Pow2(big)), big, b);
  }

  lemma GoodTableIs(tab: seq<Complex>, w: Complex, q: nat)
    ensures q <= 2 ==> GoodTable(tab, w, q)
    ensures q > 2 && GoodTable(tab, w, q) ==> Pow2(q - 2) <= |tab|
    ensures q > 2 && Pow2(q - 2) <= |tab| && (forall b: nat | b < Pow2(q - 2) :: At(tab, b) == Pow(w, Rev(q - 2, b)))
            ==> GoodTable(tab, w, q)
  {
    hide At, Pow, Rev, Pow2;
  }

  lemma EntryScales(turn: nat -> Complex, big: nat, q: nat, b: nat)
    requires IsTurn(turn) && 2 < q <= big && b < Pow2(q - 2)
    ensures Pow(turn(Pow2(big)), Rev(big - 2, b)) == Pow(turn(Pow2(q)), Rev(q - 2, b))
  {
    hide *;
    var r := big - q;
    RevExtend(q - 2, r, b);
    assert q - 2 + r == big - 2 && q + r == big;
    TurnNest(turn, q, r);
    PowMul(turn(Pow2(big)), Pow2(r), Rev(q - 2, b));
    assert Pow2(r) * Rev(q - 2, b) == Rev(q - 2, b) * Pow2(r);
  }

  /** The half-cosine table, read with the step of a transform of 2n cells. */
  lemma HalvesReady(c: seq<real>, turn: nat -> Complex, p: nat, q: nat, ks: nat)
    requires IsTurn(turn) && |c| == Pow2(p) && q <= p + 1 && ks == Pow2(p + 1 - q)
    requires HalfCosines(c, turn(4 * |c|))
    ensures StepFits(ks, Pow2(q), |c|)
    ensures GoodHalves(c, ks, turn(Pow2(q + 1)), Pow2(q))
    ensures Balanced(c)
  {
    var rho := turn(4 * |c|);
    StepOf(p, q, ks);
    Pow2Four(p);
    TurnRoot(turn, p + 2);
    hide Pow2, HalfCosines, Root, GoodHalves, StepFits, IsTurn, Pow, Half, Separator;
    RootUnit(rho, p + 2);
    RootQuarter(rho, p + 2);
    assert p + 2 - 2 == p;
    CosinesBalanced(c, rho);
    GoodHalvesOf(c, turn, p, q, ks);
  }

  lemma StepOf(p: nat, q: nat, ks: nat)
    requires q <= p + 1 && ks == Pow2(p + 1 - q)
    ensures StepFits(ks, Pow2(q), Pow2(p))
  {
    Pow2Add(p + 1 - q, q);
  }

  lemma GoodHalvesOf(c: seq<real>, turn: nat -> Complex, p: nat, q: nat, ks: nat)
    requires IsTurn(turn) && |c| == Pow2(p) && q <= p + 1 && ks == Pow2(p + 1 - q)
    requires HalfCosines(c, turn(4 * |c|)) && StepFits(ks, Pow2(q), |c|)
    ensures GoodHalves(c, ks, turn(Pow2(q + 1)), Pow2(q))
  {
    hide Pow2, HalfCosines, StepFits, IsTurn, Pow, Half, Separator;
    forall j: nat | 0 < j && 2 * j < Pow2(q) ensures Half(c, ks, j) == Separator(Pow(turn(Pow2(q + 1)), j)) {
      HalfIsSeparator(c, turn, p, q, ks, j);
    }
  }

  lemma HalfIsSeparator(c: seq<real>, turn: nat -> Complex, p: nat, q: nat, ks: nat, j: nat)
    requires IsTurn(turn) && |c| == Pow2(p) && q <= p + 1 && ks == Pow2(p + 1 - q)
    requires HalfCosines(c, turn(4 * |c|)) && StepFits(ks, Pow2(q), |c|) && 0 < j && 2 * j < Pow2(q)
    ensures Half(c, ks, j) == Separator(Pow(turn(Pow2(q + 1)), j))
  {
    hide *;
    var rho, r := turn(4 * |c|), p + 1 - q;
    Pow2Four(p);
    StepInside(ks, Pow2(q), |c|, j);
    TurnRoot(turn, p + 2);
    RootUnit(rho, p + 2);
    RootQuarter(rho, p + 2);
    assert p + 2 - 2 == p;
    TurnNest(turn, q + 1, r);
    assert q + 1 + r == p + 2;
    PowMul(rho, ks, j);
    QuarterMirror(rho, |c|, ks * j);
    CosineCells(c, rho, ks, j);
    SeparatorOf(c, ks, j, Pow(rho, ks * j));
  }

  lemma CosineCells(c: seq<real>, rho: Complex, ks: nat, j: nat)
    requires HalfCosines(c, rho) && 0 < ks * j < |c|
    ensures Cell(c, ks * j) == 0.5 * Pow(rho, ks * j).re
    ensures Cell(c, |c| - ks * j) == 0.5 * Pow(rho, |c| - ks * j).re
  {
    hide Pow;
    var k := ks * j;
    assert c[k] == 0.5 * Pow(rho, k).re && c[|c| - k] == 0.5 * Pow(rho, |c| - k).re;
  }

  lemma SeparatorOf(c: seq<real>, ks: nat, j: nat, u: Complex)
    requires Cell(c, ks * j) == 0.5 * u.re && Cell(c, |c| - ks * j) == 0.5 * u.im
    ensures Half(c, ks, j) == Separator(u)
  {
  }

  // ---- using and building the tables ----

  /** Enough of the table for a transform of n cells: none is needed up to 8. */
  lemma TableFor(nw: nat, w: array<real>, turn: nat -> Complex, n: nat, q: nat) returns (tl: nat)
    requires IsTurn(turn) && n == 2 * Pow2(q)
    requires n > 8 ==> IsPow2(nw) && TwiddlesReady(nw, w, turn) && n <= 4 * nw
    ensures tl % 2 == 0 && TableLong(n, tl) && tl <= w.Length && GoodTable(Head(w, tl), turn(Pow2(q)), q)
  {
    if n > 8 {
      tl := nw;
      var p: nat :| nw == Pow2(p);
      TableLevel(n, q, p);
      hide Root, Pow2, IsTurn;
      GoodTableScales(Head(w, nw), turn, p + 1, q);
    } else {
      tl := 0;
      if q > 2 {
        Pow2Monotone(3, q);
        Pow2Small();
      }
    }
  }

  lemma TableLevel(n: nat, q: nat, p: nat)
    requires n == 2 * Pow2(q) && 8 < n <= 4 * Pow2(p)
    ensures p >= 2 && q <= p + 1
  {
    Pow2Small();
    assert Pow2(p + 1) == 2 * Pow2(p);
    if p < 2 {
      Pow2Monotone(p, 1);
    }
    if q > p + 1 {
      Pow2Monotone(p + 1, q);
    }
  }

  /** The table makewt builds for transforms of n cells is ready for use. */
  lemma BuiltTwiddles(nw: nat, w: array<real>, turn: nat -> Complex, q: nat)
    requires IsTurn(turn) && q >= 1 && nw == Pow2(q - 1) && nw <= w.Length
    requires nw > 2 ==> nw % 2 == 0 && GoodTable(Head(w, nw), Mul(turn(4 * nw), turn(4 * nw)), q)
    ensures IsPow2(nw) && TwiddlesReady(nw, w, turn)
  {
    Pow2Small();
    Pow2Four(q - 1);
    TurnNest(turn, q, 1);
    SquareIs(turn(4 * nw));
    assert turn(Pow2(q)) == Mul(turn(4 * nw), turn(4 * nw));
    if q >= 3 {
      Pow2Monotone(2, q - 1);
    }
    hide GoodTable, Mul, Pow, IsTurn;
    forall p: nat | nw == Pow2(p) && p >= 2
      ensures nw % 2 == 0 && GoodTable(View(w[..nw]), turn(Pow2(p + 1)), p + 1)
    {
      Pow2Injective(p, q - 1);
    }
  }

  /** Lines 328-330 and 350-354. */
  method BuildTwiddles(n: nat, ip: array<nat>, w: array<real>, turn: nat -> Complex, ghost q: nat)
    requires IsTurn(turn) && n % 2 == 0 && n == 2 * Pow2(q) <= Pow2(23)
    requires ip.Length >= 2 && n / 4 <= w.Length
    modifies ip, w
    ensures ip[0] == n / 4 && ip[1] == 1
    ensures TablesReady(ip, w, turn)
  {
    var nw := n / 4;
    QuarterSize(n, q);
    if q >= 2 {
      Pow2Four(q - 1);
      TurnRoot(turn, q + 1);
    }
    Makewt(nw, ip, w, turn(4 * nw), q);
    if q >= 1 {
      BuiltTwiddles(nw, w, turn, q);
      OneIsPow2();
    }
  }

  lemma OneIsPow2()
    ensures IsPow2(1)
  {
    assert 1 == Pow2(0);
  }

  lemma QuarterSize(n: nat, q: nat)
    requires n == 2 * Pow2(q)
    ensures q == 0 ==> n == 2 && n / 4 == 0
    ensures q == 1 ==> n == 4
    ensures q >= 1 ==> n / 4 == Pow2(q - 1) && n == 4 * Pow2(q - 1)
    ensures n / 4 > 2 ==> q >= 3 && 2 * (n / 4) == Pow2(q) && n / 4 % 2 == 0
    ensures q >= 2 ==> n >= 8 && n % 4 == 0 && n / 4 % 2 == 0
  {
    Pow2Small();
    if q >= 1 {
      assert Pow2(q) == 2 * Pow2(q - 1);
    }
    if q >= 2 {
      assert Pow2(q - 1) == 2 * Pow2(q - 2);
    }
    if q < 3 {
      Pow2Monotone(q, 2);
    }
  }

  // ---- the complex transform ----

  /** Reordering and all passes, as one sequence. */
  lemma PassesAreSpectrum(tab: seq<Complex>, w: Complex, q: nat, x: seq<Complex>)
    requires Root(w, q) && GoodTable(tab, w, q) && |x| == Pow2(q)
    ensures Passes(tab, q, 0, Reordered(false, q, x)) == Spectrum(x, w)
  {
    hide Root, GoodTable, Pow2, Dft, Passes, Reordered;
    forall k: nat | k < |x| ensures Passes(tab, q, 0, Reordered(false, q, x))[k] == Spectrum(x, w)[k] {
      FftIsDft(tab, w, q, x, k);
    }
  }

  /** One or two entries need no reordering. */
  lemma ReorderedSmall(q: nat, x: seq<Complex>)
    requires q <= 1 && |x| == Pow2(q)
    ensures Reordered(false, q, x) == x
  {
    Pow2Small();
    RevSmall(0);
    RevSmall(1);
    assert Rev(0, 0) == 0;
  }

  /** A transform of one or two entries is its own conjugate. */
  lemma SmallConj(tab: seq<Complex>, q: nat, x: seq<Complex>)
    requires q <= 1 && |x| == Pow2(q)
    ensures Passes(tab, q, 0, x) == ConjAll(Passes(tab, q, 0, ConjAll(x)))
  {
    Pow2Small();
    if q == 1 {
      PassesLast(tab, 1, 0, x);
      PassesLast(tab, 1, 0, ConjAll(x));
    } else {
      PassesNone(tab, 0, x);
      PassesNone(tab, 0, ConjAll(x));
      ConjAllTwice(x);
    }
  }

  /** bitrv2 and cftfsub. */
  method ForwardPasses(n: nat, a: array<real>, w: array<real>, ghost root: Complex, ghost q: nat, ghost tl: nat)
    requires 2 <= q && n % 2 == 0 && n == 2 * Pow2(q) <= Pow2(23)
    requires n <= a.Length && a != w && tl <= w.Length && tl % 2 == 0
        && TableLong(n, tl)
    requires Root(root, q) && GoodTable(Head(w, tl), root, q)
    modifies a
    ensures Head(a, n) == Spectrum(old(Head(a, n)), root)
    ensures a[n..] == old(a[n..])
  {
    hide *;
    ghost var x := Head(a, n);
    Bitrv2(n, a, q);
    Cftfsub(n, a, w, q, tl);
    PassesAreSpectrum(Head(w, tl), root, q, x);
  }

  /** bitrv2 and cftbsub. */
  method ReturnPasses(n: nat, a: array<real>, w: array<real>, ghost root: Complex, ghost q: nat, ghost tl: nat)
    requires 2 <= q && n % 2 == 0 && n == 2 * Pow2(q) <= Pow2(23)
    requires n <= a.Length && a != w && tl <= w.Length && tl % 2 == 0
        && TableLong(n, tl)
    requires Root(root, q) && GoodTable(Head(w, tl), root, q)
    modifies a
    ensures Head(a, n) == ConjAll(Spectrum(old(Head(a, n)), root))
    ensures a[n..] == old(a[n..])
  {
    hide *;
    ghost var x := Head(a, n);
    Bitrv2(n, a, q);
    Cftbsub(n, a, w, q, tl);
    PassesAreSpectrum(Head(w, tl), root, q, x);
  }

  /** bitrv2conj and cftbsub. */
  method BackwardPasses(n: nat, a: array<real>, w: array<real>, ghost root: Complex, ghost q: nat, ghost tl: nat)
    requires 2 <= q && n % 2 == 0 && n == 2 * Pow2(q) <= Pow2(21)
    requires n <= a.Length && a != w && tl <= w.Length && tl % 2 == 0
        && TableLong(n, tl)
    requires Root(root, q) && GoodTable(Head(w, tl), root, q)
    modifies a
    ensures Head(a, n) == ConjAll(Spectrum(ConjAll(old(Head(a, n))), root))
    ensures a[n..] == old(a[n..])
  {
    hide *;
    ghost var x := Head(a, n);
    Bitrv2Conj(n, a, q);
    Cftbsub(n, a, w, q, tl);
    ReorderedConj(q, x);
    PassesAreSpectrum(Head(w, tl), root, q, ConjAll(x));
  }

  lemma TablesLength(ip: array<nat>, w: array<real>, turn: nat -> Complex)
    requires TablesReady(ip, w, turn)
    ensures ip.Length >= 2
  {
  }

  lemma TablesUse(ip: array<nat>, w: array<real>, turn: nat -> Complex)
    requires TablesReady(ip, w, turn) && ip.Length >= 2 && ip[0] != 0
    ensures IsPow2(ip[0]) && IsPow2(ip[1]) && TwiddlesReady(ip[0], w, turn) && CosinesReady(ip[0], ip[1], w, turn)
  {
  }

  /** Lines 328-330 and 349-354: make sure that the twiddle factors serve n cells. */
  method EnsureTwiddles(n: nat, ip: array<nat>, w: array<real>, turn: nat -> Complex,
      ghost q: nat) returns (ghost tl: nat)
    requires n % 2 == 0 && n == 2 * Pow2(q) <= Pow2(23)
    requires IsTurn(turn) && TablesReady(ip, w, turn) && n / 4 <= w.Length && ip.Length >= 2
    modifies ip, w
    ensures TablesReady(ip, w, turn)
    ensures ip[0] == 0 ==> ip[1] == 1
    ensures if n > old(ip[0]) * 4 then ip[0] == n / 4 && ip[1] == 1 else ip[..] == old(ip[..]) && w[..] == old(w[..])
    ensures n <= 4 * ip[0] || n == 2
    ensures tl % 2 == 0 && TableLong(n, tl) && tl <= w.Length
    ensures Root(turn(Pow2(q)), q) && GoodTable(Head(w, tl), turn(Pow2(q)), q)
  {
    hide *;
    QuarterSize(n, q);
    if n > ip[0] * 4 {
      BuildTwiddles(n, ip, w, turn, q);
    }
    tl := TableServes(n, ip, w, turn, q);
    TurnRoot(turn, q);
  }

  method Cdft(n: nat, isgn: int, a: array<real>, ip: array<nat>, w: array<real>, turn: nat -> Complex, ghost q: nat)
    requires n % 2 == 0 && n == 2 * Pow2(q) <= a.Length && a != w
    requires n <= Pow2(if isgn >= 0 then 23 else 21)
    requires IsTurn(turn) && TablesReady(ip, w, turn) && n / 4 <= w.Length
    modifies a, ip, w
    ensures TablesReady(ip, w, turn)
    ensures Head(a, n) ==
            Spectrum(old(Head(a, n)), if isgn >= 0 then turn(Pow2(q)) else Conj(turn(Pow2(q))))
    ensures a[n..] == old(a[n..])
  {
    hide *;
    ConjugateRoot(Head(a, n), turn(Pow2(q)));
    Pow2Monotone(21, 23);
    TablesLength(ip, w, turn);
    ghost var tl := EnsureTwiddles(n, ip, w, turn, q);
    QuarterSize(n, q);
    if n > 4 {
      if isgn >= 0 {
        ForwardPasses(n, a, w, turn(Pow2(q)), q, tl);
      } else {
        BackwardPasses(n, a, w, turn(Pow2(q)), q, tl);
      }
    } else {
      SmallTransform(n, isgn, a, w, turn(Pow2(q)), q, tl);
    }
  }

  /** Lengths 4 and 2, lines 339-341. */
  method SmallTransform(n: nat, isgn: int, a: array<real>, w: array<real>, ghost root: Complex, ghost q: nat,
      ghost tl: nat)
    requires n % 2 == 0 && n == 2 * Pow2(q) <= a.Length && q <= 1 && a != w
    requires tl <= w.Length && tl % 2 == 0 && TableLong(n, tl)
    requires Root(root, q) && GoodTable(Head(w, tl), root, q)
    modifies a
    ensures isgn >= 0 ==> Head(a, n) == Spectrum(old(Head(a, n)), root)
    ensures isgn < 0 ==> Head(a, n) == ConjAll(Spectrum(ConjAll(old(Head(a, n))), root))
    ensures a[n..] == old(a[n..])
  {
    hide Pow2, Head, View, Root, Spectrum, Passes, Reordered, GoodTable;
    QuarterSize(n, q);
    ghost var x, tab := Head(a, n), Head(w, tl);
    ReorderedSmall(q, x);
    ReorderedSmall(q, ConjAll(x));
    SmallConj(tab, q, x);
    PassesAreSpectrum(tab, root, q, x);
    PassesAreSpectrum(tab, root, q, ConjAll(x));
    if n == 4 {
      Cftfsub(n, a, w, q, tl);
    } else {
      PassesNone(tab, 0, x);
    }
  }

  // ---- the real transform ----

  /** What the real passes of n == 2 * Pow2(q) cells need of the table c, read with step ks. */
  ghost predicate RealReady(c: seq<real>, ks: nat, eta: Complex, q: nat) {
    && GoodHalves(c, ks, eta, Pow2(q))
    && (Pow2(q) <= 2 || (Balanced(c) && StepFits(ks, Pow2(q), |c|)))
  }

  /** Lines 355-359: make sure that the half cosines serve n cells. */
  method EnsureCosines(n: nat, nw: nat, ip: array<nat>, w: array<real>, turn: nat -> Complex, ghost q: nat)
    returns (nc: nat, ghost ks: nat)
    requires n == 2 * Pow2(q) && IsTurn(turn) && TablesReady(ip, w, turn) && ip.Length >= 2
    requires nw == ip[0] && (n <= 4 * nw || n == 2) && (ip[0] == 0 ==> ip[1] == 1)
    requires n > 4 * ip[1] ==> nw + n / 4 <= w.Length
    modifies ip, w
    ensures TablesReady(ip, w, turn) && ip[0] == nw && nc == ip[1]
    ensures if n > 4 * old(ip[1]) then nc == n / 4 else nc == old(ip[1])
    ensures n <= 4 * old(ip[1]) ==> ip[..] == old(ip[..]) && w[..] == old(w[..])
    ensures w[..if nw <= w.Length then nw else 0] == old(w[..if nw <= w.Length then nw else 0])
    ensures q >= 2 ==> nw + nc <= w.Length && RealReady(w[nw..nw + nc], ks, turn(Pow2(q + 1)), q)
    ensures q >= 2 ==> StepFits(ks, Pow2(q), nc)
  {
    QuarterSize(n, q);
    nc := ip[1];
    if n > nc * 4 {
      nc := n / 4;
      BigEnough(n, q, ip, w, turn);
      BuildCosines(n, nc, nw, ip, w, turn, q);
    }
    if q >= 2 {
      ks := CosinesServe(n, nw, nc, ip, w, turn, q);
    } else {
      ks := 0;
    }
  }

  lemma BigEnough(n: nat, q: nat, ip: array<nat>, w: array<real>, turn: nat -> Complex)
    requires n == 2 * Pow2(q) && TablesReady(ip, w, turn) && ip.Length >= 2
    requires (ip[0] == 0 ==> ip[1] == 1) && n > ip[1] * 4
    ensures q >= 2
  {
    QuarterSize(n, q);
    hide Pow2;
  }

  method BuildCosines(n: nat, nc: nat, nw: nat, ip: array<nat>, w: array<real>, turn: nat -> Complex, ghost q: nat)
    requires q >= 2 && n == 2 * Pow2(q) && nc == n / 4 && IsTurn(turn) && TablesReady(ip, w, turn) && ip.Length >= 2
    requires nw == ip[0] && n <= 4 * nw && nw + nc <= w.Length
    modifies ip, w
    ensures TablesReady(ip, w, turn) && ip[0] == nw && ip[1] == nc
    ensures w[..nw] == old(w[..nw])
  {
    QuarterSize(n, q);
    TurnRoot(turn, q + 1);
    Pow2Four(q - 1);
    RootUnit(turn(4 * nc), q + 1);
    RootQuarter(turn(4 * nc), q + 1);
    assert q + 1 - 2 == q - 1;
    hide Root, Pow2, IsTurn, Pow, Unit, TwiddlesIn, HalfCosines;
    Makect(nc, ip, w, nw, turn(4 * nc));
    assert IsPow2(nc);
  }

  lemma CosinesServe(n: nat, nw: nat, nc: nat, ip: array<nat>, w: array<real>, turn: nat -> Complex,
      q: nat) returns (ks: nat)
    requires q >= 2 && n == 2 * Pow2(q) && IsTurn(turn) && TablesReady(ip, w, turn) && ip.Length >= 2
    requires nw == ip[0] && nc == ip[1] && n <= 4 * nw && n <= 4 * nc
    ensures nw + nc <= w.Length && RealReady(w[nw..nw + nc], ks, turn(Pow2(q + 1)), q)
    ensures StepFits(ks, Pow2(q), nc)
  {
    QuarterSize(n, q);
    TablesUse(ip, w, turn);
    var p: nat :| nc == Pow2(p);
    CosineLevel(n, q, p);
    ks := Pow2(p + 1 - q);
    hide Pow2, IsTurn, HalfCosines, GoodHalves, Balanced, StepFits, TablesReady;
    HalvesReady(w[nw..nw + nc], turn, p, q, ks);
  }

  lemma CosineLevel(n: nat, q: nat, p: nat)
    requires n == 2 * Pow2(q) && n <= 4 * Pow2(p)
    ensures q <= p + 1
  {
    assert Pow2(p + 1) == 2 * Pow2(p);
    if q > p + 1 {
      Pow2Monotone(p + 1, q);
    }
  }

  /** Room for the tables that a call with n cells needs. */
  ghost predicate TablesRoom(n: nat, ip: array<nat>, w: array<real>)
    requires ip.Length >= 2
    reads ip
  {
    if n > 4 * ip[0] then n / 4 + n / 4 <= w.Length
    else ip[0] + (if ip[1] < n / 4 then n / 4 else ip[1]) <= w.Length
  }

  /** A call with n cells leaves no table larger than it was or than n cells need. */
  ghost predicate Grown(n: nat, nw: nat, nc: nat, nw': nat, nc': nat) {
    && (nw' <= nw || 4 * nw' <= n)
    && (nc' <= nc || 4 * nc' <= n || nc' <= 1)
  }

  /** Lines 349-359. */
  method EnsureTables(n: nat, ip: array<nat>, w: array<real>, turn: nat -> Complex, ghost q: nat)
    returns (nw: nat, nc: nat, ghost tl: nat, ghost ks: nat)
    requires n % 2 == 0 && n == 2 * Pow2(q) <= Pow2(23)
    requires IsTurn(turn) && TablesReady(ip, w, turn) && ip.Length >= 2 && TablesRoom(n, ip, w)
    modifies ip, w
    ensures TablesReady(ip, w, turn) && TablesRoom(n, ip, w)
    ensures (ip[0], ip[1]) == Tables(n, old(ip[0]), old(ip[1]))
    ensures n <= 4 * old(ip[0]) && n <= 4 * old(ip[1]) ==> ip[..] == old(ip[..]) && w[..] == old(w[..])
    ensures tl % 2 == 0 && TableLong(n, tl) && tl <= w.Length
    ensures Root(turn(Pow2(q)), q) && GoodTable(Head(w, tl), turn(Pow2(q)), q)
    ensures q >= 2 ==> nw + nc <= w.Length && RealReady(w[nw..nw + nc], ks, turn(Pow2(q + 1)), q)
    ensures q >= 2 ==> StepFits(ks, Pow2(q), nc)
  {
    hide *;
    RoomIs(n, ip, w);
    QuarterSize(n, q);
    tl := EnsureTwiddles(n, ip, w, turn, q);
    RoomOf(n, ip, w);
    nw := ip[0];
    nc, ks := EnsureCosines(n, nw, ip, w, turn, q);
    RoomOf(n, ip, w);
    tl := TableServes(n, ip, w, turn, q);
    TablesAre(n, old(ip[0]), old(ip[1]), ip[0], ip[1]);
  }

  lemma TableServes(n: nat, ip: array<nat>, w: array<real>, turn: nat -> Complex, q: nat) returns (tl: nat)
    requires n == 2 * Pow2(q) && IsTurn(turn) && ip.Length >= 2 && TablesReady(ip, w, turn)
    requires n <= 4 * ip[0] || n == 2
    ensures tl % 2 == 0 && TableLong(n, tl) && tl <= w.Length && GoodTable(Head(w, tl), turn(Pow2(q)), q)
  {
    hide *;
    if ip[0] != 0 {
      TablesUse(ip, w, turn);
    }
    tl := TableFor(ip[0], w, turn, n, q);
  }

  lemma TablesAre(n: nat, nw: nat, nc: nat, nw': nat, nc': nat)
    requires nw' == if n > 4 * nw then n / 4 else nw
    requires var c := if n > 4 * nw then 1 else nc; nc' == if n > 4 * c then n / 4 else c
    ensures (nw', nc') == Tables(n, nw, nc)
  {
  }

  lemma GrownBy(n: nat, nw: nat, nc: nat, nw': nat, nc': nat)
    requires (nw', nc') == Tables(n, nw, nc)
    ensures Grown(n, nw, nc, nw', nc')
  {
  }

  lemma RoomIs(n: nat, ip: array<nat>, w: array<real>)
    requires ip.Length >= 2 && TablesRoom(n, ip, w)
    ensures n > 4 * ip[0] ==> n / 4 + n / 4 <= w.Length
    ensures n <= 4 * ip[0] ==> ip[0] + ip[1] <= w.Length && ip[0] + n / 4 <= w.Length
  {
  }

  lemma RoomOf(n: nat, ip: array<nat>, w: array<real>)
    requires ip.Length >= 2
    requires n > 4 * ip[0] ==> n / 4 + n / 4 <= w.Length
    requires n <= 4 * ip[0] ==> ip[0] + ip[1] <= w.Length && ip[0] + n / 4 <= w.Length
    ensures TablesRoom(n, ip, w)
  {
  }

  /** The root of order n is a square root of the one of order n/2. */
  lemma TurnSquare(turn: nat -> Complex, q: nat)
    requires IsTurn(turn)
    ensures Mul(turn(Pow2(q + 1)), turn(Pow2(q + 1))) == turn(Pow2(q))
    ensures Root(turn(Pow2(q + 1)), q + 1)
  {
    assert Pow2(1) == 2 * Pow2(0) == 2;
    hide *;
    TurnNest(turn, q, 1);
    TurnRoot(turn, q + 1);
    SquareIs(turn(Pow2(q + 1)));
  }

  method Rdft(n: nat, isgn: int, a: array<real>, ip: array<nat>, w: array<real>, turn: nat -> Complex, ghost q: nat)
    requires n >= 2 && n % 2 == 0 && n == 2 * Pow2(q) <= Pow2(23) && n <= a.Length && a != w
    requires IsTurn(turn) && TablesReady(ip, w, turn) && ip.Length >= 2 && TablesRoom(n, ip, w)
    modifies a, ip, w
    ensures TablesReady(ip, w, turn) && TablesRoom(n, ip, w)
    ensures (ip[0], ip[1]) == Tables(n, old(ip[0]), old(ip[1]))
    ensures n <= 4 * old(ip[0]) && n <= 4 * old(ip[1]) ==> ip[..] == old(ip[..]) && w[..] == old(w[..])
    ensures Grown(n, old(ip[0]), old(ip[1]), ip[0], ip[1])
    ensures isgn >= 0 ==> Head(a, n) == HalfSpectrum(old(a[..n]), turn(n))
    ensures isgn < 0 ==> |old(Head(a, n))| == n / 2
    ensures isgn < 0 ==> forall k: nat | k < n :: a[k] == InverseReal(old(Head(a, n)), turn(n), k)
    ensures isgn < 0 ==> HalfSpectrum(ScaleReals(1.0 / (n / 2) as real, a[..n]), turn(n)) == old(Head(a, n))
    ensures a[n..] == old(a[n..])
  {
    hide *;
    HeadIs(a, n);
    QuarterSize(n, q);
    var nw, nc, tl, ks := EnsureTables(n, ip, w, turn, q);
    GrownBy(n, old(ip[0]), old(ip[1]), ip[0], ip[1]);
    if isgn >= 0 {
      RealForward(n, a, w, nw, nc, turn, q, tl, ks);
    } else {
      RealBackward(n, a, w, nw, nc, turn, q, tl, ks);
      RealSums(n, a[..n], old(Head(a, n)), turn, q);
    }
  }

  /** The documented sums from the inverse relation. */
  lemma RealSums(n: nat, y: seq<real>, z: seq<Complex>, turn: nat -> Complex, q: nat)
    requires n == 2 * Pow2(q) == |y| && IsTurn(turn) && |z| > 0
    requires HalfSpectrum(ScaleReals(1.0 / (n / 2) as real, y), turn(n)) == z
    ensures forall k: nat | k < n :: y[k] == InverseReal(z, turn(n), k)
  {
    hide *;
    Pow2Two(q + 1);
    TurnRoot(turn, q + 1);
    assert n / 2 == Pow2(q);
    AllSums(y, z, turn(n), q);
  }

  lemma AllSums(y: seq<real>, z: seq<Complex>, eta: Complex, q: nat)
    requires |y| == 2 * Pow2(q) && Root(eta, q + 1) && |z| > 0
    requires HalfSpectrum(ScaleReals(1.0 / Pow2(q) as real, y), eta) == z
    ensures forall k: nat | k < |y| :: y[k] == InverseReal(z, eta, k)
  {
    hide *;
    forall k: nat | k < |y| ensures y[k] == InverseReal(z, eta, k) {
      ScaledInverse(y, z, eta, q, k);
    }
  }

  /** Lines 360-370. */
  method RealForward(n: nat, a: array<real>, w: array<real>, nw: nat, nc: nat, ghost turn: nat -> Complex,
                     ghost q: nat, ghost tl: nat, ghost ks: nat)
    requires n >= 2 && n % 2 == 0 && n == 2 * Pow2(q) <= Pow2(23) && n <= a.Length && a != w && IsTurn(turn)
    requires tl % 2 == 0 && TableLong(n, tl) && tl <= w.Length
    requires Root(turn(Pow2(q)), q) && GoodTable(Head(w, tl), turn(Pow2(q)), q)
    requires q >= 2 ==> nw + nc <= w.Length && RealReady(w[nw..nw + nc], ks, turn(Pow2(q + 1)), q)
    requires q >= 2 ==> StepFits(ks, Pow2(q), nc)
    modifies a
    ensures Head(a, n) == HalfSpectrum(old(a[..n]), turn(n))
    ensures a[n..] == old(a[n..])
  {
    hide *;
    QuarterSize(n, q);
    ghost var x, c := a[..n], if q >= 2 then w[nw..nw + nc] else [];
    HeadIs(a, n);
    TurnSquare(turn, q);
    Pow2Two(q + 1);
    ViewLength(x);
    if n > 4 {
      ForwardPasses(n, a, w, turn(Pow2(q)), q, tl);
      Rftfsub(n, a, nc, w, nw, ks);
    } else {
      SmallTransform(n, 1, a, w, turn(Pow2(q)), q, tl);
      SmallRealPasses(c, ks, Head(a, n));
      NoHalves(c, ks, turn(Pow2(q + 1)), q);
    }
    RealReadyHalves(c, ks, turn(Pow2(q + 1)), q);
    ForwardIsRealDft(c, ks, x, turn(Pow2(q + 1)), q);
    PackCells(n, a);
  }

  /** The last statements, lines 368-370. */
  method PackCells(n: nat, a: array<real>)
    requires n % 2 == 0 && 0 < n <= a.Length
    modifies a
    ensures |old(Head(a, n))| > 0 && Head(a, n) == PackEnds(old(Head(a, n)))
    ensures a[n..] == old(a[n..])
  {
    hide Head, View;
    HeadAt(a, n, 0);
    var xi := a[0] - a[1];
    SetPair(a, 0, a[0] + a[1], xi, n);
  }

  /** The first statements, lines 372-373. */
  method UnpackCells(n: nat, a: array<real>)
    requires n % 2 == 0 && 0 < n <= a.Length
    modifies a
    ensures |old(Head(a, n))| > 0 && Head(a, n) == UnpackEnds(old(Head(a, n)))
    ensures a[n..] == old(a[n..])
  {
    hide Head, View;
    HeadAt(a, n, 0);
    var y := 0.5 * (a[0] - a[1]);
    SetPair(a, 0, a[0] - y, y, n);
  }

  lemma HeadIs(a: array<real>, n: nat)
    requires n % 2 == 0 && n <= a.Length
    ensures Head(a, n) == View(a[..n]) && |Head(a, n)| == n / 2
  {
  }

  lemma NoHalves(c: seq<real>, ks: nat, eta: Complex, q: nat)
    requires q <= 1
    ensures RealReady(c, ks, eta, q)
  {
    Pow2Small();
  }

  lemma RealReadyHalves(c: seq<real>, ks: nat, eta: Complex, q: nat)
    requires RealReady(c, ks, eta, q)
    ensures GoodHalves(c, ks, eta, Pow2(q))
    ensures Pow2(q) <= 2 || (Balanced(c) && StepFits(ks, Pow2(q), |c|))
  {
  }

  /** Lines 371-381. */
  method RealBackward(n: nat, a: array<real>, w: array<real>, nw: nat, nc: nat, ghost turn: nat -> Complex,
                      ghost q: nat, ghost tl: nat, ghost ks: nat)
    requires n >= 2 && n % 2 == 0 && n == 2 * Pow2(q) <= Pow2(23) && n <= a.Length && a != w && IsTurn(turn)
    requires tl % 2 == 0 && TableLong(n, tl) && tl <= w.Length
    requires Root(turn(Pow2(q)), q) && GoodTable(Head(w, tl), turn(Pow2(q)), q)
    requires q >= 2 ==> nw + nc <= w.Length && RealReady(w[nw..nw + nc], ks, turn(Pow2(q + 1)), q)
    requires q >= 2 ==> StepFits(ks, Pow2(q), nc)
    modifies a
    ensures HalfSpectrum(ScaleReals(1.0 / (n / 2) as real, a[..n]), turn(n)) == old(Head(a, n))
    ensures a[n..] == old(a[n..])
  {
    hide *;
    QuarterSize(n, q);
    ghost var z, c := Head(a, n), if q >= 2 then w[nw..nw + nc] else [];
    TurnSquare(turn, q);
    Pow2Two(q + 1);
    UnpackCells(n, a);
    ghost var u := Head(a, n);
    if n > 4 {
      Rftbsub(n, a, nc, w, nw, ks);
      ReturnPasses(n, a, w, turn(Pow2(q)), q, tl);
    } else {
      SmallTransform(n, 1, a, w, turn(Pow2(q)), q, tl);
      SmallReturn(Head(w, tl), turn(Pow2(q)), q, u);
      SmallRealPasses(c, ks, u);
      NoHalves(c, ks, turn(Pow2(q + 1)), q);
    }
    HeadIs(a, n);
    RealReadyHalves(c, ks, turn(Pow2(q + 1)), q);
    BackwardInverts(c, ks, z, a[..n], turn(Pow2(q + 1)), q);
  }

  lemma SmallReturn(tab: seq<Complex>, root: Complex, q: nat, u: seq<Complex>)
    requires q <= 1 && Root(root, q) && GoodTable(tab, root, q) && |u| == Pow2(q)
    ensures Spectrum(u, root) == ConjAll(Spectrum(ConjAll(u), root))
  {
    hide *;
    ReorderedSmall(q, u);
    ReorderedSmall(q, ConjAll(u));
    SmallConj(tab, q, u);
    PassesAreSpectrum(tab, root, q, u);
    PassesAreSpectrum(tab, root, q, ConjAll(u));
  }

  // ---- the real transform loses nothing ----

  /** The half cosines of one size, as numbers. */
  ghost function CosineTable(nc: nat, rho: Complex): (c: seq<real>)
    ensures |c| == nc
  {
    seq(nc, k requires 0 <= k < nc => 0.5 * Pow(rho, k).re)
  }

  lemma CosineTableGood(nc: nat, rho: Complex)
    ensures HalfCosines(CosineTable(nc, rho), rho)
  {
    hide Pow;
  }

  lemma RealTable(turn: nat -> Complex, q: nat) returns (c: seq<real>, ks: nat)
    requires IsTurn(turn)
    ensures RealReady(c, ks, turn(Pow2(q + 1)), q)
  {
    hide *;
    if q <= 1 {
      c, ks := [], 0;
      NoHalves(c, ks, turn(Pow2(q + 1)), q);
    } else {
      var nc := Pow2(q - 1);
      c, ks := CosineTable(nc, turn(4 * nc)), Pow2(q - 1 + 1 - q);
      CosineTableGood(nc, turn(4 * nc));
      HalvesReady(c, turn, q - 1, q, ks);
      RealReadyIs(c, ks, turn(Pow2(q + 1)), q);
    }
  }

  lemma RealReadyIs(c: seq<real>, ks: nat, eta: Complex, q: nat)
    requires GoodHalves(c, ks, eta, Pow2(q)) && Balanced(c) && StepFits(ks, Pow2(q), |c|)
    ensures RealReady(c, ks, eta, q)
  {
  }

  /** The cells of a sequence of complex numbers. */
  function Cells(s: seq<Complex>): (x: seq<real>)
    ensures |x| == 2 * |s|
  {
    seq(2 * |s|, i requires 0 <= i < 2 * |s| => if i % 2 == 0 then s[i / 2].re else s[i / 2].im)
  }

  lemma ViewCells(s: seq<Complex>)
    ensures |Cells(s)| % 2 == 0 && View(Cells(s)) == s
  {
    forall p: nat | p < |s| ensures View(Cells(s))[p] == s[p] {
      assert 2 * p / 2 == p && (2 * p + 1) / 2 == p && (2 * p + 1) % 2 == 1;
    }
  }

  /** Every packed spectrum is that of some data. */
  lemma SpectrumOnto(turn: nat -> Complex, z: seq<Complex>, q: nat) returns (x: seq<real>)
    requires IsTurn(turn) && |z| == Pow2(q)
    ensures |x| == 2 * |z| && HalfSpectrum(x, turn(2 * |z|)) == z
  {
    hide *;
    Pow2Two(q + 1);
    TurnRoot(turn, q + 1);
    var eta := turn(Pow2(q + 1));
    var c, ks := RealTable(turn, q);
    RealReadyHalves(c, ks, eta, q);
    var s := OntoView(c, ks, z, eta);
    var y := Cells(s);
    CellsLength(s);
    ViewCells(s);
    BackwardInverts(c, ks, z, y, eta, q);
    x := ScaleReals(1.0 / Pow2(q) as real, y);
    ScaleLength(1.0 / Pow2(q) as real, y);
  }

  lemma CellsLength(s: seq<Complex>)
    ensures |Cells(s)| == 2 * |s|
  {
  }

  lemma ScaleLength(r: real, y: seq<real>)
    ensures |ScaleReals(r, y)| == |y|
  {
  }

  lemma OntoView(c: seq<real>, ks: nat, z: seq<Complex>, eta: Complex) returns (s: seq<Complex>)
    requires |z| > 0
    ensures |s| == |z| && s == ConjAll(Spectrum(Backward(c, ks, UnpackEnds(z)), Mul(eta, eta)))
  {
    s := ConjAll(Spectrum(Backward(c, ks, UnpackEnds(z)), Mul(eta, eta)));
  }

  /** Data with the same packed spectrum are the same: the forward rdft can be undone, and what
      the backward rdft returns is determined by its contract. */
  lemma SpectrumInjective(turn: nat -> Complex, x: seq<real>, y: seq<real>, q: nat)
    requires IsTurn(turn) && |x| % 2 == 0 && |x| == 2 * Pow2(q) && |y| == |x|
    requires HalfSpectrum(x, turn(|x|)) == HalfSpectrum(y, turn(|x|))
    ensures x == y
  {
    hide *;
    Pow2Two(q + 1);
    TurnRoot(turn, q + 1);
    var c, ks := RealTable(turn, q);
    RealReadyHalves(c, ks, turn(Pow2(q + 1)), q);
    SpectrumDetermines(c, ks, x, y, turn(Pow2(q + 1)), q);
  }
}
