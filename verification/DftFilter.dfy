/** The sizes of the block filters: how many taps (soxr-sys/src/filter.c, lines 139-141 and
    230-234), how long a transform (soxr-sys/src/cr.c, lines 178-182), and how they keep the
    stages of OverlapSave in step. */
module DftFilter {
  import opened Arith
  import opened BitReversal
  import opened Streams
  import opened OverlapSave

  // ---- taps ----

  /** The modulus for the number of taps: line 196 of cr.c. */
  function Modulus(up: nat, linearPhase: bool, powerOfTwo: bool, sameRate: bool): nat {
    if linearPhase && powerOfTwo && sameRate then 2 * up else 4
  }

  /** lsx_design_lpf with one phase makes an estimate of n taps into one more than a multiple. */
  function RoundTaps(n: nat, modulo: nat): nat
    requires n >= 1 && modulo >= 1
  {
    (n + modulo - 2) / modulo * modulo + 1
  }

  /** It is the least such number that is not below the estimate. */
  lemma RoundTapsLeast(n: nat, modulo: nat, k: nat)
    requires n >= 1 && modulo >= 1
    ensures RoundTaps(n, modulo) >= n && (RoundTaps(n, modulo) - 1) % modulo == 0
    ensures k >= n && k >= 1 && (k - 1) % modulo == 0 ==> k >= RoundTaps(n, modulo)
  {
    var c := (n + modulo - 2) / modulo;
    var r := CeilIs(n - 1, modulo);
    PositionIs(modulo, c);
    hide Position;
    DigitsDivMod(modulo, 0, c);
    if k >= n && (k - 1) % modulo == 0 {
      var m := (k - 1) / modulo;
      PositionIs(modulo, m);
      CeilLeast(n - 1, modulo, m);
      PositionGrows(modulo, c, m);
    }
  }

  /** Fewer than a whole modulus are added. */
  lemma TapsClose(n: nat, modulo: nat)
    requires n >= 1 && modulo >= 1
    ensures n <= RoundTaps(n, modulo) < n + modulo
  {
    var c := (n + modulo - 2) / modulo;
    var y := n + modulo - 2;
    assert y == modulo * c + y % modulo;
    assert c * modulo == modulo * c;
  }

  lemma ModulusIs(up: nat)
    ensures Modulus(up, true, true, true) == 2 * up
  {
  }

  /** lsx_fir_to_phase cuts its result from begin to end around the peak, both moved to multiples
      of four. */
  function PhaseTaps(begin: nat, end: nat): (taps: nat)
    ensures taps > 0
  {
    1 + (end + 3) / 4 * 4 + begin / 4 * 4
  }

  // ---- the transform's length ----

  function FloorLog2(x: nat): nat
    requires x > 0
  {
    if x == 1 then 0 else 1 + FloorLog2(x / 2)
  }

  lemma {:induction false} FloorLog2Is(x: nat)
    requires x > 0
    ensures Pow2(FloorLog2(x)) <= x < 2 * Pow2(FloorLog2(x))
  {
    if x > 1 {
      FloorLog2Is(x / 2);
    }
  }

  lemma FloorLog2Unique(x: nat, k: nat)
    requires Pow2(k) <= x < 2 * Pow2(k)
    ensures FloorLog2(x) == k
  {
    FloorLog2Is(x);
    var l := FloorLog2(x);
    if l < k {
      Pow2Monotone(l, k);
    }
    if k < l {
      Pow2Monotone(k, l);
    }
  }

  function Power(x: nat, k: nat): nat {
    if k == 0 then 1 else x * Power(x, k - 1)
  }

  /** The fraction of log2(taps) is at least .23. */
  predicate Bumps(taps: nat)
    requires taps > 0
  {
    Power(taps, 100) >= Pow2(100 * FloorLog2(taps) + 23)
  }

  /** set_dft_length: the whole part of log2(taps) + 1.77. */
  function Exponent(taps: nat): nat
    requires taps > 0
  {
    FloorLog2(taps) + 1 + (if Bumps(taps) then 1 else 0)
  }

  function LengthExponent(taps: nat, least: nat, large: nat): nat
    requires taps > 0
  {
    Min(Max(Exponent(taps) + 1, least), Max(Exponent(taps), large))
  }

  function DftLength(taps: nat, least: nat, large: nat): nat
    requires taps > 0
  {
    Pow2(LengthExponent(taps, least, large))
  }

  /** Whatever the limits, the transform is longer than the filter. */
  lemma LongerThanTaps(taps: nat, least: nat, large: nat) returns (k: nat)
    requires taps > 0
    ensures DftLength(taps, least, large) == Pow2(k) > taps && k == LengthExponent(taps, least, large)
  {
    hide Bumps;
    k := LengthExponent(taps, least, large);
    FloorLog2Is(taps);
    Pow2Monotone(FloorLog2(taps) + 1, k);
  }

  lemma {:induction false} PowerOfProduct(a: nat, b: nat, k: nat)
    ensures Power(a * b, k) == Power(a, k) * Power(b, k)
  {
    if k > 0 {
      PowerOfProduct(a, b, k - 1);
      hide Power;
      PowerNext(a, k);
      PowerNext(b, k);
      PowerNext(a * b, k);
      MulSwap(a, b, Power(a, k - 1), Power(b, k - 1));
    }
  }

  lemma PowerNext(a: nat, k: nat)
    requires k > 0
    ensures Power(a, k) == a * Power(a, k - 1)
  {
  }

  lemma MulSwap(a: nat, b: nat, c: nat, d: nat)
    ensures (a * b) * (c * d) == (a * c) * (b * d)
  {
    MulAssoc3(a, b, c * d);
    MulAssoc3(b, c, d);
    MulAssoc3(a, c, b * d);
  }

  lemma {:induction false} PowerMonotone(a: nat, b: nat, k: nat)
    requires a <= b
    ensures Power(a, k) <= Power(b, k)
  {
    if k > 0 {
      PowerMonotone(a, b, k - 1);
      hide Power;
      PowerNext(a, k);
      PowerNext(b, k);
      MulLe(a, Power(a, k - 1), Power(b, k - 1));
      MulLe(Power(b, k - 1), a, b);
    }
  }

  lemma {:induction false} PowerOfPower(a: nat, j: nat, k: nat)
    ensures Power(Power(a, j), k) == Power(a, j * k)
  {
    if k > 0 {
      PowerOfPower(a, j, k - 1);
      MulDistrib(j, k - 1, 1);
      PowerAdd(a, j, j * (k - 1));
    }
  }

  lemma {:induction false} PowerAdd(a: nat, j: nat, k: nat)
    ensures Power(a, j + k) == Power(a, j) * Power(a, k)
  {
    if j > 0 {
      PowerAdd(a, j - 1, k);
      MulAssoc3(a, Power(a, j - 1), Power(a, k));
    }
  }

  lemma {:induction false} PowerOfTwo(k: nat)
    ensures Power(2, k) == Pow2(k)
  {
    if k > 0 {
      PowerOfTwo(k - 1);
    }
  }

  /** A quarter above a power of two the fraction is large enough: (5/4)^100 exceeds 2^25. */
  lemma QuarterBumps(taps: nat, f: nat)
    requires taps > 0 && f == FloorLog2(taps) && 4 * taps >= 5 * Pow2(f)
    ensures Bumps(taps)
  {
    hide *;
    FiveFourths();
    QuarterPower(taps, Pow2(f));
    PowerOfTwo(f);
    PowerOfPower(2, f, 100);
    PowerOfTwo(f * 100);
    assert f * 100 == 100 * f;
    PositivePower(4, 100);
    FromRatio(Power(4, 100), Power(taps, 100), Power(5, 100), Pow2(100 * f), Pow2(25));
    Pow2Add(100 * f, 25);
    Pow2Monotone(100 * f + 23, 100 * f + 25);
    BumpsIs(taps);
  }

  lemma QuarterPower(taps: nat, p: nat)
    requires 4 * taps >= 5 * p
    ensures Power(4, 100) * Power(taps, 100) >= Power(5, 100) * Power(p, 100)
  {
    hide *;
    PowerOfProduct(4, taps, 100);
    PowerOfProduct(5, p, 100);
    PowerMonotone(5 * p, 4 * taps, 100);
  }

  lemma FromRatio(w: nat, x: nat, v: nat, y: nat, p: nat)
    requires w > 0 && w * x >= v * y && v >= p * w
    ensures x >= y * p
  {
    MulLe(y, p * w, v);
    MulAssoc3(y, p, w);
    CancelLe(w, y * p, x);
  }

  lemma BumpsIs(taps: nat)
    requires taps > 0
    ensures Bumps(taps) <==> Power(taps, 100) >= Pow2(100 * FloorLog2(taps) + 23)
  {
    hide Power, Pow2, FloorLog2;
  }

  lemma {:induction false} PositivePower(a: nat, k: nat)
    requires a > 0
    ensures Power(a, k) > 0
  {
    if k > 0 {
      PositivePower(a, k - 1);
    }
  }

  lemma CancelLe(w: nat, a: nat, b: nat)
    requires w > 0 && a * w <= w * b
    ensures a <= b
  {
    if a > b {
      MulLe(w, b + 1, a);
      MulDistrib(w, b, 1);
    }
  }

  lemma FiveFourths()
    ensures Power(5, 100) >= Pow2(25) * Power(4, 100)
  {
    SmallFourthPowers();
    PowerOfPower(5, 4, 25);
    PowerOfPower(4, 4, 25);
    PowerOfProduct(2, 256, 25);
    PowerMonotone(512, 625, 25);
    PowerOfTwo(25);
    hide *;
  }

  lemma SmallFourthPowers()
    ensures Power(5, 4) == 625 && Power(4, 4) == 256
  {
    assert Power(5, 2) == 25 && Power(4, 2) == 16;
  }

  /** k is the whole part of log2(taps) + 1.77. */
  ghost predicate Logarithm(taps: nat, k: nat) {
    Pow2(100 * k) <= Pow2(177) * Power(taps, 100) < Pow2(100 * k + 100)
  }

  lemma ExponentIff(taps: nat, k: nat)
    requires taps > 0
    ensures Logarithm(taps, k) <==> k == Exponent(taps)
  {
    ExponentBetween(taps);
    hide *;
    if Logarithm(taps, k) {
      LogarithmUnique(taps, k, Exponent(taps));
    }
  }

  lemma LogarithmUnique(taps: nat, k: nat, l: nat)
    requires Logarithm(taps, k) && Logarithm(taps, l)
    ensures k == l
  {
    hide Pow2, Power;
    if k < l {
      Pow2Monotone(100 * k + 100, 100 * l);
    } else if l < k {
      Pow2Monotone(100 * l + 100, 100 * k);
    }
  }

  lemma ExponentBetween(taps: nat)
    requires taps > 0
    ensures Logarithm(taps, Exponent(taps))
  {
    hide *;
    var f, y := FloorLog2(taps), Power(taps, 100);
    FloorLog2Is(taps);
    PowersBetween(taps, f);
    BumpsIs(taps);
    ExponentForm(taps);
    LogarithmIs(taps, Exponent(taps));
    Pow2Add(177, 100 * f + 23);
    Pow2Add(177, 100 * f);
    Pow2Add(177, 100 * f + 100);
    if Bumps(taps) {
      MulLe(Pow2(177), Pow2(100 * f + 23), y);
      MulLe(Pow2(177), y + 1, Pow2(100 * f + 100));
      MulDistrib(Pow2(177), y, 1);
      Pow2Monotone(100 * f + 277, 100 * f + 300);
    } else {
      MulLe(Pow2(177), Pow2(100 * f), y);
      MulLe(Pow2(177), y + 1, Pow2(100 * f + 23));
      MulDistrib(Pow2(177), y, 1);
      Pow2Monotone(100 * f + 100, 100 * f + 177);
    }
  }

  lemma ExponentForm(taps: nat)
    requires taps > 0
    ensures Exponent(taps) == FloorLog2(taps) + 1 + (if Bumps(taps) then 1 else 0)
  {
    hide Bumps, FloorLog2;
  }

  lemma LogarithmIs(taps: nat, k: nat)
    ensures Logarithm(taps, k) <==> Pow2(100 * k) <= Pow2(177) * Power(taps, 100) < Pow2(100 * k + 100)
  {
    hide Pow2, Power;
  }

  lemma PowersBetween(taps: nat, f: nat)
    requires Pow2(f) <= taps < 2 * Pow2(f)
    ensures Pow2(100 * f) <= Power(taps, 100) < Pow2(100 * f + 100)
  {
    hide *;
    PowerOfTwo(f);
    PowerOfPower(2, f, 100);
    PowerOfTwo(f * 100);
    PowerMonotone(Pow2(f), taps, 100);
    Pow2Two(f + 1);
    PowerOfTwo(f + 1);
    PowerOfPower(2, f + 1, 100);
    PowerOfTwo((f + 1) * 100);
    PowerStrict(taps, Pow2(f + 1), 100);
    assert f * 100 == 100 * f && (f + 1) * 100 == 100 * f + 100;
  }

  lemma {:induction false} PowerStrict(a: nat, b: nat, k: nat)
    requires a < b && k > 0
    ensures Power(a, k) < Power(b, k)
  {
    hide Power;
    PowerNext(a, k);
    PowerNext(b, k);
    PowerMonotone(a, b, k - 1);
    PositivePower(b, k - 1);
    MulLe(a, Power(a, k - 1), Power(b, k - 1));
    MulLe(Power(b, k - 1), a + 1, b);
    MulDistrib(Power(b, k - 1), a, 1);
  }

  /** With k the whole part of log2(taps) + 1.77 the length is 2^(k+1), at least 2^least, but no more
      than the greater of 2^k and 2^large. */
  lemma LengthLimits(taps: nat, least: nat, large: nat, k: nat)
    requires taps > 0 && Logarithm(taps, k)
    ensures var size := DftLength(taps, least, large);
            && size <= Max(Pow2(least), 2 * Pow2(k)) && size <= Max(Pow2(large), Pow2(k))
            && (size == Max(Pow2(least), 2 * Pow2(k)) || size == Max(Pow2(large), Pow2(k)))
  {
    hide *;
    ExponentIff(taps, k);
    LengthIs(taps, least, large);
    Pow2Two(k + 1);
    LeastOf(k + 1, least, k, large);
    Least(2 * Pow2(k), Pow2(least), Pow2(k), Pow2(large));
  }

  lemma LeastOf(a: nat, b: nat, c: nat, d: nat)
    ensures 0 <= Min(Max(a, b), Max(c, d))
    ensures Pow2(Min(Max(a, b), Max(c, d))) == Min(Max(Pow2(a), Pow2(b)), Max(Pow2(c), Pow2(d)))
  {
    PowersOrdered(a, b);
    PowersOrdered(c, d);
    PowersOrdered(Max(a, b), Max(c, d));
  }

  lemma Least(a: int, b: int, c: int, d: int)
    ensures var m := Min(Max(a, b), Max(c, d));
            m <= Max(b, a) && m <= Max(d, c) && (m == Max(b, a) || m == Max(d, c))
  {
  }

  lemma LengthIs(taps: nat, least: nat, large: nat)
    requires taps > 0
    ensures DftLength(taps, least, large) ==
            Pow2(Min(Max(Exponent(taps) + 1, least), Max(Exponent(taps), large)))
  {
    hide Pow2, Exponent;
  }

  lemma PowersOrdered(a: nat, b: nat)
    ensures Max(Pow2(a), Pow2(b)) == Pow2(Max(a, b)) && Min(Pow2(a), Pow2(b)) == Pow2(Min(a, b))
  {
    if a <= b {
      Pow2Monotone(a, b);
    } else {
      Pow2Monotone(b, a);
    }
  }

  /** The block is at least three eighths of the transform. */
  lemma LongBlock(taps: nat, least: nat, large: nat)
    requires taps > 0
    ensures var size := DftLength(taps, least, large); taps < size && 8 * (size - (taps - 1)) >= 3 * size
  {
    hide *;
    var k := LongerThanTaps(taps, least, large);
    var f := FloorLog2(taps);
    FloorLog2Is(taps);
    ExponentAtLeast(taps, least, large);
    Pow2Two(f + 1);
    Pow2Two(f + 2);
    if 4 * taps >= 5 * Pow2(f) {
      QuarterBumps(taps, f);
      Pow2Monotone(f + 2, k);
    } else {
      Pow2Monotone(f + 1, k);
    }
  }

  lemma ExponentAtLeast(taps: nat, least: nat, large: nat)
    requires taps > 0
    ensures LengthExponent(taps, least, large) >= FloorLog2(taps) + (if Bumps(taps) then 2 else 1)
  {
    hide Bumps, FloorLog2;
  }

  /** With the limits of soxr.h (lines 259-260) it has room for any L or M up to 96. */
  lemma BlockHolds(taps: nat, least: nat, large: nat)
    requires taps > 0 && least >= 8 && large >= 8
    ensures DftLength(taps, least, large) >= 256
    ensures DftLength(taps, least, large) - (taps - 1) >= 96
  {
    LongBlock(taps, least, large);
    hide Bumps, Exponent;
    Pow2Monotone(8, LengthExponent(taps, least, large));
    assert Pow2(8) == 256 by {
      assert Pow2(4) == 16;
      Pow2Add(4, 4);
    }
  }

  // ---- keeping in step ----

  lemma Divides(p: nat, k: nat)
    requires p <= k
    ensures Pow2(k) == Pow2(p) * Pow2(k - p) && Pow2(k) % Pow2(p) == 0
  {
    Pow2Add(p, k - p);
    DigitsDivMod(Pow2(p), 0, Pow2(k - p));
  }

  /** Linear phase and L = 2^p: with the taps and the length as designed, the peak falls on an
      input sample, so that the stage starts with at == 0; the block is a whole number of
      inputs, each block takes exactly that many, and at stays where it is; and the transform of
      a block of inputs has even length. */
  lemma LinearPhaseInStep(n: nat, p: nat, f: Filter, least: nat, large: nat) returns (q: nat)
    requires n > 1 && p > 0 && f.up == Pow2(p) && f.down >= 1
    requires |f.taps| == RoundTaps(n, Modulus(f.up, true, true, true))
    requires f.size == DftLength(|f.taps|, least, large)
    ensures f.Sound() && |f.taps| % (2 * f.up) == 1 && n <= |f.taps| < n + 2 * f.up
    ensures |f.taps| / 2 % f.up == 0
    ensures f.size == 2 * Pow2(q) && p < q && f.size % f.up == 0 && f.size / f.up % 2 == 0
    ensures |f.taps| % f.up == 1 % f.up
    ensures Position(f.up, Consumed(f, 0)) == f.Block() && NextAt(f, 0) == 0
  {
    var up, t := f.up, |f.taps|;
    hide *;
    TapsClose(n, 2 * up);
    ModulusIs(up);
    var h := TapsQuotient(n, up, t);
    var k := LongerThanTaps(t, least, large);
    MulLe(2 * up, 1, h);
    TapsParts(up, t, h);
    LongEnough(p, k, t);
    q := k - 1;
    Pow2Two(k);
    SoundWhen(f);
    Divides(p, k);
    Divides(p + 1, k);
    EvenQuotient(f.size, up, Pow2(k - (p + 1)), p);
    SpectralStep(f, 0);
    StepFacts(f, 0, 0, 0);
    StaysAtZero(f);
  }

  lemma SoundWhen(f: Filter)
    requires 1 <= f.up && 1 <= f.down && 1 <= |f.taps| <= f.size
    ensures f.Sound()
  {
  }

  lemma TapsQuotient(n: nat, up: nat, t: nat) returns (h: nat)
    requires n > 1 && up >= 1 && t == RoundTaps(n, Modulus(up, true, true, true))
    ensures h > 0 && t == 1 + (2 * up) * h
  {
    RoundTapsLeast(n, 2 * up, 1);
    hide RoundTaps;
    h := WholeQuotient(2 * up, t - 1);
  }

  lemma TapsParts(up: nat, t: nat, h: nat)
    requires up >= 1 && t == 1 + (2 * up) * h
    ensures t % (2 * up) == 1 && t / 2 == up * h && t / 2 % up == 0 && t % up == 1 % up
  {
    DigitsDivMod(2 * up, 1, h);
    MulAssoc3(2, up, h);
    DigitsDivMod(2, 1, up * h);
    DigitsDivMod(up, 0, h);
    assert (2 * up) * h == up * (2 * h) by { MulAssoc3(up, 2, h); }
    DigitsDivMod(up, 0, 2 * h);
    OneMore(up * (2 * h), up);
  }

  lemma LongEnough(p: nat, k: nat, t: nat)
    requires Pow2(k) > t > 2 * Pow2(p)
    ensures k > p + 1
  {
    if k <= p + 1 {
      Pow2Monotone(k, p + 1);
    }
  }

  lemma EvenQuotient(size: nat, up: nat, c: nat, p: nat)
    requires up == Pow2(p) && size == Pow2(p + 1) * c
    ensures size / up == 2 * c && size / up % 2 == 0
  {
    hide Pow2;
    assert Pow2(p + 1) == 2 * Pow2(p) by { Pow2Two(p + 1); }
    MulAssoc3(2, up, c);
    MulAssoc3(up, 2, c);
    DigitsDivMod(up, 0, 2 * c);
  }

  lemma StaysAtZero(f: Filter)
    requires f.Sound() && Position(f.up, Consumed(f, 0)) == f.Block()
    ensures NextAt(f, 0) == 0
  {
    if !f.spectral {
      StepFacts(f, 0, 0, 0);
      hide Consumed, Position;
    }
  }

  // ---- decimation in the frequency domain ----

  /** What line 169 leaves in the output queue of the size cells reserved, M = 2^m. */
  function Emitted(size: nat, taps: nat, m: nat): int
    requires taps > 0
  {
    size - ((Pow2(m) - 1) * size + (taps - 1)) / Pow2(m)
  }

  /** It is the block length over M, rounded up; exactly so just when M divides the block. */
  lemma EmittedIs(size: nat, taps: nat, m: nat)
    requires 1 <= taps <= size
    ensures var b, e := size - (taps - 1), Emitted(size, taps, m);
            && e >= 0 && Position(Pow2(m), e) >= b && (e > 0 ==> Position(Pow2(m), e - 1) < b)
            && (Position(Pow2(m), e) == b <==> b % Pow2(m) == 0)
  {
    var w, b, e := Pow2(m), size - (taps - 1), Emitted(size, taps, m);
    hide Pow2;
    var y := (w - 1) * size + (taps - 1);
    MulDistribRight(size, w, -1);
    assert y == w * size - b;
    var r := y % w;
    assert y == w * (y / w) + r;
    MulDistrib(w, size, y / w);
    assert w * e == b + r;
    NotNegative(w, e, b, r);
    PositionIs(w, e);
    if e > 0 {
      PositionIs(w, e - 1);
      MulDistrib(w, e, 1);
    }
    if r == 0 {
      DigitsDivMod(w, 0, e);
    } else {
      MulDistrib(w, e, 1);
      DigitsDivMod(w, w - r, e - 1);
    }
  }

  lemma NotNegative(w: nat, e: int, b: nat, r: nat)
    requires w > 0 && w * e == b + r && b > 0
    ensures e > 0
  {
  }

  /** Decimation by 2 or 4: both ways of designing the taps leave one more than a multiple of
      four, so a block of a transform of at least four points is always emitted exactly. */
  lemma DecimationExact(size: nat, k: nat, taps: nat, m: nat)
    requires 1 <= m <= 2 && k >= 2 && size == Pow2(k) && 1 <= taps <= size && taps % 4 == 1
    ensures Position(Pow2(m), Emitted(size, taps, m)) == size - (taps - 1)
  {
    EmittedIs(size, taps, m);
    Divides(2, k);
    SmallPowers();
    hide *;
    TapsAligned(size, taps, 4);
    MultipleOfFour(size - (taps - 1));
  }

  lemma SmallPowers()
    ensures Pow2(1) == 2 && Pow2(2) == 4
  {
    assert Pow2(0) == 1;
  }

  lemma MultipleOfFour(b: nat)
    requires b % 4 == 0
    ensures b % 2 == 0
  {
    hide *;
    var h := b / 4;
    DigitsDivMod(2, 0, 2 * h);
  }

  /** The taps that decimation gets are one more than a multiple of four: with linear phase, L a power
      of two and the same rate one more than a multiple of 2*L, the next such number from the
      estimate on; else the next of the others; and with another phase those between the beginning
      moved down and the end moved up. */
  lemma TapsOneModFour(n: nat, up: nat, linearPhase: bool, powerOfTwo: bool, sameRate: bool, begin: nat, end: nat)
    requires n >= 1 && up >= 1
    ensures var t := RoundTaps(n, Modulus(up, linearPhase, powerOfTwo, sameRate));
            if linearPhase && powerOfTwo && sameRate then
              (t - 1) % (2 * up) == 0 && n <= t < n + 2 * up && (up % 2 == 0 ==> t % 4 == 1)
            else t % 4 == 1 && n <= t < n + 4
    ensures PhaseTaps(begin, end) % 4 == 1
    ensures begin + end - 3 < PhaseTaps(begin, end) < begin + end + 5
    ensures PhaseTaps(0, end) >= 1 + end && PhaseTaps(begin, 0) <= 1 + begin
  {
    PhaseTapsAre(begin, end);
    var modulo := Modulus(up, linearPhase, powerOfTwo, sameRate);
    assert modulo == if linearPhase && powerOfTwo && sameRate then 2 * up else 4;
    assert modulo % 4 == 0 <==> modulo == 4 || up % 2 == 0;
    hide *;
    RoundTapsLeast(n, modulo, 1);
    TapsClose(n, modulo);
    if modulo % 4 == 0 {
      FourDivides(RoundTaps(n, modulo), modulo);
    }
  }

  lemma PhaseTapsAre(begin: nat, end: nat)
    ensures PhaseTaps(begin, end) % 4 == 1
    ensures begin + end - 3 < PhaseTaps(begin, end) < begin + end + 5
    ensures PhaseTaps(0, end) >= 1 + end && PhaseTaps(begin, 0) <= 1 + begin
  {
  }

  lemma FourDivides(t: nat, modulo: nat)
    requires t >= 1 && modulo > 0 && modulo % 4 == 0 && (t - 1) % modulo == 0
    ensures t % 4 == 1
  {
    var d := modulo / 4;
    var c := WholeQuotient(modulo, t - 1);
    MulAssoc3(4, d, c);
    DigitsDivMod(4, 1, d * c);
  }
}
