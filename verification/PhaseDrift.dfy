/** Filters of other than linear phase where L is a power of two: when their stages keep in step,
    and how far they get out of it (soxr-sys/src/cr.c, lines 87-124 and 195-205; the taps are cut
    by soxr-sys/src/filter.c, lines 230-234). */
module PhaseDrift {
  import opened Arith
  import opened BitReversal
  import opened Streams
  import opened OverlapSave
  import opened DftFilter

  /** The fours on both sides of the peak: PhaseTaps is one more than four times as many. */
  function Fours(begin: nat, end: nat): nat {
    (end + 3) / 4 + begin / 4
  }

  lemma TapsOfFours(begin: nat, end: nat)
    ensures PhaseTaps(begin, end) == 1 + 4 * Fours(begin, end)
  {
  }

  /** Within the limits of soxr.h the length is a multiple of every L up to 256. */
  lemma LengthWhole(taps: nat, least: nat, large: nat, p: nat)
    requires taps > 0 && least >= 8 && large >= 8 && p <= 8
    ensures var size := DftLength(taps, least, large); taps <= size && size % Pow2(p) == 0
  {
    var k := LongerThanTaps(taps, least, large);
    hide Bumps, Exponent;
    Divides(p, k);
  }

  lemma FourfoldDivides(n: nat, w: nat)
    requires w > 0
    ensures 4 * n % (4 * w) == 0 <==> n % w == 0
  {
    var q, r := n / w, n % w;
    assert n == r + w * q;
    MulAssoc3(4, w, q);
    DigitsDivMod(4 * w, 4 * r, q);
  }

  lemma SmallDivides(n: nat)
    ensures 4 * n % 2 == 0 && 4 * n % 1 == 0
  {
    DigitsDivMod(2, 0, 2 * n);
    DigitsDivMod(1, 0, 4 * n);
  }

  /** With any other phase the stage keeps in step for L up to 4; for a larger L just when L/4
      divides the number of fours.  For L = 8 that is an even number: with an odd one the taps are
      5 modulo 8, and every block adds its excess. */
  lemma PhaseInStepIff(f: Filter, at: nat, p: nat, begin: nat, end: nat, least: nat, large: nat)
    requires p <= 8 && f.up == Pow2(p) && at < f.up && f.down >= 1 && least >= 8 && large >= 8
    requires |f.taps| == PhaseTaps(begin, end) && f.size == DftLength(|f.taps|, least, large)
    ensures f.Sound() && f.size % f.up == 0
    ensures Excess(f, at) == 0 <==> p < 2 || Fours(begin, end) % Pow2(p - 2) == 0
    ensures p == 3 ==> |f.taps| % 8 == if Fours(begin, end) % 2 == 1 then 5 else 1
  {
    var n := Fours(begin, end);
    TapsOfFours(begin, end);
    LengthWhole(|f.taps|, least, large, p);
    SpectralStep(f, at);
    OneMore(4 * n, f.up);
    SmallPowers();
    if p == 0 {
      assert Pow2(0) == 1;
    }
    hide *;
    ExcessIs(f, at);
    if p < 2 {
      SmallDivides(n);
    } else {
      Pow2Two(p);
      Pow2Two(p - 1);
      FourfoldDivides(n, Pow2(p - 2));
    }
    if p == 3 {
      TapsModEight(n);
    }
  }

  lemma ExcessIs(f: Filter, at: nat)
    requires f.Sound() && at < f.up
    ensures Excess(f, at) == 0 <==> Position(f.up, Consumed(f, at)) == f.Block()
  {
  }

  lemma TapsModEight(n: nat)
    ensures (1 + 4 * n) % 8 == if n % 2 == 1 then 5 else 1
  {
    var h, r := n / 2, n % 2;
    assert n == 2 * h + r;
    DigitsDivMod(8, 1 + 4 * r, h);
  }

  // ---- a run that drifts ----

  /** Enough samples, then n calls. */
  function Calls(samples: nat, n: nat): (events: seq<Event>)
    ensures |events| == 1 + n
  {
    if n == 0 then [Arrive(Zeros(samples))] else Calls(samples, n - 1) + [Fire]
  }

  lemma CallsPrefix(samples: nat, n: nat)
    requires n > 0
    ensures Calls(samples, n)[..n] == Calls(samples, n - 1) && Calls(samples, n)[n] == Fire
  {
  }

  /** Every one of the n calls fires a block. */
  lemma {:induction false} AllFire(f: Filter, at: nat, samples: nat, n: nat)
    requires f.Sound() && at < f.up && f.spectral
    requires n > 0 ==> Position(Stride(f, at), n - 1) + f.size <= at + Position(f.up, samples)
    ensures |Received([], Calls(samples, n))| == samples
    ensures Accounts(f, at, samples, Run(f, at, [], Calls(samples, n)), n)
  {
    hide Position, Stride, InputSize, Fired, Excess;
    if n == 0 {
      var events := Calls(samples, 0);
      assert events[..|events| - 1] == [];
      assert Run(f, at, [], []) == State([], at, 0, InputSize(f, at), []);
      PositionSum(f.up, 0, 0);
      PositionSum(f.down, 0, 0);
      PositionSum(f.Block(), 0, 0);
    } else {
      if n > 1 {
        PositionGrows(Stride(f, at), n - 2, n - 1);
      }
      AllFire(f, at, samples, n - 1);
      CallsPrefix(samples, n);
      var st := Run(f, at, [], Calls(samples, n - 1));
      StrideAndExcess(f, at, n - 1);
      PositionSum(f.up, |st.queue|, samples - |st.queue|);
      AccountsFire(f, at, samples, st, n - 1);
    }
  }

  lemma StrideAndExcess(f: Filter, at: nat, n: nat)
    requires f.Sound() && at < f.up && f.spectral
    ensures Position(Stride(f, at), n) == Position(f.Block(), n) + Excess(f, at) * n
  {
    PositionIs(Stride(f, at), n);
    PositionIs(f.Block(), n);
    StrideIs(f, at);
    hide Position, Stride;
    MulDistribRight(n, f.Block(), Excess(f, at));
  }

  /** However many blocks: after n of them the stage has taken n times the excess more places than
      it has made. */
  lemma DriftsByExcess(f: Filter, at: nat, samples: nat, n: nat)
    requires f.Sound() && at < f.up && f.spectral && f.down == 1
    requires n > 0 ==> Position(Stride(f, at), n - 1) + f.size <= at + Position(f.up, samples)
    ensures var st := Run(f, at, [], Calls(samples, n));
            && |st.queue| <= samples
            && |st.produced| == n * f.Block()
            && f.up * (samples - |st.queue|) - |st.produced| == Excess(f, at) * n
  {
    AllFire(f, at, samples, n);
    var st := Run(f, at, [], Calls(samples, n));
    hide Stride, Fired, InputSize, Excess;
    PositionIs(f.up, samples - |st.queue|);
    PositionIs(1, |st.produced|);
    PositionIs(f.Block(), n);
  }

  /** L = 8 and 1501 taps, cut 600 before and 900 after the peak, with the default limits: the
      transform has 8192 points and every block takes four places too many. */
  lemma EightDrifts(f: Filter, at: nat)
    requires f.up == 8 && f.down == 1 && f.spectral && at < 8
    requires |f.taps| == PhaseTaps(600, 900) && f.size == DftLength(1501, 10, 17)
    ensures |f.taps| == 1501 && f.size == 8192 && f.Sound()
    ensures at < 4 ==> Excess(f, at) == 4
    ensures at >= 4 ==> Excess(f, at) == -4
  {
    hide *;
    EightTaps();
    EightLength();
    BlockIs(f);
    ConsumedIs(f, at);
    ExcessOf(f, at);
    PositionIs(8, Consumed(f, at));
    EightConsumed(at);
  }

  lemma EightTaps()
    ensures PhaseTaps(600, 900) == 1501
  {
  }

  lemma EightConsumed(at: nat)
    requires at < 8
    ensures (6692 - at + 7) / 8 == if at < 4 then 837 else 836
  {
  }

  lemma BlockIs(f: Filter)
    requires 1 <= f.up && 1 <= f.down && 1 <= |f.taps| <= f.size
    ensures f.Sound() && f.Block() == f.size - (|f.taps| - 1)
  {
  }

  lemma ConsumedIs(f: Filter, at: nat)
    requires f.Sound() && at < f.up
    ensures Consumed(f, at) == (f.Block() - at + f.up - 1) / f.up
  {
  }

  lemma ExcessOf(f: Filter, at: nat)
    requires f.Sound() && at < f.up
    ensures Excess(f, at) == Position(f.up, Consumed(f, at)) - f.Block()
  {
    hide Position, Consumed;
  }

  lemma EightLength()
    ensures DftLength(1501, 10, 17) == 8192
  {
    Powers();
    FloorLog2Unique(1501, 10);
    QuarterBumps(1501, 10);
    hide Bumps, Pow2;
    assert Exponent(1501) == 12;
    assert LengthExponent(1501, 10, 17) == 13;
  }

  lemma Powers()
    ensures Pow2(10) == 1024 && Pow2(11) == 2048 && Pow2(13) == 8192
  {
    assert Pow2(5) == 32 && Pow2(3) == 8;
    Pow2Add(5, 5);
    Pow2Add(10, 1);
    Pow2Add(10, 3);
  }
}
