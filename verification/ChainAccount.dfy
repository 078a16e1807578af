/** How many samples a chain can make of its input (soxr-sys/src/cr.c, lines 541-547): when its
    account is not overdrawn at the flush. */
module ChainAccount {
  import opened Arith
  import opened Streams
  import opened Accounts
  import opened Driver
  import opened OneShots
  import opened StageKinds
  import HalfBand
  import CubicStage
  import OverlapSave
  import opened BitReversal
  import StagePlan

  /** How many samples a stage makes of one. */
  function Gain(k: Kind): real {
    match k
    case Half(_) => 0.5
    case Cubic(step, _, _) => if step == 0 then 0.0 else CubicStage.ONE32 as real / step as real
    case Block(f, _, _) => if f.down == 0 then 0.0 else f.up as real / f.down as real
  }

  /** The first k stages together. */
  function Gains(designs: seq<Kind>, k: nat): real
    requires k <= |designs|
  {
    if k == 0 then 1.0 else Gains(designs, k - 1) * Gain(designs[k - 1])
  }

  /** What the stage keeps back outweighs what its queue holds at first, so that it never makes more
      than its share of n samples; a cubic stage may round up. */
  ghost predicate Modest(k: Kind, preload: nat) {
    forall x: seq<real> | |x| >= preload ::
      Shot(k, x) == [] || |Shot(k, x)| as real <= (|x| - preload) as real * Gain(k) + Slack(k)
  }

  function Slack(k: Kind): real {
    if k.Cubic? then 0.5 else 0.0
  }

  /** A half-band stage with its zeros, lines 366-372. */
  lemma HalfModest(c: seq<real>)
    ensures Modest(Half(c), 2 * |c|)
  {
    forall x: seq<real> | |x| >= 2 * |c|
      ensures Shot(Half(c), x) == [] || |Shot(Half(c), x)| as real <= (|x| - 2 * |c|) as real * 0.5 + 0.0
    {
      hide Halved;
    }
  }

  /** A cubic stage with its zero, lines 390-397. */
  lemma CubicModest(step: nat, mult: real, at: nat)
    ensures Modest(Cubic(step, mult, at), 1)
  {
    var k := Cubic(step, mult, at);
    hide Shot, Gain, Slack;
    forall x: seq<real> | |x| >= 1
      ensures Shot(k, x) == [] || |Shot(k, x)| as real <= (|x| - 1) as real * Gain(k) + Slack(k)
    {
      CubicMakes(step, mult, at, x);
    }
  }

  lemma CubicMakes(step: nat, mult: real, at: nat, x: seq<real>)
    requires |x| >= 1
    ensures var k := Cubic(step, mult, at);
            Shot(k, x) == [] || |Shot(k, x)| as real <= (|x| - 1) as real * Gain(k) + Slack(k)
  {
    hide Interpolated, CubicStage.Allowed;
    if step > 0 {
      CubicShare(step, |x| - 1, CubicStage.Allowed(step, |x|));
    }
  }

  lemma CubicShare(step: nat, n: nat, k: nat)
    requires step > 0 && k == CubicStage.Allowed(step, 1 + n)
    ensures k as real <= n as real * (CubicStage.ONE32 as real / step as real) + 0.5
  {
    if k > 0 {
      CubicStage.AllowedIs(step, 1 + n, k - 1);
      PositionSum(step, k - 1, 1);
      CubicPlaces(step, n, Position(step, k - 1));
      hide CubicStage.Allowed;
      ShareOf(k, step, n, CubicStage.ONE32);
    }
  }

  lemma CubicPlaces(step: nat, n: nat, at: nat)
    requires CubicStage.Integer(at) + Max(3, CubicStage.Integer(step)) < 1 + n
    ensures 2 * (at + step) <= 2 * (n * CubicStage.ONE32) + step
  {
  }

  lemma ShareOf(k: nat, step: nat, n: nat, one: nat)
    requires step > 0 && 2 * Position(step, k) <= 2 * (n * one) + step
    ensures k as real <= n as real * (one as real / step as real) + 0.5
  {
    var q, b := one as real / step as real, n as real * (one as real / step as real);
    assert q * step as real == one as real;
    assert Weigh(b, step as real) == (n * one) as real by {
      assert (n as real * q) * step as real == n as real * (q * step as real);
    }
    assert Weigh(k as real, step as real) == Position(step, k) as real;
    hide *;
    UpToHalf(k as real, b, step as real);
  }

  lemma UpToHalf(k: real, b: real, step: real)
    requires step > 0.0 && 2.0 * Weigh(k, step) <= 2.0 * Weigh(b, step) + step
    ensures k <= b + 0.5
  {
    hide *;
    if k > b + 0.5 {
      var d := k - (b + 0.5);
      WeighPositive(d, step);
      WeighApart(k, b, step, d);
    }
  }

  lemma WeighPositive(d: real, step: real)
    requires d > 0.0 && step > 0.0
    ensures Weigh(d, step) > 0.0
  {
    PositiveProduct(d, step);
  }

  lemma WeighApart(k: real, b: real, step: real, d: real)
    requires d == k - (b + 0.5)
    ensures Weigh(d, step) == Weigh(k, step) - Weigh(b, step) - 0.5 * step
  {
    MulDistribReal(d, b + 0.5, step);
    MulDistribReal(b, 0.5, step);
  }

  /** A block filter that is in step, with its zeros: what it begins with, in zero-stuffed places, and
      M are at most as many as the taps. */
  lemma BlockModest(f: OverlapSave.Filter, at: nat, remM: nat, preload: nat)
    requires f.Sound() && at < f.up && (f.spectral ==> |f.taps| % f.up == 1 % f.up)
    requires at + f.up * preload + f.down <= |f.taps|
    ensures Modest(Block(f, at, remM), preload)
  {
    var k := Block(f, at, remM);
    hide Shot, Gain, Slack;
    forall x: seq<real> | |x| >= preload
      ensures Shot(k, x) == [] || |Shot(k, x)| as real <= (|x| - preload) as real * Gain(k) + Slack(k)
    {
      BlockMakes(f, at, remM, preload, x);
    }
  }

  lemma BlockMakes(f: OverlapSave.Filter, at: nat, remM: nat, preload: nat, x: seq<real>)
    requires f.Sound() && at < f.up && (f.spectral ==> |f.taps| % f.up == 1 % f.up)
    requires at + f.up * preload + f.down <= |f.taps| && |x| >= preload
    ensures var k := Block(f, at, remM);
            Shot(k, x) == [] || |Shot(k, x)| as real <= (|x| - preload) as real * Gain(k) + Slack(k)
  {
    hide Filtered, KeptOf, OverlapSave.Whole;
    if at < f.up <= f.Block() && OverlapSave.Whole(f) {
      BlockShare(f, at, preload, |x| - preload);
      Quotient(KeptOf(f, at, |x|), f.down, f.up, |x| - preload);
    }
  }

  /** As dft_stage_init sets it up, lines 240-241: with the peak at least M taps before the end. */
  lemma DesignedModest(f: OverlapSave.Filter, peak: nat, remM: nat)
    requires f.Sound() && (f.spectral ==> |f.taps| % f.up == 1 % f.up) && peak + f.down <= |f.taps|
    ensures Modest(Block(f, peak % f.up, remM), peak / f.up)
  {
    assert peak == peak % f.up + f.up * (peak / f.up);
    hide Modest;
    BlockModest(f, peak % f.up, remM, peak / f.up);
  }

  lemma Quotient(k: nat, down: nat, up: nat, n: nat)
    requires down > 0 && k * down <= up * n
    ensures k as real <= n as real * (up as real / down as real)
  {
    var q := up as real / down as real;
    assert q * down as real == up as real;
    assert (n as real * q) * down as real == n as real * up as real;
    assert (k * down) as real == k as real * down as real && (up * n) as real == up as real * n as real;
    hide *;
    ScaleIff(k as real, n as real * q, down as real);
  }

  lemma BlockShare(f: OverlapSave.Filter, at: nat, preload: nat, n: nat)
    requires f.Sound() && at < f.up <= f.Block() && OverlapSave.Whole(f)
    requires f.spectral ==> |f.taps| % f.up == 1 % f.up
    requires at + f.up * preload + f.down <= |f.taps|
    ensures KeptOf(f, at, preload + n) * f.down <= f.up * n
  {
    InStepStride(f, at);
    var places := at + Position(f.up, preload + n);
    var b := OverlapSave.Blocks(f, at, places);
    OverlapSave.PositionIs(f.up, preload + n);
    MulDistrib(f.up, preload, n);
    hide OverlapSave.Blocks, OverlapSave.Stride, Position, Count;
    if b > 0 {
      BlocksInside(f, at, places, b - 1);
      PositionSum(f.Block(), b - 1, 1);
    } else {
      PositionSum(f.Block(), 0, 0);
    }
    CountShare(f.down, Position(f.Block(), b));
    NotNegative(f.up, n);
  }

  lemma NotNegative(a: nat, b: nat)
    ensures a * b >= 0
  {
  }

  /** Rounded up to a multiple. */
  lemma CountShare(down: nat, limit: nat)
    requires down > 0
    ensures Count(down, 0, limit) * down <= if limit == 0 then 0 else limit + down - 1
  {
    var c := Count(down, 0, limit);
    if limit == 0 {
      assert c == 0;
    } else if c > 0 {
      CountIs(down, 0, limit, c - 1);
      OverlapSave.PositionIs(down, c - 1);
      MulDistrib(down, c, 1);
    }
  }

  lemma InStepStride(f: OverlapSave.Filter, at: nat)
    requires f.Sound() && at < f.up <= f.Block() && OverlapSave.Whole(f)
    requires f.spectral ==> |f.taps| % f.up == 1 % f.up
    ensures OverlapSave.Stride(f, at) == f.Block() > 0
  {
    hide OverlapSave.Consumed;
    OverlapSave.StrideIs(f, at);
    if f.spectral {
      OverlapSave.SpectralStep(f, at);
    }
  }

  // ---- the gain of a planned chain ----

  predicate Changes(k: Kind, up: nat, down: nat) {
    k.Block? && k.filter.up == up && k.filter.down == down
  }

  /** The stages of a plan without an arbitrary-ratio stage (lines 258-260, 365-389 and 478-481). */
  ghost predicate MadeFor(designs: seq<Kind>, p: StagePlan.Plan) {
    var pre, post := if p.preM * p.preL != 1 then 1 else 0, if p.postM * p.postL != 1 then 1 else 0;
    && p.arbM == 1.0 && p.arbL == 1
    && |designs| == p.shr + pre + post
    && (forall i: nat | i < p.shr :: designs[i].Half?)
    && (pre == 1 ==> Changes(designs[p.shr], p.preL, Max(p.preM, 1)))
    && (post == 1 ==> Changes(designs[p.shr + pre], p.postL, p.postM))
  }

  lemma {:induction false} HalvesGain(designs: seq<Kind>, k: nat)
    requires k <= |designs| && forall i: nat | i < k :: designs[i].Half?
    ensures Weigh(Gains(designs, k), Pow2(k) as real) == 1.0
  {
    if k > 0 {
      HalvesGain(designs, k - 1);
      assert (2 * Pow2(k - 1)) as real == 2.0 * Pow2(k - 1) as real;
    }
  }

  lemma BlockGain(k: Kind, up: nat, down: nat)
    requires Changes(k, up, down) && down > 0
    ensures Gain(k) == up as real / down as real
  {
  }

  /** The cubic stage alone makes one sample of as many as its step says. */
  lemma CubicGains(step: nat, mult: real, at: nat)
    requires step > 0
    ensures step as real / 4294967296.0 * Gains([Cubic(step, mult, at)], 1) == 1.0
  {
    var designs := [Cubic(step, mult, at)];
    GainsAt(designs, 1);
    GainsAt(designs, 0);
    assert Gain(designs[0]) == 4294967296.0 / step as real;
    hide *;
    Inverses(step as real);
  }

  lemma Inverses(x: real)
    requires x > 0.0
    ensures x / 4294967296.0 * (1.0 * (4294967296.0 / x)) == 1.0
  {
    var q := 4294967296.0 / x;
    assert q * x == 4294967296.0;
    assert x / 4294967296.0 * (1.0 * q) == (q * x) / 4294967296.0;
  }

  /** A stage that changes nothing is left out. */
  lemma StageGain(designs: seq<Kind>, k: nat, up: nat, down: nat)
    requires up > 0 && down > 0
    requires if down * up != 1 then k < |designs| && Changes(designs[k], up, down) else k <= |designs|
    ensures var next := if down * up != 1 then k + 1 else k;
            Gains(designs, next) == Weigh(Gains(designs, k), up as real / down as real)
  {
    if down * up != 1 {
      BlockGain(designs[k], up, down);
    } else {
      OneTimesOne(down, up);
    }
  }

  lemma PrePost(designs: seq<Kind>, p: StagePlan.Plan) returns (k: nat)
    requires p.Proper() && MadeFor(designs, p)
    ensures k <= |designs| && p.shr <= |designs| && Max(p.preM, 1) > 0
    ensures Weigh(Gains(designs, p.shr), Pow2(p.shr) as real) == 1.0
    ensures Gains(designs, k) == Weigh(Gains(designs, p.shr), p.preL as real / Max(p.preM, 1) as real)
    ensures Gains(designs, |designs|) == Weigh(Gains(designs, k), p.postL as real / p.postM as real)
  {
    k := p.shr + if p.preM * p.preL != 1 then 1 else 0;
    HalvesGain(designs, p.shr);
    hide Gains, Weigh, Changes;
    if p.preM == 0 && p.preL == 1 {
      UnchangedGain(designs, p.shr);
    } else {
      StageGain(designs, p.shr, p.preL, Max(p.preM, 1));
    }
    StageGain(designs, k, p.postL, p.postM);
  }

  /** A stage that makes one of one. */
  lemma UnchangedGain(designs: seq<Kind>, k: nat)
    requires k < |designs| && Changes(designs[k], 1, 1)
    ensures Gains(designs, k + 1) == Weigh(Gains(designs, k), 1 as real / 1 as real)
  {
    BlockGain(designs[k], 1, 1);
  }

  /** They make one sample of so many as the plan's ratio says. */
  lemma PlannedGains(designs: seq<Kind>, p: StagePlan.Plan)
    requires p.Proper() && MadeFor(designs, p)
    ensures p.Ratio() * Gains(designs, |designs|) == 1.0
  {
    hide *;
    StagePlan.ProperIs(p);
    StagePlan.RatioOf(p);
    NoneArbitrary(designs, p);
    var k := PrePost(designs, p);
    RatioTimes(Pow2(p.shr), Max(p.preM, 1), p.postM, p.preL, p.postL, Gains(designs, p.shr), Gains(designs, k),
        Gains(designs, |designs|));
  }

  lemma NoneArbitrary(designs: seq<Kind>, p: StagePlan.Plan)
    requires MadeFor(designs, p)
    ensures p.arbL == 1 && p.arbM / p.arbL as real == 1.0
  {
    hide Gains;
  }

  lemma OneTimesOne(a: nat, b: nat)
    ensures a * b == 1 ==> a == 1 && b == 1
  {
    if a > 1 && b > 0 {
      MulLe(b, 2, a);
    }
    if b > 1 && a > 0 {
      MulLe(a, 2, b);
    }
  }

  lemma RatioTimes(s: nat, m: nat, n: nat, l: nat, k: nat, g: real, h: real, e: real)
    requires m > 0 && n > 0 && l > 0 && k > 0 && Weigh(g, s as real) == 1.0
    requires h == Weigh(g, l as real / m as real) && e == Weigh(h, k as real / n as real)
    ensures (l * k) as real != 0.0
    ensures Weigh(StagePlan.Over((s * m * n) as real, (l * k) as real), 1.0) * e == 1.0
  {
    StagePlan.ProductPositive(l, k);
    var r := StagePlan.Over((s * m * n) as real, (l * k) as real);
    var u, v := l as real / m as real, k as real / n as real;
    assert u * m as real == l as real && v * n as real == k as real;
    assert r * (l * k) as real == (s * m * n) as real;
    assert (l * k) as real == l as real * k as real && (s * m * n) as real == s as real * m as real * n as real;
    assert g * s as real == 1.0 && e == g * u * v && Weigh(r, 1.0) == r;
    hide *;
    Regroup(r, s as real, m as real, n as real, l as real, k as real, g, u, v);
  }

  lemma Regroup(r: real, s: real, m: real, n: real, l: real, k: real, g: real, u: real, v: real)
    requires u * m == l && v * n == k && r * (l * k) == s * m * n && g * s == 1.0 && l > 0.0 && k > 0.0
    ensures r * (g * u * v) == 1.0
  {
    PositiveProduct(l, k);
    assert (r * (g * u * v)) * (l * k) == (r * (l * k)) * (g * u * v);
    Ungroup(s, m, n, g, u, v);
    hide *;
    Replaced(r * (l * k), s * m * n, g * u * v);
    Replaced3(g * s, 1.0, u * m, l, v * n, k);
    StagePlan.Cancel(r * (g * u * v), 1.0, l * k);
  }

  lemma Ungroup(s: real, m: real, n: real, g: real, u: real, v: real)
    ensures (s * m * n) * (g * u * v) == (g * s) * (u * m) * (v * n)
  {
  }

  lemma Replaced(a: real, b: real, c: real)
    requires a == b
    ensures a * c == b * c
  {
  }

  lemma Replaced3(a: real, b: real, c: real, d: real, e: real, f: real)
    requires a == b && c == d && e == f
    ensures a * c * e == b * d * f && 1.0 * d * f == d * f
  {
  }

  // ---- the chain ----

  /** The stages have modest queues; only the last may round up. */
  ghost predicate AllModest(designs: seq<Kind>, first: seq<seq<real>>) {
    && |first| == |designs| + 1 && first[|designs|] == []
    && (forall i: nat | i < |designs| :: Modest(designs[i], |first[i]|))
    && (forall i: nat | i + 1 < |designs| :: !designs[i].Cubic?)
  }

  lemma GainNatural(k: Kind)
    ensures Gain(k) >= 0.0
  {
  }

  /** What reaches stage k beyond its first samples. */
  lemma {:induction false} ThroughShare(designs: seq<Kind>, first: seq<seq<real>>, taken: seq<real>, k: nat)
    requires AllModest(designs, first) && k <= |designs|
    ensures var y := Through(Shots(designs), first, first[0] + taken, k);
            && |first[k]| <= |y|
            && (|y| - |first[k]|) as real <=
               |taken| as real * Gains(designs, k) + (if k > 0 then Slack(designs[k - 1]) else 0.0)
    ensures Gains(designs, k) >= 0.0
  {
    hide *;
    ModestAt(designs, first, k);
    GainsAt(designs, k);
    ThroughAt(designs, first, first[0] + taken, k);
    if k > 0 {
      ThroughShare(designs, first, taken, k - 1);
      var x := Through(Shots(designs), first, first[0] + taken, k - 1);
      var d, p := designs[k - 1], |first[k - 1]|;
      ModestIs(d, p, x);
      GainNatural(d);
      SlackIs(d);
      if k > 1 {
        SlackIs(designs[k - 2]);
      }
      Compose((|x| - p) as real, |taken| as real, Gains(designs, k - 1), Gain(d));
    }
  }

  lemma ModestAt(designs: seq<Kind>, first: seq<seq<real>>, k: nat)
    requires AllModest(designs, first) && k <= |designs|
    ensures |first| == |designs| + 1 && first[|designs|] == []
    ensures k > 0 ==> Modest(designs[k - 1], |first[k - 1]|)
    ensures k > 1 ==> !designs[k - 2].Cubic?
  {
    hide Modest;
  }

  lemma GainsAt(designs: seq<Kind>, k: nat)
    requires k <= |designs|
    ensures Gains(designs, k) == if k == 0 then 1.0 else Gains(designs, k - 1) * Gain(designs[k - 1])
  {
  }

  lemma ThroughAt(designs: seq<Kind>, first: seq<seq<real>>, x: seq<real>, k: nat)
    requires k <= |designs| && k < |first|
    ensures Through(Shots(designs), first, x, k) ==
            if k == 0 then x
            else first[k] + Shot(designs[k - 1], Through(Shots(designs), first, x, k - 1))
  {
    hide Shot;
  }

  lemma ModestIs(k: Kind, preload: nat, x: seq<real>)
    requires Modest(k, preload) && |x| >= preload
    ensures |Shot(k, x)| == 0 || |Shot(k, x)| as real <= (|x| - preload) as real * Gain(k) + Slack(k)
  {
    hide Shot, Gain, Slack;
  }

  lemma SlackIs(k: Kind)
    ensures Slack(k) == if k.Cubic? then 0.5 else 0.0
  {
  }

  lemma Compose(x: real, n: real, g: real, h: real)
    requires x <= n * g && g >= 0.0 && h >= 0.0 && n >= 0.0
    ensures x * h <= n * (g * h) && n * (g * h) >= 0.0 && g * h >= 0.0
  {
    RealMulLe(x, n * g, h);
    assert (n * g) * h == n * (g * h);
    assert g * h >= 0.0;
  }

  /** Before the flush a chain of modest stages that converts by its io_ratio never hands out more
      than its input is worth, so that its account is not overdrawn when it settles. */
  lemma ChainNotAhead(p: Pipeline<Kind>, designs: seq<Kind>)
    requires p.Valid() && (p.ok == Keeper(designs) || p.ok == FruitfulKeeper(designs)) && !p.flushing
    requires AllModest(designs, p.first) && p.ioRatio * Gains(designs, |designs|) == 1.0
    ensures |p.given| <= Due(p.ioRatio, |p.taken|)
  {
    hide *;
    PipelineIs(p);
    ChainOutput(p, designs);
    ModestAt(designs, p.first, |designs|);
    ThroughShare(designs, p.first, p.taken, |designs|);
    if |designs| > 0 {
      SlackIs(designs[|designs| - 1]);
    }
    PrefixLength(p.given, Through(Shots(designs), p.first, p.first[0] + p.taken, |designs|));
    Worth(|p.given|, |p.taken|, p.ioRatio, Gains(designs, |designs|));
  }

  lemma PipelineIs(p: Pipeline<Kind>)
    requires p.Valid() && !p.flushing
    ensures p.ioRatio > 0.0 && |p.first| > 0 && p.first[0] + p.taken + Zeros(p.pad) == p.first[0] + p.taken
  {
    assert p.pad == 0 && Zeros(0) == [];
  }

  lemma PrefixLength(a: seq<real>, b: seq<real>)
    requires a <= b
    ensures |a| <= |b|
  {
  }

  lemma Worth(k: nat, n: nat, ratio: real, g: real)
    requires ratio > 0.0 && ratio * g == 1.0 && k as real <= n as real * g + 0.5
    ensures k <= Due(ratio, n)
  {
    var q := n as real / ratio;
    assert q * ratio == n as real;
    assert (n as real * g) * ratio == n as real * (ratio * g);
    SameQuotient(q, n as real * g, ratio);
  }

  lemma SameQuotient(a: real, b: real, r: real)
    requires r > 0.0 && a * r == b * r
    ensures a == b
  {
    assert (a - b) * r == 0.0;
  }
}
