/** The planning loop of _soxr_init (soxr-sys/src/cr.c, lines 313-340), over exact reals: it ends, the
    stages it plans multiply to the ratio it was given, and which stages they are. */
module StagePlan {
  import opened Arith
  import opened BitReversal
  import opened Streams
  import opened Options
  import opened Fractions

  /** A quotient; by name, so that proofs can hide it. */
  function Over(a: real, b: real): real
    requires b != 0.0
  {
    a / b
  }

  /** The numbers that determine the stages.  The pre stage's preM may be 0 for 1. */
  datatype Plan = Plan(shr: nat, preL: nat, preM: nat, arbM: real, arbL: nat, postM: nat, postL: nat) {
    ghost predicate Proper() {
      preL > 0 && arbM > 0.0 && arbL > 0 && postM > 0 && postL > 0
    }

    /** All but the arbitrary-ratio stage. */
    function Factor(): real
      requires preL > 0 && postL > 0
    {
      Over((Pow2(shr) * Max(preM, 1) * postM) as real, (preL * postL) as real)
    }

    /** Input samples per output sample of the whole chain. */
    function Ratio(): real
      requires preL > 0 && arbL > 0 && postL > 0
    {
      Weigh(Factor(), arbM / arbL as real)
    }
  }

  // ---- splitting off the power of two and the pre and post stages ----

  /** What the pre stage takes of a ratio brought below 4: below 1 it doubles, unless in mode 0; from 1
      to 3/2 it doubles too, so that at least 2 is left; between 3/2 and 2 the post stage halves
      instead; from 2 on neither does anything. */
  predicate Shares(p: Plan, mode: nat, left: real) {
    if left < 1.0 then p.preL == (if mode == 0 then 1 else 2) && p.preM == 1 && p.postM == 1
    else if left <= 1.5 then p.preL == 2 && p.preM == 0 && p.postM == 1
    else if left < 2.0 then p.preL == 1 && p.preM == 1 && p.postM == 2
    else p.preL == 1 && p.preM == 0 && p.postM == 1
  }

  /** Line 318: halving until less than 4 is left. */
  method Halve(arbM0: real) returns (arbM: real, shr: nat)
    requires arbM0 > 0.0
    ensures arbM > 0.0 && arbM0 == Weigh(Pow2(shr) as real, arbM)
    ensures arbM < 4.0 && (shr > 0 ==> arbM >= 2.0)
  {
    arbM, shr := arbM0, 0;
    var i := (0.5 * arbM).Floor;
    i := i / 2;
    while i != 0
      invariant 0 <= i == (0.25 * arbM).Floor && arbM > 0.0
      invariant arbM0 == Weigh(Pow2(shr) as real, arbM)
      invariant shr > 0 ==> arbM >= 2.0
      decreases i
    {
      QuarterFloor(0.5 * arbM);
      HalveStep(Pow2(shr), arbM);
      arbM, shr := 0.5 * arbM, shr + 1;
      i := i / 2;
    }
  }

  lemma QuarterFloor(y: real)
    requires y >= 0.0
    ensures (0.5 * y).Floor == y.Floor / 2
  {
    var n := y.Floor;
    assert n as real <= y < n as real + 1.0;
    assert n == 2 * (n / 2) + n % 2;
  }

  lemma HalveStep(p: nat, a: real)
    ensures Weigh(p as real, a) == Weigh((2 * p) as real, 0.5 * a)
  {
    assert (2 * p) as real == 2.0 * p as real;
  }

  /** Lines 317-321 and the fields they leave, for a ratio of arbM0 still to be planned. */
  method Split(arbM0: real, mode: nat, postL: nat) returns (p: Plan, upsample: bool, ghost left: real)
    requires arbM0 > 0.0 && postL > 0
    ensures p.Proper() && p.arbL == 1 && p.postL == postL
    ensures upsample == (arbM0 < 1.0)
    ensures p.Ratio() == arbM0 / postL as real
    ensures p.arbM < 4.0 && p.preL <= 2 && p.preM <= 1 && (p.arbM > 3.0 ==> p.preL == 1)
    ensures arbM0 == 1.0 ==> p.arbM == 2.0
    ensures if upsample then p.shr == 0 && p.postM == 1 && p.preL == (if mode == 0 then 1 else 2)
                             && p.arbM == arbM0 * p.preL as real
            else 3.0 * p.preL as real <= 4.0 * p.arbM
    ensures 0.0 < left < 4.0 && arbM0 == Weigh(Pow2(p.shr) as real, left) && (p.shr > 0 ==> left >= 2.0)
    ensures p.arbM == left / p.postM as real * p.preL as real
    ensures Shares(p, mode, left)
  {
    upsample := arbM0 < 1.0;
    var arbM, shr := Halve(arbM0);
    if upsample {
      HalvedSmall(arbM0, arbM, shr);
    }
    var preM := if upsample || (arbM > 1.5 && arbM < 2.0) then 1 else 0;
    var postM := 1 + (if arbM > 1.0 && preM == 1 then 1 else 0);
    var preL := 1 + (if preM == 0 && arbM < 2.0 then 1 else 0) + (if upsample && mode != 0 then 1 else 0);
    HalvedLarge(arbM0, arbM, shr);
    HalvedOne(arbM0, arbM, shr);
    SplitRatio(arbM0, arbM, shr, preL, postM, postL);
    p := Plan(shr, preL, preM, arbM / postM as real * preL as real, 1, postM, postL);
    left := arbM;
    assert arbM0 >= 1.0 ==> arbM >= 1.0;
    assert Shares(p, mode, left);
    hide *;
    RatioOf(p);
  }

  lemma HalvedSmall(arbM0: real, arbM: real, shr: nat)
    requires arbM0 < 1.0 && arbM0 == Weigh(Pow2(shr) as real, arbM) && (shr > 0 ==> arbM >= 2.0)
    ensures shr == 0 && arbM == arbM0
  {
    if shr > 0 {
      WeighAtLeast(Pow2(shr) as real, arbM);
    }
  }

  lemma WeighAtLeast(a: real, b: real)
    requires a >= 1.0 && b >= 0.0
    ensures Weigh(a, b) >= b
  {
    assert (a - 1.0) * b >= 0.0;
    assert a * b == b + (a - 1.0) * b;
  }

  lemma HalvedLarge(arbM0: real, arbM: real, shr: nat)
    requires arbM0 == Weigh(Pow2(shr) as real, arbM) && (shr > 0 ==> arbM >= 2.0)
    ensures arbM0 >= 1.0 ==> arbM >= 1.0
  {
    if shr == 0 {
      assert Pow2(0) == 1;
    }
  }

  lemma HalvedOne(arbM0: real, arbM: real, shr: nat)
    requires arbM0 == Weigh(Pow2(shr) as real, arbM) && (shr > 0 ==> arbM >= 2.0)
    ensures arbM0 == 1.0 ==> arbM == 1.0
  {
    if shr > 0 {
      WeighAtLeast(Pow2(shr) as real, arbM);
    } else {
      assert Pow2(0) == 1;
    }
  }

  lemma RatioOf(p: Plan)
    requires p.preL > 0 && p.arbL > 0 && p.postL > 0
    ensures p.Ratio() ==
        Weigh(Over((Pow2(p.shr) * Max(p.preM, 1) * p.postM) as real, (p.preL * p.postL) as real),
            p.arbM / p.arbL as real)
  {
  }

  lemma SplitRatio(arbM0: real, arbM: real, shr: nat, preL: nat, postM: nat, postL: nat)
    requires arbM0 == Weigh(Pow2(shr) as real, arbM) && preL > 0 && postM > 0 && postL > 0
    ensures Weigh(Over((Pow2(shr) * 1 * postM) as real, (preL * postL) as real),
        arbM / postM as real * preL as real / 1 as real) ==
            arbM0 / postL as real
  {
    var s, l, m, t := Pow2(shr) as real, preL as real, postM as real, postL as real;
    assert (Pow2(shr) * 1 * postM) as real == s * m;
    assert (preL * postL) as real == l * t;
    hide *;
    FourFactors(s, m, l, t, arbM);
    WeighIs(s, arbM);
    WeighIs(s * m / (l * t), arbM / m * l / 1.0);
  }

  lemma WeighIs(a: real, b: real)
    ensures Weigh(a, b) == a * b
  {
  }

  lemma FourFactors(s: real, m: real, l: real, t: real, a: real)
    requires m > 0.0 && l > 0.0 && t > 0.0
    ensures l * t > 0.0 && s * m / (l * t) * (a / m * l / 1.0) == s * a / t
  {
    var q, r := a / m, s * a / t;
    assert q * m == a && r * t == s * a;
    assert l * t > 0.0;
    var x := s * m / (l * t);
    assert x * (l * t) == s * m;
    assert (x * (q * l)) * t == (x * (l * t)) * q;
    assert (s * m) * q == s * (q * m);
    Cancel(x * (q * l), r, t);
  }

  lemma Cancel(a: real, b: real, t: real)
    requires t > 0.0 && a * t == b * t
    ensures a == b
  {
    assert (a - b) * t == 0.0;
  }

  // ---- a rational for the arbitrary-ratio stage ----

  /** How far from exact a fraction may be found rational, as a relative tolerance; the absolute
      one is bound by slack. */
  ghost predicate Tight(tolerance: real -> real, slack: real) {
    forall f: real | 0.0 < f < 1.0 :: TightAt(tolerance, slack, f)
  }

  ghost predicate TightAt(tolerance: real -> real, slack: real, f: real) {
    tolerance(f) >= 0.0 && Weigh(tolerance(f), f) <= slack
  }

  /** epsilon, line 323: what rounding the fraction to 32 bits would change. */
  function Epsilon(frac: real): real {
    if frac <= 0.0 then 0.0
    else Abs((frac * 4294967296.0 + 0.5).Floor as real / (frac * 4294967296.0) - 1.0)
  }

  /** Half a unit in the 32nd place after the point. */
  const HALF_UNIT: real := 1.0 / 8589934592.0

  /** It stands for that absolute tolerance. */
  lemma EpsilonTight()
    ensures Tight(Epsilon, HALF_UNIT)
  {
    forall f: real | 0.0 < f < 1.0 ensures TightAt(Epsilon, HALF_UNIT, f) {
      RoundedFraction(f * 4294967296.0, f);
    }
  }

  /** Times the fraction it is what the rounding adds or takes. */
  lemma EpsilonMeans(frac: real)
    requires 0.0 < frac < 1.0
    ensures Weigh(Epsilon(frac), frac) ==
            Abs((frac * 4294967296.0 + 0.5).Floor as real / 4294967296.0 - frac)
  {
    hide *;
    var y := frac * 4294967296.0;
    var n := (y + 0.5).Floor as real;
    EpsilonIs(frac);
    QuotientError(n, y);
    RoundingScaled(n / y - 1.0, y, frac, n);
    AbsScaled(n / y - 1.0, frac, n / 4294967296.0 - frac, Epsilon(frac));
  }

  lemma AbsScaled(e: real, y: real, x: real, a: real)
    requires y > 0.0 && e * y == x && a == Abs(e)
    ensures Weigh(a, y) == Abs(x)
  {
    AbsTimes(e, y);
  }

  lemma RoundingScaled(e: real, y: real, frac: real, n: real)
    requires y == frac * 4294967296.0 && e * y == n - y
    ensures e * frac == n / 4294967296.0 - frac
  {
    assert e * y == (e * frac) * 4294967296.0;
  }

  /** What the loop tries first for a fraction below one half is the numerator 0, whose relative
      error is 1; the tolerance admits that just when the fraction itself is at most half a unit. */
  lemma ZeroAcceptedIff(frac: real)
    requires 0.0 < frac < 0.5
    ensures (frac * 1.0 + 0.5).Floor == 0
    ensures Abs(0.0 / (frac * 1.0) - 1.0) <= Epsilon(frac) <==> frac <= HALF_UNIT
  {
    hide *;
    var y := frac * 4294967296.0;
    var n := (y + 0.5).Floor;
    EpsilonIs(frac);
    QuotientError(n as real, y);
    WholeError(n as real / y - 1.0, y, n as real - y);
    RoundedOff(y, n);
  }

  /** An error relative to y is at least 1 just when the absolute one is at least y. */
  lemma WholeError(e: real, y: real, d: real)
    requires y > 0.0 && e * y == d
    ensures 1.0 <= Abs(e) <==> y <= (if d < 0.0 then -d else d)
  {
    hide *;
    AbsCases(e);
    SignOf(e, y, d);
    if e < 0.0 {
      Opposite(e, y, d);
      ScaleOne(-e, y, -d);
    } else {
      ScaleOne(e, y, d);
    }
  }

  lemma SignOf(e: real, y: real, d: real)
    requires y > 0.0 && e * y == d
    ensures e < 0.0 <==> d < 0.0
  {
    if e < 0.0 {
      PositiveProduct(-e, y);
      Opposite(e, y, d);
    } else if e > 0.0 {
      PositiveProduct(e, y);
    }
  }

  lemma Opposite(e: real, y: real, d: real)
    requires e * y == d
    ensures (-e) * y == -d
  {
  }

  /** Rounding is off by no less than the number itself just up to one half. */
  lemma RoundedOff(y: real, n: int)
    requires y > 0.0 && n == (y + 0.5).Floor
    ensures y <= (if n as real - y < 0.0 then -(n as real - y) else n as real - y) <==> y <= 0.5
  {
  }

  lemma EpsilonIs(frac: real)
    requires frac > 0.0
    ensures frac * 4294967296.0 > 0.0
    ensures Epsilon(frac) == Abs((frac * 4294967296.0 + 0.5).Floor as real / (frac * 4294967296.0) - 1.0)
    ensures Abs(0.0 / (frac * 1.0) - 1.0) == 1.0
    ensures frac <= HALF_UNIT <==> frac * 4294967296.0 <= 0.5
  {
  }

  lemma ScaleOne(e: real, y: real, d: real)
    requires y > 0.0 && e * y == d
    ensures 1.0 <= e <==> y <= d
  {
    ScaleIff(1.0, e, y);
  }

  lemma AbsCases(x: real)
    ensures Abs(x) == if x < 0.0 then -x else x
  {
  }

  lemma RoundedFraction(y: real, f: real)
    requires f > 0.0 && y == f * 4294967296.0
    ensures Weigh(Abs((y + 0.5).Floor as real / y - 1.0), f) <= 1.0 / 8589934592.0
  {
    var n := (y + 0.5).Floor as real;
    var e := n / y - 1.0;
    QuotientError(n, y);
    assert -0.5 <= n - y <= 0.5;
    hide *;
    AbsTimes(e, y);
    assert Abs(e * y) <= 0.5 by { AbsBound(e * y, 0.5); }
    WeighIs(Abs(e), f);
    assert Abs(e) * y == (Abs(e) * f) * 4294967296.0;
  }

  lemma QuotientError(n: real, y: real)
    requires y > 0.0
    ensures (n / y - 1.0) * y == n - y
  {
    var q := n / y;
    assert q * y == n;
  }

  lemma AbsBound(x: real, b: real)
    requires -b <= x <= b
    ensures Abs(x) <= b
  {
  }

  lemma AbsTimes(e: real, y: real)
    requires y > 0.0
    ensures Abs(e * y) == Abs(e) * y && Abs(e) >= 0.0
  {
    if e >= 0.0 {
      assert e * y >= 0.0;
    } else {
      assert (-e) * y >= 0.0;
    }
  }

  /** A fraction found rational within the relative tolerance is so within slack. */
  lemma WithinSlack(tolerance: real -> real, slack: real, frac: real, i: nat, try: nat)
    requires 0.0 < frac < 1.0 && i > 0 && TightAt(tolerance, slack, frac)
    requires Abs(try as real / (frac * i as real) - 1.0) <= tolerance(frac)
    ensures Abs(try as real / i as real - frac) <= slack
  {
    assert Weigh(tolerance(frac), frac) <= slack;
    hide *;
    TryError(try as real, frac, i as real);
    Scaled(try as real / (frac * i as real) - 1.0, tolerance(frac), frac, try as real / i as real, slack);
  }

  lemma Scaled(e: real, t: real, frac: real, r: real, slack: real)
    requires Abs(e) <= t && frac > 0.0 && e * frac == r - frac && Weigh(t, frac) <= slack
    ensures Abs(r - frac) <= slack
  {
    hide *;
    AbsTimes(e, frac);
    WeighIs(t, frac);
    RealMulLe(Abs(e), t, frac);
  }

  lemma TryError(try: real, frac: real, i: real)
    requires frac > 0.0 && i > 0.0
    ensures frac * i > 0.0 && (try / (frac * i) - 1.0) * frac == try / i - frac
  {
    var d, r := frac * i, try / i;
    assert d > 0.0;
    var q := try / d;
    assert q * d == try && r * i == try;
    assert (q * frac) * i == q * d;
    Cancel(q * frac, r, i);
  }

  /** After x more halvings of the plan, arbM/arbL stands for a. */
  predicate Close(x: nat, arbM: real, arbL: nat, a: real, slack: real)
    requires arbL > 0
  {
    Abs((1 + x) as real * (arbM / arbL as real) - a) <= slack
  }

  lemma CloseIs(x: nat, arbM: real, arbL: nat, a: real, slack: real)
    requires arbL > 0
    ensures Close(x, arbM, arbL, a, slack) <==> Abs((1 + x) as real * (arbM / arbL as real) - a) <= slack
  {
  }

  /** Lines 327-330. */
  method Found(a: real, whole: nat, frac: real, i: nat, try: nat, ghost tolerance: real -> real, ghost slack: real)
    returns (x: nat, arbM: real, arbL: nat)
    requires 0.0 <= slack && 0.0 < a < 4.0 && a == whole as real + frac && 0.0 < frac < 1.0 && i > 0
    requires TightAt(tolerance, slack, frac) && Abs(try as real / (frac * i as real) - 1.0) <= tolerance(frac)
    ensures arbL > 0 && arbM >= 0.0 && x <= 1 && (x == 1 ==> a > 3.0)
    ensures (slack < a ==> arbM > 0.0) && (whole == 0 && try == 0 ==> arbM == 0.0)
    ensures arbM == arbM.Floor as real
    ensures arbL > 0 && Close(x, arbM, arbL, a, slack)
    ensures try != i ==> x == 0 && arbM == (i * whole + try) as real && arbL == i
  {
    hide *;
    WithinSlack(tolerance, slack, frac, i, try);
    if try == i {
      arbM, arbL := (whole + 1) as real, 1;
      x := if arbM > 3.0 then 1 else 0;
      arbM := arbM / (1 + x) as real;
      WholeClose(whole, frac, a, i, x, arbM, slack);
    } else {
      arbM, arbL, x := (i * whole + try) as real, i, 0;
      MixedClose(whole, frac, a, i, try, slack);
    }
  }

  lemma WholeClose(whole: nat, frac: real, a: real, i: nat, x: nat, m: real, slack: real)
    requires i > 0 && Abs(i as real / i as real - frac) <= slack && a == whole as real + frac < 4.0 && 0.0 < frac < 1.0
    requires x == (if (whole + 1) as real > 3.0 then 1 else 0) && m == (whole + 1) as real / (1 + x) as real
    ensures m > 0.0 && m == m.Floor as real && (x == 1 ==> a > 3.0) && Close(x, m, 1, a, slack)
  {
    hide *;
    SelfQuotient(i);
    HalvedWhole(whole + 1, x, m);
    CloseIs(x, m, 1, a, slack);
  }

  lemma MixedClose(whole: nat, frac: real, a: real, i: nat, try: nat, slack: real)
    requires i > 0 && Abs(try as real / i as real - frac) <= slack && a == whole as real + frac
    ensures var m := (i * whole + try) as real;
            && m >= 0.0 && m == m.Floor as real && Close(0, m, i, a, slack)
            && (slack < a ==> m > 0.0) && (whole == 0 && try == 0 ==> m == 0.0)
  {
    hide *;
    var m := (i * whole + try) as real;
    MixedNumber(whole, try, i);
    NotBothZero(whole, try, i, a, slack);
    MixedSign(whole, try, i);
    WholeFloor(i * whole + try);
    var v := m / i as real;
    assert (1 + 0) as real * v == v;
    CloseIs(0, m, i, a, slack);
  }

  lemma SelfQuotient(i: nat)
    requires i > 0
    ensures i as real / i as real == 1.0
  {
  }

  lemma ZeroQuotient(i: nat)
    requires i > 0
    ensures 0 as real / i as real == 0.0
  {
  }

  lemma WholeFloor(n: nat)
    ensures (n as real).Floor == n
  {
  }

  /** Below 4 there is at most one more halving, of the number 4 itself. */
  lemma HalvedWhole(n: nat, x: nat, m: real)
    requires 1 <= n <= 4 && x == (if n as real > 3.0 then 1 else 0) && m == n as real / (1 + x) as real
    ensures m > 0.0 && m == m.Floor as real && (1 + x) as real * (m / 1 as real) == n as real
  {
    if n == 4 {
      assert (1 + x) as real == 2.0;
    } else {
      assert (1 + x) as real == 1.0;
    }
    assert m / 1 as real == m;
    WholeFloor(if n == 4 then 2 else n);
  }

  lemma NotBothZero(whole: nat, try: nat, i: nat, a: real, slack: real)
    requires i > 0 && Abs(whole as real + try as real / i as real - a) <= slack
    ensures slack < a ==> whole > 0 || try > 0
  {
    ZeroQuotient(i);
  }

  lemma MixedNumber(whole: nat, try: nat, i: nat)
    requires i > 0
    ensures (i * whole + try) as real / i as real == whole as real + try as real / i as real
  {
    var r, t := try as real / i as real, i as real;
    assert r * t == try as real;
    assert (i * whole) as real == t * whole as real;
    var v := (i * whole + try) as real / t;
    assert v * t == (whole as real + r) * t;
    Cancel(v, whole as real + r, t);
  }

  lemma MixedSign(whole: nat, try: nat, i: nat)
    requires i > 0
    ensures i * whole + try > 0 <==> whole > 0 || try > 0
  {
    MulLe(i, 0, whole);
    if whole > 0 {
      MulLe(i, 1, whole);
    }
  }

  // ---- fractions that are found ----

  /** The number a is a fraction with a denominator among those tried, and no other such fraction is
      within the slack. */
  ghost predicate Findable(a: real, num: nat, den: nat, maxL: nat, slack: real) {
    && InLowestTerms(num, den) && den <= maxL && a * den as real == num as real
    && Weigh(slack, (den * den) as real) < 1.0
  }

  lemma WholeFraction(a: real, whole: nat, num: nat, den: nat, maxL: nat, slack: real)
    requires Findable(a, num, den, maxL, slack) && a == whole as real
    ensures den == 1 && num == whole
  {
    assert (whole * den) as real == a * den as real;
    assert SameFraction(whole, 1, num, den);
  }

  /** Another fraction with a smaller denominator is further off. */
  lemma FractionsApart(n: nat, i: nat, num: nat, den: nat, a: real, maxL: nat, slack: real)
    requires Findable(a, num, den, maxL, slack) && 0 < i < den && slack >= 0.0
    ensures Abs(n as real / i as real - a) > slack
  {
    var e := n as real / i as real - a;
    var w := n * den - num * i;
    FractionDifference(n, i, num, den, a);
    SmallError(e, i, den, slack, w);
    NoSmaller(n, i, num, den);
  }

  lemma FractionDifference(n: nat, i: nat, num: nat, den: nat, a: real)
    requires i > 0 && den > 0 && a * den as real == num as real
    ensures Weigh(n as real / i as real - a, (i * den) as real) == (n * den - num * i) as real
  {
    var q, r, s := n as real / i as real, i as real, den as real;
    assert q * r == n as real;
    assert (i * den) as real == r * s && (n * den) as real == n as real * s && (num * i) as real == num as real * r;
    WeighIs(q - a, r * s);
    hide *;
    DifferenceTimes(q, a, r, s);
  }

  lemma DifferenceTimes(q: real, a: real, r: real, s: real)
    ensures (q - a) * (r * s) == (q * r) * s - (a * s) * r
  {
  }

  lemma SmallError(e: real, i: nat, den: nat, slack: real, w: int)
    requires slack >= 0.0 && 0 < i < den && Weigh(slack, (den * den) as real) < 1.0
    requires Weigh(e, (i * den) as real) == w as real
    ensures Abs(e) <= slack ==> w == 0
  {
    hide *;
    var p, q := i * den, den * den;
    OrderedProducts(i, den);
    SmallProduct(e, p as real, q as real, slack, w);
  }

  lemma OrderedProducts(i: nat, den: nat)
    requires 0 < i < den
    ensures 0 < i * den <= den * den
  {
    ProductPositive(i, den);
    MulLe(den, i, den);
  }

  lemma SmallProduct(e: real, p: real, q: real, slack: real, w: int)
    requires slack >= 0.0 && 0.0 < p <= q && Weigh(slack, q) < 1.0 && Weigh(e, p) == w as real
    ensures Abs(e) <= slack ==> w == 0
  {
    hide *;
    AbsIs(e, slack);
    if Abs(e) <= slack {
      WeighLe(e, slack, p);
      WeighLe(-slack, e, p);
      WeighMinus(slack, p);
      WeighRightLe(slack, p, q);
    }
  }

  lemma WeighLe(a: real, b: real, c: real)
    requires a <= b && c >= 0.0
    ensures Weigh(a, c) <= Weigh(b, c)
  {
    RealMulLe(a, b, c);
  }

  lemma WeighRightLe(a: real, b: real, c: real)
    requires b <= c && a >= 0.0
    ensures Weigh(a, b) <= Weigh(a, c)
  {
    RealMulLe(b, c, a);
  }

  lemma WeighMinus(a: real, b: real)
    ensures Weigh(-a, b) == -Weigh(a, b)
  {
  }

  /** The tries before the denominator fail, and that one succeeds. */
  lemma TryOutcome(a: real, whole: nat, frac: real, i: nat, try: nat, tolerance: real -> real, slack: real,
                   num: nat, den: nat, maxL: nat)
    requires Findable(a, num, den, maxL, slack) && slack >= 0.0 && a == whole as real + frac && 0.0 < frac < 1.0
    requires TightAt(tolerance, slack, frac) && 0 < i <= den && try == (frac * i as real + 0.5).Floor
    ensures frac * i as real != 0.0
    ensures Abs(try as real / (frac * i as real) - 1.0) <= tolerance(frac) <==> i == den
    ensures i == den ==> try < i && i * whole + try == num
  {
    hide *;
    FindableIs(a, num, den, maxL, slack);
    PositiveProduct(frac, i as real);
    if i < den {
      EarlyTry(a, whole, frac, i, try, tolerance, slack, num, den, maxL);
    } else {
      TightIs(tolerance, slack, frac);
      WeighIs(frac, i as real);
      LastTry(a, whole, frac, i, num, try, frac * i as real);
      AbsCases(0.0);
    }
  }

  lemma EarlyTry(a: real, whole: nat, frac: real, i: nat, try: nat, tolerance: real -> real, slack: real,
                 num: nat, den: nat, maxL: nat)
    requires Findable(a, num, den, maxL, slack) && slack >= 0.0 && a == whole as real + frac && 0.0 < frac < 1.0
    requires TightAt(tolerance, slack, frac) && 0 < i < den && frac * i as real > 0.0
    ensures Abs(try as real / (frac * i as real) - 1.0) > tolerance(frac)
  {
    hide *;
    MixedNumber(whole, try, i);
    FractionsApart(i * whole + try, i, num, den, a, maxL, slack);
    SameError(whole as real, try as real / i as real, a, frac, (i * whole + try) as real / i as real, slack);
    if Abs(try as real / (frac * i as real) - 1.0) <= tolerance(frac) {
      WithinSlack(tolerance, slack, frac, i, try);
    }
  }

  lemma SameError(whole: real, part: real, a: real, frac: real, n: real, slack: real)
    requires n == whole + part && a == whole + frac && Abs(n - a) > slack
    ensures Abs(part - frac) > slack
  {
  }

  lemma FindableIs(a: real, num: nat, den: nat, maxL: nat, slack: real)
    requires Findable(a, num, den, maxL, slack)
    ensures 0 < den <= maxL && 0 < num && a * den as real == num as real && InLowestTerms(num, den)
  {
  }

  lemma TightFor(tolerance: real -> real, slack: real, frac: real)
    requires Tight(tolerance, slack)
    ensures 0.0 < frac < 1.0 ==> TightAt(tolerance, slack, frac)
  {
  }

  lemma TightIs(tolerance: real -> real, slack: real, frac: real)
    requires TightAt(tolerance, slack, frac)
    ensures tolerance(frac) >= 0.0
  {
  }

  lemma LastTry(a: real, whole: nat, frac: real, den: nat, num: nat, try: nat, d: real)
    requires den > 0 && a * den as real == num as real && a == whole as real + frac && 0.0 < frac < 1.0
    requires d == Weigh(frac, den as real) && try == (d + 0.5).Floor
    ensures d == try as real > 0.0 && try < den && den * whole + try == num
    ensures try as real / d == 1.0
  {
    var r := num - den * whole;
    PartIs(a, whole, frac, den, num);
    PartBetween(frac, den as real);
    hide *;
    RoundedWhole(r, try);
    OverItself(d, try as real);
  }

  lemma PartIs(a: real, whole: nat, frac: real, den: nat, num: nat)
    requires den > 0 && a * den as real == num as real && a == whole as real + frac
    ensures Weigh(frac, den as real) == (num - den * whole) as real
  {
    assert (den * whole) as real == den as real * whole as real;
  }

  lemma PartBetween(frac: real, d: real)
    requires 0.0 < frac < 1.0 && d > 0.0
    ensures 0.0 < Weigh(frac, d) < d
  {
    hide *;
    WeighLess(0.0, frac, d);
    WeighLess(frac, 1.0, d);
    WeighEnds(d);
  }

  lemma WeighLess(a: real, b: real, c: real)
    requires a < b && c > 0.0
    ensures Weigh(a, c) < Weigh(b, c)
  {
    PositiveProduct(b - a, c);
    assert (b - a) * c == b * c - a * c;
  }

  lemma WeighEnds(d: real)
    ensures Weigh(0.0, d) == 0.0 && Weigh(1.0, d) == d
  {
  }

  lemma OverItself(x: real, y: real)
    requires x == y && x > 0.0
    ensures y / x == 1.0
  {
  }

  lemma RoundedWhole(r: int, try: int)
    requires try == (r as real + 0.5).Floor
    ensures try == r
  {
  }

  /** The first try at a small fraction is the numerator 0. */
  lemma FirstTry(frac: real, d: real, try: int, i: nat)
    requires d > 0.0 && try == (d + 0.5).Floor && d == frac * i as real
    ensures i == 1 ==> d == frac
    ensures d < 0.5 ==> try == 0 && Abs(try as real / d - 1.0) == 1.0
  {
  }

  lemma ItselfClose(a: real, slack: real)
    requires slack >= 0.0
    ensures Close(0, a, 1, a, slack)
  {
    CloseIs(0, a, 1, a, slack);
    hide *;
    var u, v := a / 1 as real, (1 + 0) as real;
    assert u == a && v == 1.0 && v * u == a;
    AbsBound(v * u - a, slack);
  }

  /** Lines 322-331: arbM is replaced by a fraction close to it, if one with a small denominator
      is found, and perhaps one more halving. */
  method Approximate(a: real, maxL: nat, tolerance: real -> real, ghost slack: real, ghost num: nat, ghost den: nat)
    returns (rational: bool, x: nat, arbM: real, arbL: nat)
    requires 0.0 <= slack && 0.0 < a < 4.0 && Tight(tolerance, slack)
    ensures arbL > 0 && arbM >= 0.0 && x <= 1 && (x == 1 ==> a > 3.0)
    ensures slack < a ==> arbM > 0.0
    ensures a < 0.5 && tolerance(a) >= 1.0 && maxL >= 1 ==> arbM == 0.0
    ensures !rational ==> x == 0 && arbM == a && arbL == 1
    ensures rational ==> arbM == arbM.Floor as real
    ensures a == a.Floor as real ==> rational
    ensures arbL > 0 && Close(x, arbM, arbL, a, slack)
    ensures Findable(a, num, den, maxL, slack) ==> rational && x == 0 && arbM == num as real && arbL == den
  {
    hide *;
    var whole := a.Floor;
    var frac := a - whole as real;
    rational, x, arbM, arbL := frac == 0.0, 0, a, 1;
    var i := 1;
    ItselfClose(a, slack);
    TightFor(tolerance, slack, frac);
    assert a < 0.5 ==> whole == 0 && frac == a && tolerance(frac) == tolerance(a);
    ghost var sought := Findable(a, num, den, maxL, slack);
    if sought {
      FindableIs(a, num, den, maxL, slack);
      if frac == 0.0 {
        WholeFraction(a, whole, num, den, maxL, slack);
      }
    }
    while i <= maxL && !rational
      invariant i > 0 && (frac == 0.0 ==> rational) && (!rational ==> frac > 0.0 && x == 0 && arbM == a && arbL == 1)
      invariant arbL > 0 && arbM >= 0.0 && x <= 1 && (x == 1 ==> a > 3.0) && (slack < a ==> arbM > 0.0)
      invariant a < 0.5 && tolerance(a) >= 1.0 ==> if i == 1 then !rational else arbM == 0.0 && rational
      invariant rational ==> arbM == arbM.Floor as real
      invariant Close(x, arbM, arbL, a, slack)
      invariant sought ==> if rational then x == 0 && arbM == num as real && arbL == den else i <= den
      decreases !rational, maxL - i
    {
      var d := frac * i as real;
      var try := (d + 0.5).Floor;
      PositiveProduct(frac, i as real);
      FirstTry(frac, d, try, i);
      if sought {
        TryOutcome(a, whole, frac, i, try, tolerance, slack, num, den, maxL);
      }
      rational := Abs(try as real / d - 1.0) <= tolerance(frac);
      assert i == 1 && a < 0.5 && tolerance(a) >= 1.0 ==> rational && try == 0;
      if rational {
        x, arbM, arbL := Found(a, whole, frac, i, try, tolerance, slack);
      }
      i := i + 1;
    }
  }

  // ---- the post stage of a large interpolation ----

  /** The greatest power of two that is at least 4, and otherwise at most a quarter of d and at most
      256. */
  ghost predicate PostFits(d: real, postL: nat) {
    && (exists k: nat :: postL == Pow2(k)) && 4 <= postL <= 256
    && (postL == 4 || 4.0 * postL as real <= d) && (postL == 256 || d < 8.0 * postL as real)
  }

  /** Line 334. */
  method FirstPost(d: real) returns (postL: nat)
    requires d > 4.0
    ensures 4 <= postL <= 256 && PostFits(d, postL)
  {
    postL := 4;
    ghost var k: nat, y := 2, d / 32.0;
    assert Pow2(2) == 4;
    var i: int := (d / 16.0).Floor;
    QuarterFloor(d / 16.0);
    FirstQuotient(d);
    hide *;
    i := i / 2;
    while i != 0 && postL < 256
      invariant 0 <= i == y.Floor && 4 <= postL <= 256 && postL == Pow2(k) && k <= 8
      invariant Weigh((8 * postL) as real, y) == d
      invariant postL == 4 || 4.0 * postL as real <= d
      decreases i
    {
      NextPost(k);
      AtLeastOnce(8 * postL, y);
      HalveStep(8 * postL, y);
      QuarterFloor(y);
      postL, k, y := 2 * postL, k + 1, 0.5 * y;
      i := i / 2;
    }
    LessThanOnce(8 * postL, y);
    PostFitsWhen(d, postL, k);
  }

  lemma FirstQuotient(d: real)
    requires d > 4.0
    ensures Weigh((8 * 4) as real, d / 32.0) == d && d / 16.0 >= 0.0 && 0.5 * (d / 16.0) == d / 32.0
  {
  }

  lemma AtLeastOnce(n: nat, y: real)
    requires y.Floor != 0 && y >= 0.0
    ensures n as real <= Weigh(n as real, y)
  {
    RealMulLe(1.0, y, n as real);
  }

  lemma LessThanOnce(n: nat, y: real)
    requires n > 0
    ensures y.Floor == 0 ==> Weigh(n as real, y) < n as real
  {
    if y.Floor == 0 {
      PositiveProduct(1.0 - y, n as real);
    }
  }

  lemma PostFitsWhen(d: real, postL: nat, k: nat)
    requires postL == Pow2(k) && 4 <= postL <= 256
    requires (postL == 4 || 4.0 * postL as real <= d) && (postL == 256 || d < (8 * postL) as real)
    ensures PostFits(d, postL)
  {
    hide Pow2;
  }

  lemma NextPost(k: nat)
    requires k <= 8 && Pow2(k) < 256
    ensures k < 8 && 2 * Pow2(k) == Pow2(k + 1) <= 256
  {
    assert Pow2(8) == 256 by {
      assert Pow2(4) == 16;
      Pow2Add(4, 4);
    }
    Pow2Monotone(k + 1, 8);
  }

  // ---- the loop ----

  /** The terms L and M of line 332, brought down by a common factor of two. */
  function Lowest(l: nat, m: nat): (nat, nat) {
    if l % 2 == 1 || m % 2 == 1 then (l, m) else (l / 2, m / 2)
  }

  /** Few enough to do in one block filter: line 336. */
  predicate SmallRatio(l: nat, m: nat, smallInt: bool) {
    || Max(l, m) < 3 + (if smallInt then 2 else 0)
    || l * m < (if smallInt then 6 else 0)
  }

  /** Interpolation by more than 4, and not by 5: line 333. */
  predicate Wide(d: real, smallInt: bool) {
    smallInt && d > 4.0 && d != 5.0
  }

  /** How close the ratio of a pass stays to the one it was given. */
  function Drift(head: real, slack: real): real {
    2.0 * slack * (if head < 1.0 then 1.0 else head)
  }

  /** What is left for the arbitrary-ratio stage when upsampling. */
  function FirstPart(arbM0: real, mode: nat): real {
    if arbM0 < 1.0 && mode != 0 then 2.0 * arbM0 else arbM0
  }

  /** The ratio left to a pass is 2^s * m/l in lowest terms, m/l the part below 4; the denominator that
      remains once the pre and post stages have had their share is tried, and no other fraction is
      within the slack. */
  ghost predicate Exact(arbM0: real, s: nat, m: nat, l: nat, maxL: nat, slack: real) {
    && InLowestTerms(m, l) && arbM0 == Weigh(Pow2(s) as real, m as real / l as real)
    && (if s == 0 then m < 4 * l else 2 * l <= m < 4 * l)
    && (if 3 * l < 2 * m < 4 * l then 2 * l else l) <= maxL
    && Weigh(slack, (4 * l * l) as real) < 1.0
  }

  /** The stages of such a ratio before lines 333-337. */
  ghost predicate Shaped(p: Plan, mode: nat, s: nat, m: nat, l: nat) {
    && l > 0 && p.shr == s && Shares(p, mode, m as real / l as real)
    && p.arbM > 0.0 && p.arbM == p.arbM.Floor as real && InLowestTerms(p.arbM.Floor, p.arbL)
    && Lowest(p.preL * p.arbL, WholeM(p)) == (l, m)
  }

  /** Every ratio M/L that is rational is one way or another 2^s * m/l like this. */
  lemma Decomposed(M: nat, L: nat) returns (s: nat, m: nat, l: nat)
    requires M > 0 && L > 0
    ensures InLowestTerms(m, l) && M as real / L as real == Weigh(Pow2(s) as real, m as real / l as real)
    ensures if s == 0 then m < 4 * l && m <= M && l <= L else 2 * l <= m < 4 * l
  {
    var a, b := Reduce(M, L);
    s, m, l := Halvings(a, b);
    PositiveTerms(m, l);
    PositiveTerms(a, b);
    FractionStays(Pow2(s) * m, l, a, b, M, L);
    QuotientOf(M, L, Pow2(s), m, l);
  }

  lemma QuotientOf(M: nat, L: nat, p: nat, m: nat, l: nat)
    requires L > 0 && l > 0 && SameFraction(p * m, l, M, L)
    ensures M as real / L as real == Weigh(p as real, m as real / l as real)
  {
    var q, r := M as real / L as real, m as real / l as real;
    assert q * L as real == M as real && r * l as real == m as real;
    assert (p * m * L) as real == (M * l) as real;
    FourCross(q, r, p as real, m as real, l as real, M as real, L as real);
  }

  lemma FourCross(q: real, r: real, p: real, m: real, l: real, M: real, L: real)
    requires L > 0.0 && l > 0.0 && q * L == M && r * l == m && p * m * L == M * l
    ensures q == Weigh(p, r)
  {
    assert (q * l) * L == (q * L) * l;
    assert ((p * r) * l) * L == p * (r * l) * L;
    SameFactors(q * L, M, l, p, r * l, m, L);
    Cancel(q * l, (p * r) * l, L);
    Cancel(q, p * r, l);
  }

  lemma SameFactors(a: real, b: real, l: real, p: real, c: real, d: real, L: real)
    requires a == b && c == d
    ensures a * l == b * l && p * c * L == p * d * L
  {
  }

  /** Ratios of terms up to 4 are done in one block filter behind the half-band stages: with small
      integers optimised and at least 4 denominators tried, Determine finds them so, without an
      arbitrary-ratio stage and without a post stage. */
  lemma FewTerms(M: nat, L: nat, maxL: nat, slack: real) returns (s: nat, m: nat, l: nat)
    requires 1 <= M <= 4 && 1 <= L <= 4 && maxL >= 4 && 0.0 <= slack < 0.015625
    ensures Exact(M as real / L as real, s, m, l, maxL, slack)
    ensures 0 < Max(l, m) < 5 && 1.0 / (M as real / L as real) <= 4.0
  {
    var a, b := Reduce(M, L);
    PositiveTerms(a, b);
    if a < 4 * b {
      s, m, l := 0, a, b;
    } else {
      s, m, l := 1, 2, 1;
      assert InLowestTerms(2, 1);
    }
    assert Pow2(0) == 1 && Pow2(1) == 2;
    FractionStays(Pow2(s) * m, l, a, b, M, L);
    QuotientOf(M, L, Pow2(s), m, l);
    hide *;
    FewSquares(l, slack);
    ExactWhen(M as real / L as real, s, m, l, maxL, slack);
    QuarterLeast(M, L);
  }

  lemma FewSquares(l: nat, slack: real)
    requires l <= 4 && 0.0 <= slack < 0.015625
    ensures Weigh(slack, (4 * l * l) as real) < 1.0
  {
    MulLe(l, l, 4);
    MulLe(4, l, 4);
    WeighRightLe(slack, (4 * l * l) as real, 64.0);
  }

  lemma QuarterLeast(M: nat, L: nat)
    requires 1 <= M && 1 <= L <= 4
    ensures M as real / L as real > 0.0 && 1.0 / (M as real / L as real) <= 4.0
  {
    var q := M as real / L as real;
    assert q * L as real == M as real;
    QuotientBetween(M, L, 0.25);
    QuotientBetween(M, L, 0.0);
    QuotientAtMost(1.0, q, 4.0);
  }

  lemma ExactWhen(arbM0: real, s: nat, m: nat, l: nat, maxL: nat, slack: real)
    requires InLowestTerms(m, l) && l > 0 && arbM0 == Weigh(Pow2(s) as real, m as real / l as real)
    requires if s == 0 then m < 4 * l else 2 * l <= m < 4 * l
    requires l <= 4 && m <= 4 && maxL >= 4 && Weigh(slack, (4 * l * l) as real) < 1.0
    ensures Exact(arbM0, s, m, l, maxL, slack)
  {
    hide InLowestTerms, Weigh, Pow2;
  }

  /** One pass of lines 314-333, but for what follows from it. */
  method Pass(arbM0: real, mode: nat, postL: nat, maxL: nat, tolerance: real -> real, ghost slack: real,
              ghost s: nat, ghost m: nat, ghost l: nat)
    returns (vanished: bool, p: Plan, rational: bool, d: real)
    requires postL > 0 && 0.0 <= slack < 0.5 && 0.0 < arbM0 && Tight(tolerance, slack)
    ensures vanished ==> FirstPart(arbM0, mode) <= slack
    ensures FirstPart(arbM0, mode) < 0.5 && tolerance(FirstPart(arbM0, mode)) >= 1.0 && maxL >= 1 ==> vanished
    ensures !vanished ==>
              && p.Proper() && p.postL == postL && p.preM <= 1
              && d == (p.preL * p.arbL) as real / p.arbM
              && (rational ==> p.arbM == p.arbM.Floor as real)
              && (!rational ==> arbM0 != 1.0 && p.Ratio() == arbM0 / postL as real)
              && (!rational && arbM0 < 1.0 && mode == 0 ==> p.arbM == arbM0)
              && (d > 4.0 ==> arbM0 < 1.0 && p.shr == 0 && p.postM == 1)
              && (slack == 0.0 && arbM0 < 1.0 ==> d == 1.0 / arbM0)
              && Abs(p.Ratio() - arbM0 / postL as real) <= Drift(arbM0 / postL as real, slack)
    ensures Exact(arbM0, s, m, l, maxL, slack) ==>
              && !vanished && rational && Shaped(p, mode, s, m, l)
              && (arbM0 < 1.0 ==> d == 1.0 / arbM0)
  {
    hide *;
    var upsample: bool;
    ghost var left: real;
    p, upsample, left := Split(arbM0, mode, postL);
    ghost var num, den := 1, 1;
    ghost var exact := Exact(arbM0, s, m, l, maxL, slack);
    if exact {
      num, den := Remaining(arbM0, p, left, mode, s, m, l, maxL, slack);
    }
    var x: nat, arbM: real, arbL: nat;
    ghost var first := p;
    TwoIsWhole();
    ProperIs(p);
    NotBelow(first, arbM0, upsample, mode);
    FirstPartOf(arbM0, mode, p.arbM, upsample);
    rational, x, arbM, arbL := Approximate(p.arbM, maxL, tolerance, slack, num, den);
    p := p.(shr := p.shr + x, arbM := arbM, arbL := arbL);
    vanished, d := arbM == 0.0, 0.0;
    if exact {
      FindableIs(first.arbM, num, den, maxL, slack);
    }
    if vanished {
      return;
    }
    CloseIs(x, arbM, arbL, first.arbM, slack);
    StillProper(first, p);
    d := (p.preL * p.arbL) as real / p.arbM;
    RatioError(first, p, x, slack);
    FactorBound(first, arbM0, upsample);
    DriftBound(first.Factor(), arbM0 / postL as real, slack, upsample, arbM0, postL);
    if exact {
      QuotientWorth(first.arbM, num, den, maxL, slack);
    }
    WideUpsamples(first, p, x, slack, exact, upsample, arbM0);
    if exact {
      ShapedBy(first, p, num, den, mode, left, s, m, l);
    }
  }

  lemma QuotientWorth(a: real, num: nat, den: nat, maxL: nat, slack: real)
    requires Findable(a, num, den, maxL, slack)
    ensures den > 0 && num as real / den as real == a
  {
    Cancel(num as real / den as real, a, den as real);
  }

  lemma FirstPartOf(arbM0: real, mode: nat, part: real, upsample: bool)
    requires upsample == (arbM0 < 1.0)
    requires if upsample then part == (if mode == 0 then arbM0 else 2.0 * arbM0) else part >= 0.75
    ensures part == FirstPart(arbM0, mode) || (part >= 0.75 && FirstPart(arbM0, mode) >= 1.0)
  {
  }

  lemma StillProper(first: Plan, p: Plan)
    requires first.Proper() && p.arbM > 0.0 && p.arbL > 0 && p == first.(shr := p.shr, arbM := p.arbM, arbL := p.arbL)
    ensures p.Proper() && p.preL > 0
  {
  }

  /** What the pre and post stages leave of m/l is num/den in lowest terms, and they make l and m of it
      again. */
  lemma Remaining(arbM0: real, p: Plan, left: real, mode: nat, s: nat, m: nat, l: nat, maxL: nat, slack: real)
    returns (num: nat, den: nat)
    requires Exact(arbM0, s, m, l, maxL, slack) && slack >= 0.0 && p.Proper() && Shares(p, mode, left)
    requires 0.0 < left < 4.0 && arbM0 == Weigh(Pow2(p.shr) as real, left) && (p.shr > 0 ==> left >= 2.0)
    requires p.arbM == left / p.postM as real * p.preL as real
    ensures l > 0 && left == m as real / l as real && p.shr == s
    ensures Findable(p.arbM, num, den, maxL, slack)
    ensures Lowest(p.preL * den, num * p.postM) == (l, m)
  {
    hide *;
    ExactIs(arbM0, s, m, l, maxL, slack);
    SameHalvings(p.shr, left, s, m as real / l as real);
    SharesIs(p, mode, m, l);
    num, den := Reduced(m, l, p.preL, p.postM);
    PartWorth(p.arbM, left, m, l, p.preL, p.postM, num, den);
    FindableWhen(p.arbM, num, den, maxL, slack, l);
  }

  lemma ExactIs(arbM0: real, s: nat, m: nat, l: nat, maxL: nat, slack: real)
    requires Exact(arbM0, s, m, l, maxL, slack)
    ensures InLowestTerms(m, l) && m > 0 && l > 0 && arbM0 == Weigh(Pow2(s) as real, m as real / l as real)
    ensures 0.0 < m as real / l as real < 4.0 && (s > 0 ==> m as real / l as real >= 2.0)
    ensures (if 3 * l < 2 * m < 4 * l then 2 * l else l) <= maxL
    ensures Weigh(slack, (4 * l * l) as real) < 1.0
  {
    hide Pow2, Weigh, InLowestTerms;
    PositiveTerms(m, l);
    hide *;
    QuotientBetween(m, l, 4.0);
    QuotientBetween(m, l, 2.0);
    QuotientBetween(m, l, 0.0);
  }

  lemma QuotientBetween(m: nat, l: nat, c: real)
    requires l > 0
    ensures m as real / l as real < c <==> m as real < c * l as real
    ensures m as real / l as real <= c <==> m as real <= c * l as real
  {
    var q := m as real / l as real;
    assert q * l as real == m as real;
    hide *;
    ScaleIff(q, c, l as real);
    ScaleIff(c, q, l as real);
  }

  /** A number is a power of two times one below 4, from 2 on if there is a power, in one way only. */
  lemma SameHalvings(a: nat, x: real, b: nat, y: real)
    requires Weigh(Pow2(a) as real, x) == Weigh(Pow2(b) as real, y)
    requires 0.0 < x < 4.0 && (a > 0 ==> x >= 2.0) && 0.0 < y < 4.0 && (b > 0 ==> y >= 2.0)
    ensures a == b && x == y
  {
    hide *;
    if a < b {
      FewerHalvings(a, x, b, y);
    } else if b < a {
      FewerHalvings(b, y, a, x);
    } else {
      SameFactor(Pow2(a), x, y);
    }
  }

  lemma FewerHalvings(a: nat, x: real, b: nat, y: real)
    requires a < b && 0.0 < x < 4.0 && y >= 2.0
    ensures Weigh(Pow2(a) as real, x) < Weigh(Pow2(b) as real, y)
  {
    Pow2Two(a + 1);
    Pow2Monotone(a + 1, b);
    hide Pow2;
    var p, q := Pow2(a) as real, Pow2(b) as real;
    hide *;
    WeighFlip(p, x);
    WeighFlip(q, y);
    WeighLess(x, 4.0, p);
    WeighLe(2.0, y, q);
    FourTimes(p, q);
  }

  lemma WeighFlip(a: real, b: real)
    ensures Weigh(a, b) == Weigh(b, a)
  {
  }

  lemma FourTimes(p: real, q: real)
    requires 2.0 * p <= q
    ensures Weigh(4.0, p) <= Weigh(2.0, q)
  {
  }

  lemma SameFactor(p: nat, x: real, y: real)
    requires p > 0 && Weigh(p as real, x) == Weigh(p as real, y)
    ensures x == y
  {
    hide *;
    WeighFlip(p as real, x);
    WeighFlip(p as real, y);
    if x < y {
      WeighLess(x, y, p as real);
    } else if y < x {
      WeighLess(y, x, p as real);
    }
  }

  /** The shares in whole numbers. */
  lemma SharesIs(p: Plan, mode: nat, m: nat, l: nat)
    requires l > 0 && Shares(p, mode, m as real / l as real)
    ensures (p.preL == 1 || p.preL == 2) && (p.postM == 1 || p.postM == 2) && (p.preL == 1 || p.postM == 1)
    ensures p.postM == 2 <==> 3 * l < 2 * m < 4 * l
  {
    QuotientBetween(m, l, 1.0);
    QuotientBetween(m, l, 1.5);
    QuotientBetween(m, l, 2.0);
  }

  /** m/l times preL over postM, in lowest terms. */
  lemma Reduced(m: nat, l: nat, preL: nat, postM: nat) returns (num: nat, den: nat)
    requires InLowestTerms(m, l) && (preL == 1 || preL == 2) && (postM == 1 || postM == 2) && (preL == 1 || postM == 1)
    ensures InLowestTerms(num, den) && num > 0 && 0 < den <= postM * l
    ensures num * (l * postM) == (m * preL) * den
    ensures Lowest(preL * den, num * postM) == (l, m)
  {
    hide *;
    NotBothEven(m, l);
    PositiveTerms(m, l);
    if preL == 2 {
      num, den := if l % 2 == 0 then m else 2 * m, if l % 2 == 0 then l / 2 else l;
      DoubledLowest(m, l, num, den);
      DoubledTerms(m, l, num, den);
    } else if postM == 2 {
      num, den := if m % 2 == 0 then m / 2 else m, if m % 2 == 0 then l else 2 * l;
      HalvedLowest(m, l, num, den);
      HalvedTerms(m, l, num, den);
    } else {
      num, den := m, l;
      LowestOdd(l, m);
    }
    PositiveTerms(num, den);
  }

  lemma LowestOdd(l: nat, m: nat)
    requires m % 2 == 1 || l % 2 == 1
    ensures Lowest(l, m) == (l, m) && Lowest(2 * l, 2 * m) == (l, m)
  {
  }

  lemma DoubledTerms(m: nat, l: nat, num: nat, den: nat)
    requires m % 2 == 1 || l % 2 == 1
    requires if l % 2 == 0 then num == m && 2 * den == l else num == 2 * m && den == l
    ensures den <= l && num * l == (m * 2) * den && Lowest(2 * den, num) == (l, m)
  {
    LowestOdd(l, m);
    if l % 2 == 0 {
      assert num * l == num * (2 * den) == (num * 2) * den;
    }
  }

  lemma HalvedTerms(m: nat, l: nat, num: nat, den: nat)
    requires m % 2 == 1 || l % 2 == 1
    requires if m % 2 == 0 then 2 * num == m && den == l else num == m && den == 2 * l
    ensures den <= 2 * l && num * (l * 2) == m * den && Lowest(den, num * 2) == (l, m)
  {
    LowestOdd(l, m);
    if m % 2 == 0 {
      assert num * (l * 2) == (2 * num) * l;
    }
  }

  lemma PartWorth(a: real, left: real, m: nat, l: nat, preL: nat, postM: nat, num: nat, den: nat)
    requires l > 0 && (preL == 1 || preL == 2) && (postM == 1 || postM == 2) && left == m as real / l as real
    requires a == left / postM as real * preL as real && num * (l * postM) == (m * preL) * den
    ensures a * den as real == num as real
  {
    assert left * l as real == m as real;
    assert num as real * l as real * postM as real == m as real * preL as real * den as real;
    Cancel(a * den as real, num as real, l as real);
  }

  lemma FindableWhen(a: real, num: nat, den: nat, maxL: nat, slack: real, l: nat)
    requires InLowestTerms(num, den) && 0 < den <= 2 * l && den <= maxL && a * den as real == num as real
    requires slack >= 0.0 && Weigh(slack, (4 * l * l) as real) < 1.0
    ensures Findable(a, num, den, maxL, slack)
  {
    MulLe(den, den, 2 * l);
    MulLe(2 * l, den, 2 * l);
    assert den * den <= 4 * l * l;
    WeighRightLe(slack, (den * den) as real, (4 * l * l) as real);
    hide Weigh;
  }

  lemma ShapedBy(first: Plan, p: Plan, num: nat, den: nat, mode: nat, left: real, s: nat, m: nat, l: nat)
    requires l > 0 && left == m as real / l as real && first.shr == s && Shares(first, mode, left)
    requires p == first.(arbM := num as real, arbL := den) && InLowestTerms(num, den)
    requires Lowest(p.preL * den, num * p.postM) == (l, m)
    ensures Shaped(p, mode, s, m, l)
  {
    WholeFloor(num);
    WholeMIs(p, num);
    hide Lowest, WholeM, InLowestTerms;
    assert InLowestTerms(num, den);
    PositiveTerms(num, den);
  }

  lemma TwoIsWhole()
    ensures 2.0 == 2.0.Floor as real
  {
  }

  lemma NotBelow(p: Plan, arbM0: real, upsample: bool, mode: nat)
    requires p.preL > 0 && arbM0 > 0.0
    requires if upsample then p.arbM == arbM0 * p.preL as real && p.preL == (if mode == 0 then 1 else 2)
             else 3.0 * p.preL as real <= 4.0 * p.arbM
    ensures upsample ==> p.arbM >= arbM0 && (mode == 0 ==> p.arbM == arbM0) && (mode != 0 ==> p.arbM == 2.0 * arbM0)
    ensures !upsample ==> p.arbM >= 0.75
  {
  }

  lemma DriftBound(f: real, head: real, slack: real, upsample: bool, arbM0: real, postL: nat)
    requires f > 0.0 && slack >= 0.0 && postL > 0 && head == arbM0 / postL as real
    requires upsample ==> f <= 1.0 && arbM0 < 1.0
    requires !upsample ==> f <= 2.0 * head
    ensures Weigh(f, slack) <= Drift(head, slack)
  {
    var m := if head < 1.0 then 1.0 else head;
    if upsample {
      RealMulLe(f, 1.0, slack);
    } else {
      RealMulLe(f, 2.0 * m, slack);
    }
  }

  /** A large interpolation is left only where upsampling was found at once. */
  lemma WideUpsamples(a: Plan, p: Plan, x: nat, slack: real, exact: bool, upsample: bool, arbM0: real)
    requires a.Proper() && p.Proper() && x <= 1 && 0.0 <= slack < 0.5 && a.preL <= 2 && arbM0 > 0.0
    requires p == a.(shr := a.shr + x, arbM := p.arbM, arbL := p.arbL)
    requires Abs((1 + x) as real * (p.arbM / p.arbL as real) - a.arbM) <= slack
    requires x == 1 ==> a.arbM > 3.0 && a.preL == 1
    requires exact ==> x == 0 && p.arbM / p.arbL as real == a.arbM
    requires if upsample then arbM0 < 1.0 && a.shr == 0 && a.postM == 1 && a.arbM == arbM0 * a.preL as real
             else arbM0 >= 1.0 && 3.0 * a.preL as real <= 4.0 * a.arbM
    ensures var d := (p.preL * p.arbL) as real / p.arbM;
            && (d > 4.0 ==> arbM0 < 1.0 && p.shr == 0 && p.postM == 1)
            && ((exact || slack == 0.0) && arbM0 < 1.0 ==> d == 1.0 / arbM0)
  {
    var v := p.arbM / p.arbL as real;
    InterpolationIs(p.preL, p.arbL, p.arbM, v);
    AbsIs((1 + x) as real * v - a.arbM, slack);
    var l := p.preL as real;
    if upsample {
      if x == 1 {
        RealMulLe(arbM0, 1.0, l);
        assert false;
      }
      if exact || slack == 0.0 {
        assert v == arbM0 * l;
        Inverse(l, arbM0);
      }
    } else {
      assert 4.0 * v >= l;
      QuotientAtMost(l, v, 4.0);
    }
  }

  lemma AbsIs(x: real, b: real)
    ensures Abs(x) <= b ==> -b <= x <= b
  {
  }

  lemma InterpolationIs(l: nat, a: nat, m: real, v: real)
    requires a > 0 && m > 0.0 && v == m / a as real
    ensures v > 0.0 && (l * a) as real / m == l as real / v
  {
    assert v * a as real == m;
    var q := l as real / v;
    assert q * v == l as real;
    assert (l * a) as real == l as real * a as real;
    assert q * m == (q * v) * a as real;
    Cancel((l * a) as real / m, q, m);
  }

  lemma Inverse(l: real, a: real)
    requires l > 0.0 && a > 0.0
    ensures a * l > 0.0 && l / (a * l) == 1.0 / a
  {
    var q := 1.0 / a;
    assert q * a == 1.0;
    assert q * (a * l) == (q * a) * l;
    Cancel(l / (a * l), q, a * l);
  }

  lemma QuotientAtMost(l: real, v: real, b: real)
    requires v > 0.0 && l <= b * v
    ensures l / v <= b
  {
    var q := l / v;
    assert q * v == l;
    if q > b {
      assert (q - b) * v > 0.0;
    }
  }

  /** Replacing the middle number changes the whole by as much times the rest. */
  lemma RatioError(a: Plan, b: Plan, x: nat, slack: real)
    requires a.Proper() && b.Proper() && a.arbL == 1 && x <= 1
    requires b == a.(shr := a.shr + x, arbM := b.arbM, arbL := b.arbL)
    requires Close(x, b.arbM, b.arbL, a.arbM, slack)
    ensures Abs(b.Ratio() - a.Ratio()) <= Weigh(a.Factor(), slack)
    ensures a.Factor() > 0.0 && a.Ratio() == Weigh(a.Factor(), a.arbM)
  {
    var v := b.arbM / b.arbL as real;
    FactorOf(a);
    FactorShifted(a, x);
    hide *;
    CloseIs(x, b.arbM, b.arbL, a.arbM, slack);
    RatioIs(a);
    RatioIs(b);
    assert a.arbM / 1 as real == a.arbM;
    ErrorScales(a.Factor(), (1 + x) as real, v, a.arbM, slack);
  }

  lemma RatioIs(p: Plan)
    requires p.preL > 0 && p.arbL > 0 && p.postL > 0
    ensures p.Ratio() == Weigh(p.Factor(), p.arbM / p.arbL as real)
  {
  }

  lemma FactorOf(p: Plan)
    requires p.Proper()
    ensures p.Factor() > 0.0
    ensures p.shr == 0 && p.preM <= 1 && p.postM == 1 ==> p.Factor() == 1.0 / (p.preL * p.postL) as real
  {
    var n, d := (Pow2(p.shr) * Max(p.preM, 1) * p.postM) as real, (p.preL * p.postL) as real;
    ProductPositive(p.preL, p.postL);
    ProductPositive(Pow2(p.shr), Max(p.preM, 1));
    ProductPositive(Pow2(p.shr) * Max(p.preM, 1), p.postM);
    QuotientPositive(n, d);
    assert Pow2(0) == 1;
  }

  lemma ProductPositive(a: nat, b: nat)
    requires a > 0 && b > 0
    ensures a * b > 0
  {
    MulLe(a, 1, b);
  }

  lemma QuotientPositive(n: real, d: real)
    requires n > 0.0 && d > 0.0
    ensures n / d > 0.0
  {
  }

  lemma FactorShifted(p: Plan, x: nat)
    requires p.Proper() && x <= 1
    ensures p.(shr := p.shr + x).Factor() == (1 + x) as real * p.Factor()
  {
    var k, d := Pow2(p.shr) * Max(p.preM, 1) * p.postM, (p.preL * p.postL) as real;
    ProductPositive(p.preL, p.postL);
    if x == 1 {
      assert Pow2(p.shr + 1) == 2 * Pow2(p.shr);
      assert Pow2(p.shr + 1) * Max(p.preM, 1) * p.postM == 2 * k by {
        MulAssoc3(2, Pow2(p.shr), Max(p.preM, 1));
        MulAssoc3(2, Pow2(p.shr) * Max(p.preM, 1), p.postM);
      }
      TwiceQuotient(k as real, d);
    }
  }

  lemma TwiceQuotient(n: real, d: real)
    requires d > 0.0
    ensures (2.0 * n) / d == 2.0 * (n / d)
  {
    var q := n / d;
    assert q * d == n;
    Cancel((2.0 * n) / d, 2.0 * q, d);
  }

  lemma ErrorScales(f: real, x: real, v: real, a: real, slack: real)
    requires f > 0.0 && Abs(x * v - a) <= slack
    ensures Abs(Weigh(x * f, v) - Weigh(f, a)) <= Weigh(f, slack)
  {
    var e := x * v - a;
    assert x * f * v == f * (x * v);
    assert f * (x * v) - f * a == f * e;
    hide *;
    WeighIs(x * f, v);
    WeighIs(f, a);
    WeighIs(f, slack);
    AbsTimes(e, f);
    RealMulLe(Abs(e), slack, f);
  }

  lemma FactorBound(p: Plan, arbM0: real, upsample: bool)
    requires p.Proper() && p.Ratio() == arbM0 / p.postL as real && p.arbL == 1 && p.preM <= 1
    requires if upsample then p.shr == 0 && p.postM == 1 else 3.0 <= 4.0 * p.arbM
    ensures upsample ==> p.Factor() <= 1.0
    ensures !upsample ==> p.Factor() <= 2.0 * (arbM0 / p.postL as real)
  {
    FactorOf(p);
    RatioIs(p);
    hide *;
    WeighIs(p.Factor(), p.arbM / 1 as real);
    if upsample {
      ProductPositive(p.preL, p.postL);
      UnitFraction(p.preL * p.postL);
    } else {
      RealMulLe(0.5, p.arbM, p.Factor());
    }
  }

  lemma UnitFraction(n: nat)
    requires n > 0
    ensures 1.0 / n as real <= 1.0
  {
  }

  /** M, line 332. */
  function WholeM(p: Plan): nat {
    if p.arbM < 0.0 then 0 else (p.arbM * p.postM as real).Floor
  }

  /** Lines 336-337: the whole rational goes to the pre stage. */
  function AllInPre(p: Plan): Plan {
    var lm := Lowest(p.preL * p.arbL, WholeM(p));
    p.(preL := lm.0, preM := lm.1, arbM := 1.0, arbL := 1, postM := 1)
  }

  lemma AllInPreRatio(p: Plan)
    requires p.Proper() && p.preM <= 1 && p.arbM == p.arbM.Floor as real
    ensures AllInPre(p).Proper() && AllInPre(p).Ratio() == p.Ratio()
    ensures AllInPre(p).postL == p.postL
  {
    var a := p.arbM.Floor;
    ProductPositive(p.preL, p.arbL);
    ProductPositive(a, p.postM);
    WholeMIs(p, a);
    LowestIs(p.preL * p.arbL, a * p.postM);
    var r := AllInPre(p);
    AllInPreIs(p);
    hide *;
    MaxOf(p.preM, r.preM);
    RatioOf(p);
    RatioOf(r);
    var k := if p.preL * p.arbL == r.preL then 1 else 2;
    SameQuotient(Pow2(p.shr), p.preL, p.arbL, a, p.postM, p.postL, r.preL, r.preM, k);
  }

  lemma WholeMIs(p: Plan, a: nat)
    requires p.arbM == a as real
    ensures WholeM(p) == a * p.postM
  {
    assert p.arbM * p.postM as real == (a * p.postM) as real;
  }

  lemma LowestIs(l: nat, m: nat)
    requires l > 0 && m > 0
    ensures var lm := Lowest(l, m);
            && lm.0 > 0 && lm.1 > 0
            && ((lm.0 == l && lm.1 == m) || (l == 2 * lm.0 && m == 2 * lm.1))
  {
  }

  lemma AllInPreIs(p: Plan)
    ensures var r, lm := AllInPre(p), Lowest(p.preL * p.arbL, WholeM(p));
            && r.shr == p.shr && r.preL == lm.0 && r.preM == lm.1 && r.arbM == 1.0 && r.arbL == 1 && r.postM == 1
            && r.postL == p.postL
  {
  }

  lemma MaxOf(a: nat, b: nat)
    ensures a <= 1 ==> Max(a, 1) == 1
    ensures b >= 1 ==> Max(b, 1) == b
  {
  }

  /** Both sides are s*a*pm / (pl*al*po). */
  lemma SameQuotient(s: nat, pl: nat, al: nat, a: nat, pm: nat, po: nat, l: nat, m: nat, k: nat)
    requires pl > 0 && al > 0 && po > 0 && l > 0 && m > 0
    requires pl * al == k * l && a * pm == k * m
    ensures Weigh(Over((s * m * 1) as real, (l * po) as real), 1.0 / 1 as real) ==
            Weigh(Over((s * 1 * pm) as real, (pl * po) as real), a as real / al as real)
  {
    hide *;
    ProductAsReal(s, m);
    ProductAsReal(l, po);
    ProductAsReal(s, pm);
    ProductAsReal(pl, po);
    ProductAsReal(pl, al);
    ProductAsReal(k, l);
    ProductAsReal(a, pm);
    ProductAsReal(k, m);
    CrossEqual(s as real, m as real, l as real, po as real, pm as real, pl as real, a as real, al as real, k as real);
    assert s * m * 1 == s * m && s * 1 * pm == s * pm;
    assert 1.0 / 1 as real == 1.0;
  }

  lemma ProductAsReal(a: nat, b: nat)
    ensures (a * b) as real == Weigh(a as real, b as real)
    ensures a > 0 && b > 0 ==> a * b > 0
  {
    if a > 0 && b > 0 {
      ProductPositive(a, b);
    }
  }

  lemma CrossEqual(s: real, m: real, l: real, po: real, pm: real, pl: real, a: real, al: real, k: real)
    requires pl > 0.0 && al > 0.0 && po > 0.0 && l > 0.0
    requires Weigh(pl, al) == Weigh(k, l) && Weigh(a, pm) == Weigh(k, m)
    ensures Weigh(l, po) > 0.0 && Weigh(pl, po) > 0.0
    ensures Weigh(Over(Weigh(s, m), Weigh(l, po)), 1.0) == Weigh(Over(Weigh(s, pm), Weigh(pl, po)), a / al)
  {
    PositiveProduct(l, po);
    PositiveProduct(pl, po);
    PositiveProduct(pl * po, al);
    var x, y, z := Over(s * m, l * po), Over(s * pm, pl * po), a / al;
    assert x * (l * po) == s * m && y * (pl * po) == s * pm && z * al == a;
    assert pl * al == k * l && a * pm == k * m;
    assert Weigh(Over(Weigh(s, m), Weigh(l, po)), 1.0) == x
        && Weigh(Over(Weigh(s, pm), Weigh(pl, po)), a / al) == y * z;
    hide *;
    assert y * z * (pl * po * al) == (y * (pl * po)) * (z * al) by { Swap4(y, z, pl * po, al); }
    assert s * pm * a == s * (a * pm) by { Swap3(s, pm, a); }
    assert x * (pl * po * al) == x * po * (pl * al) by { Swap3b(x, pl, po, al); }
    assert x * (l * po) == x * po * l by { Swap3(x, l, po); }
    assert x * po * (k * l) == k * (x * po * l) by { Swap3c(x * po, k, l); }
    assert s * (k * m) == k * (s * m) by { Swap3c(s, k, m); }
    Cancel(x, y * z, pl * po * al);
  }

  lemma Swap4(y: real, z: real, p: real, q: real)
    ensures y * z * (p * q) == (y * p) * (z * q)
  {
  }

  lemma Swap3(a: real, b: real, c: real)
    ensures a * b * c == a * (c * b) && a * (b * c) == a * c * b
  {
  }

  lemma Swap3b(x: real, a: real, b: real, c: real)
    ensures x * (a * b * c) == x * b * (a * c)
  {
  }

  lemma Swap3c(x: real, a: real, b: real)
    ensures x * (a * b) == a * (x * b)
  {
  }

  /** What restarting with a post stage carries over: line 335. */
  lemma PostRestart(p: Plan, d: real, postL: nat, arbM: real)
    requires p.Proper() && p.preM <= 1 && p.shr == 0 && p.postM == 1 && p.postL == 1 && postL >= 4
    requires d == (p.preL * p.arbL) as real / p.arbM && d > 4.0
    requires arbM == p.arbM * postL as real / p.arbL as real / p.preL as real
    ensures arbM > 0.0 && arbM / postL as real == p.Ratio() && p.Ratio() < 0.25 && arbM >= 4.0 * p.Ratio()
  {
    var v := p.arbM / p.arbL as real;
    var l := p.preL as real;
    FactorOf(p);
    RatioIs(p);
    InterpolationIs(p.preL, p.arbL, p.arbM, v);
    hide *;
    WeighIs(1.0 / l, v);
    PostAlgebra(p.arbM, p.arbL as real, l, postL as real, v);
    InverseSmallOf(1.0 / l, l, v);
    RealMulLe(4.0, postL as real, p.Ratio());
  }

  lemma PostAlgebra(m: real, a: real, l: real, t: real, v: real)
    requires m > 0.0 && a > 0.0 && l > 0.0 && t > 0.0 && v == m / a
    ensures m * t / a / l == 1.0 / l * v * t && 1.0 / l * v > 0.0
    ensures m * t / a / l / t == 1.0 / l * v
  {
    var r := 1.0 / l;
    assert r * l == 1.0 && v * a == m;
    PositiveProduct(r, v);
    var q := m * t / a;
    assert q * a == (v * t) * a;
    Cancel(q, v * t, a);
    var e := q / l;
    assert e * l == q;
    assert (r * v * t) * l == (r * l) * (v * t);
    Cancel(e, r * v * t, l);
    Cancel(e / t, r * v, t);
  }

  lemma QuotientBack(a: real, b: real)
    requires b > 0.0
    ensures a / b * b == a
  {
  }

  lemma InverseSmallOf(r: real, l: real, v: real)
    requires l > 0.0 && v > 0.0 && l / v > 4.0 && r == 1.0 / l
    ensures r * v < 0.25
  {
    hide *;
    QuotientBack(1.0, l);
    QuotientBack(l, v);
    InverseSmall(r, l, v, l / v);
  }

  lemma InverseSmall(r: real, l: real, v: real, q: real)
    requires r * l == 1.0 && q * v == l && q > 4.0
    ensures r * v < 0.25
  {
    var rv := r * v;
    Swap3(r, v, q);
    assert rv * q == 1.0;
    if rv >= 0.25 {
      RealMulLe(0.25, rv, q);
    }
  }

  /** Where the loop stands before a pass, for restarts of either kind; when it is known that the first
      pass found its ratio exactly, the post stage is the right one. */
  ghost predicate Pending(ioRatio: real, slack: real, known: bool, smallInt: bool, arbM: real, mode: nat, postL: nat,
                          passes: nat) {
    && arbM > 0.0 && (4.0 * slack < ioRatio ==> arbM > slack) && postL > 0 && ioRatio > 0.0
    && if postL == 1 then
         && arbM == ioRatio
         && (passes == 0 || (passes == 1 && mode > 0 && ioRatio < 1.0
             && (slack == 0.0 || known ==> slack == 0.0 && !Wide(1.0 / ioRatio, smallInt))))
       else
         && mode > 0 && 1 <= passes <= 2 && (slack == 0.0 ==> passes == 1)
         && (slack == 0.0 || known ==> Wide(1.0 / ioRatio, smallInt) && PostFits(1.0 / ioRatio, postL))
         && Abs(arbM / postL as real - ioRatio) <= 2.0 * slack && arbM / postL as real < 0.25
  }

  /** The post stage as line 334 has it, for the interpolation that io_ratio stands for. */
  ghost predicate PostRight(ioRatio: real, smallInt: bool, postL: nat)
    requires ioRatio > 0.0
  {
    if smallInt && 1.0 / ioRatio > 4.0 && 1.0 / ioRatio != 5.0 then PostFits(1.0 / ioRatio, postL) else postL == 1
  }

  /** What becomes of a ratio m/l below 4 that was found exactly: one block filter, if the terms are
      small. */
  ghost predicate Chosen(p: Plan, mode: nat, s: nat, m: nat, l: nat, smallInt: bool) {
    if Max(l, m) < 3 + (if smallInt then 2 else 0) || l * m < (if smallInt then 6 else 0)
    then p == Plan(s, l, m, 1.0, 1, 1, 1)
    else Shaped(p, mode, s, m, l) && p.postL == 1
  }

  ghost predicate Planned(ioRatio: real, slack: real, p: Plan) {
    p.Proper() && Abs(p.Ratio() - ioRatio) <= 2.0 * Drift(ioRatio, slack)
  }

  /** The loop of lines 313-340.  Whatever the tolerance, it ends within three passes; the plan's
      ratio is the one asked for up to the slack that the tolerance leaves, and with no tolerance
      it is exactly that, after at most two passes.  There is no plan when the tolerance admits the
      numerator 0, after which the source divides by it or plans for another ratio.  For a ratio
      2^s * m/l whose terms the search can find, and for every ratio when there is no tolerance, it
      is said which stages there are. */
  method Determine(ioRatio: real, mode0: nat, smallInt: bool, maxL: bool -> nat, tolerance: real -> real,
      ghost slack: real, ghost s: nat, ghost m: nat, ghost l: nat)
    returns (r: Option<Plan>, ghost passes: nat)
    requires 0.0 <= slack < 0.0625 && 0.0 < ioRatio && Tight(tolerance, slack)
    requires mode0 == 0 ==> ioRatio <= 1.0
    ensures r.None? ==> ioRatio <= 4.0 * slack
    ensures FirstPart(ioRatio, mode0) < 0.5 && tolerance(FirstPart(ioRatio, mode0)) >= 1.0 && maxL(mode0 != 0) >= 1 ==>
              r.None?
    ensures r.Some? ==> r.value.Proper()
    ensures r.Some? ==> Abs(r.value.Ratio() - ioRatio) <= 4.0 * slack * (if ioRatio < 1.0 then 1.0 else ioRatio)
    ensures r.Some? && slack == 0.0 ==> r.value.Ratio() == ioRatio
    ensures passes <= 3 && (slack == 0.0 ==> passes <= 2)
    ensures r.Some? && (slack == 0.0 || Exact(ioRatio, s, m, l, maxL(mode0 != 0), slack)) ==>
              if smallInt && 1.0 / ioRatio > 4.0 && 1.0 / ioRatio != 5.0 then PostFits(1.0 / ioRatio, r.value.postL)
              else r.value.postL == 1
    ensures Exact(ioRatio, s, m, l, maxL(mode0 != 0), slack)
            && !(smallInt && 1.0 / ioRatio > 4.0 && 1.0 / ioRatio != 5.0) ==>
              && passes == 1 && r.Some?
              && (if Max(l, m) < 3 + (if smallInt then 2 else 0) || l * m < (if smallInt then 6 else 0)
                  then r.value == Plan(s, l, m, 1.0, 1, 1, 1)
                  else Shaped(r.value, mode0, s, m, l) && r.value.postL == 1)
  {
    hide *;
    var arbM, mode, postL, restart := ioRatio, mode0, 1, true;
    passes := 0;
    ghost var known := Exact(ioRatio, s, m, l, maxL(mode0 != 0), slack);
    ghost var sure := known && !Wide(1.0 / ioRatio, smallInt);
    var p := Plan(0, 1, 1, 1.0, 1, 1, 1);
    PendingFirst(ioRatio, slack, known, smallInt, mode);
    StagesAre(ioRatio, smallInt, p, mode0, s, m, l);
    while restart
      invariant restart ==> Pending(ioRatio, slack, known, smallInt, arbM, mode, postL, passes)
      invariant restart && mode == 0 ==> passes == 0 && ioRatio <= 1.0
      invariant passes == 0 ==> restart && arbM == ioRatio && mode == mode0 && postL == 1
      invariant passes > 0 && FirstPart(ioRatio, mode0) < 0.5 && tolerance(FirstPart(ioRatio, mode0)) >= 1.0 ==>
                  maxL(mode0 != 0) == 0
      invariant !restart ==> Planned(ioRatio, slack, p)
      invariant passes <= 3 && (slack == 0.0 ==> passes <= 2)
      invariant restart ==> passes < 3 && (slack == 0.0 ==> passes < 2)
      invariant !restart && (slack == 0.0 || known) ==> PostRight(ioRatio, smallInt, p.postL)
      invariant sure && passes > 0 ==> !restart && passes == 1 && Chosen(p, mode0, s, m, l, smallInt)
      decreases restart, postL == 1, mode == 0
    {
      var vanished;
      vanished, p, arbM, mode, postL, restart :=
        Turn(ioRatio, arbM, mode, postL, smallInt, maxL, tolerance, slack, passes, known, s, m, l);
      passes := passes + 1;
      if vanished {
        return None, passes;
      }
    }
    PlannedIs(ioRatio, slack, p);
    StagesAre(ioRatio, smallInt, p, mode0, s, m, l);
    r := Some(p);
  }

  lemma PendingFirst(ioRatio: real, slack: real, known: bool, smallInt: bool, mode: nat)
    requires 0.0 < ioRatio && 0.0 <= slack
    ensures Pending(ioRatio, slack, known, smallInt, ioRatio, mode, 1, 0)
  {
  }

  lemma StagesAre(ioRatio: real, smallInt: bool, p: Plan, mode: nat, s: nat, m: nat, l: nat)
    requires ioRatio > 0.0
    ensures Wide(1.0 / ioRatio, smallInt) <==> smallInt && 1.0 / ioRatio > 4.0 && 1.0 / ioRatio != 5.0
    ensures PostRight(ioRatio, smallInt, p.postL) ==>
              if smallInt && 1.0 / ioRatio > 4.0 && 1.0 / ioRatio != 5.0 then PostFits(1.0 / ioRatio, p.postL)
              else p.postL == 1
    ensures Chosen(p, mode, s, m, l, smallInt) ==>
              if Max(l, m) < 3 + (if smallInt then 2 else 0) || l * m < (if smallInt then 6 else 0)
              then p == Plan(s, l, m, 1.0, 1, 1, 1)
              else Shaped(p, mode, s, m, l) && p.postL == 1
  {
    hide PostFits, Shaped;
  }

  lemma PlannedIs(ioRatio: real, slack: real, p: Plan)
    requires Planned(ioRatio, slack, p)
    ensures p.Proper() && Abs(p.Ratio() - ioRatio) <= 4.0 * slack * (if ioRatio < 1.0 then 1.0 else ioRatio)
    ensures slack == 0.0 ==> p.Ratio() == ioRatio
  {
    hide Plan.Ratio;
  }

  /** One turn of the loop. */
  method Turn(ghost ioRatio: real, arbM0: real, mode0: nat, postL0: nat, smallInt: bool, maxL: bool -> nat,
              tolerance: real -> real, ghost slack: real, ghost passes: nat,
              ghost known: bool, ghost s: nat, ghost m: nat, ghost l: nat)
    returns (vanished: bool, p: Plan, arbM: real, mode: nat, postL: nat, restart: bool)
    requires 0.0 <= slack < 0.0625 && 0.0 < ioRatio && Tight(tolerance, slack)
    requires Pending(ioRatio, slack, known, smallInt, arbM0, mode0, postL0, passes)
    requires mode0 == 0 ==> passes == 0 && ioRatio <= 1.0
    requires passes == 0 ==> arbM0 == ioRatio && (known <==> Exact(arbM0, s, m, l, maxL(mode0 != 0), slack))
    ensures !vanished && !restart && (slack == 0.0 || known) ==> PostRight(ioRatio, smallInt, p.postL)
    ensures passes == 0 && known && !Wide(1.0 / ioRatio, smallInt) ==>
              !vanished && !restart && Chosen(p, mode0, s, m, l, smallInt)
    ensures passes + 1 <= 3 && (slack == 0.0 ==> passes + 1 <= 2)
    ensures vanished ==> ioRatio <= 4.0 * slack
    ensures FirstPart(arbM0, mode0) < 0.5 && tolerance(FirstPart(arbM0, mode0)) >= 1.0 && maxL(mode0 != 0) >= 1 ==>
              vanished
    ensures !vanished && restart ==> Pending(ioRatio, slack, known, smallInt, arbM, mode, postL, passes + 1) && mode > 0
    ensures !vanished && restart ==> passes + 1 < 3 && (slack == 0.0 ==> passes + 1 < 2)
    ensures !vanished && !restart ==> Planned(ioRatio, slack, p)
    ensures !vanished && restart ==> (postL0 == 1 && postL > 1) || (postL == postL0 && mode0 == 0)
  {
    hide *;
    var rational: bool, d: real;
    mode, postL, restart := mode0, postL0, false;
    PendingIs(ioRatio, slack, known, smallInt, arbM0, mode0, postL0, passes);
    PendingPasses(ioRatio, slack, known, smallInt, arbM0, mode0, postL0, passes);
    vanished, p, rational, d := Pass(arbM0, mode0, postL0, maxL(mode0 != 0), tolerance, slack, s, m, l);
    arbM := p.arbM;
    if vanished {
      FirstPartIs(arbM0, mode0);
      return;
    }
    if postL0 == 1 && Wide(d, smallInt) {
      WideIs(d, smallInt);
      ProperIs(p);
      postL := FirstPost(d);
      arbM := p.arbM * postL as real / p.arbL as real / p.preL as real;
      PostRestart(p, d, postL, arbM);
      Reciprocal(ioRatio);
      PendingPost(ioRatio, slack, known, smallInt, arbM0, p, arbM, mode0, postL, passes, d);
      restart := true;
    } else if rational
        && SmallRatio(Lowest(p.preL * p.arbL, WholeM(p)).0, Lowest(p.preL * p.arbL, WholeM(p)).1, smallInt) {
      AllInPreRatio(p);
      FinalPost(ioRatio, slack, known, smallInt, arbM0, mode0, postL0, passes, d);
      if postL0 == 1 {
        FinalChosen(p, mode0, s, m, l, smallInt);
      }
      FinalDrift(ioRatio, slack, known, smallInt, arbM0, mode0, postL0, passes, p);
      PlannedAs(ioRatio, slack, p);
      p := AllInPre(p);
    } else {
      FinalPost(ioRatio, slack, known, smallInt, arbM0, mode0, postL0, passes, d);
      if postL0 == 1 {
        FinalChosen(p, mode0, s, m, l, smallInt);
      }
      FinalDrift(ioRatio, slack, known, smallInt, arbM0, mode0, postL0, passes, p);
    }
    if mode == 0 && (!rational || restart) {
      mode := mode + 1;
      if !restart {
        PendingMode(ioRatio, slack, known, smallInt, arbM0, p, postL0, passes, d);
      }
      restart := true;
    }
    if restart {
      PendingPasses(ioRatio, slack, known, smallInt, arbM, mode, postL, passes + 1);
    }
  }

  lemma Reciprocal(r: real)
    requires r > 0.0
    ensures r >= 1.0 ==> 1.0 / r <= 1.0
  {
    QuotientBack(1.0, r);
    ScaleIff(1.0 / r, 1.0, r);
  }

  /** When neither kind of restart is called for the post stage is the right one. */
  lemma FinalPost(ioRatio: real, slack: real, known: bool, smallInt: bool, arbM0: real, mode: nat, postL: nat,
                  passes: nat, d: real)
    requires Pending(ioRatio, slack, known, smallInt, arbM0, mode, postL, passes)
    requires !(postL == 1 && Wide(d, smallInt))
    requires (slack == 0.0 || (known && passes == 0)) && arbM0 < 1.0 ==> d == 1.0 / arbM0
    ensures slack == 0.0 || known ==> PostRight(ioRatio, smallInt, postL)
  {
    hide PostFits;
    Reciprocal(ioRatio);
  }

  lemma FinalChosen(p: Plan, mode: nat, s: nat, m: nat, l: nat, smallInt: bool)
    requires p.Proper() && p.postL == 1
    ensures Shaped(p, mode, s, m, l) ==>
              var lm := Lowest(p.preL * p.arbL, WholeM(p));
              Chosen(if SmallRatio(lm.0, lm.1, smallInt) then AllInPre(p) else p, mode, s, m, l, smallInt)
  {
    hide WholeM, InLowestTerms, Shares;
  }

  lemma FirstPartIs(arbM0: real, mode: nat)
    requires arbM0 > 0.0
    ensures FirstPart(arbM0, mode) >= arbM0
  {
  }

  lemma PendingPasses(ioRatio: real, slack: real, known: bool, smallInt: bool, arbM: real, mode: nat, postL: nat,
      passes: nat)
    requires Pending(ioRatio, slack, known, smallInt, arbM, mode, postL, passes)
    ensures passes + 1 <= 3 && (slack == 0.0 ==> passes + 1 <= 2)
  {
    hide Wide;
  }

  lemma PendingIs(ioRatio: real, slack: real, known: bool, smallInt: bool, arbM: real, mode: nat, postL: nat,
      passes: nat)
    requires Pending(ioRatio, slack, known, smallInt, arbM, mode, postL, passes)
    ensures arbM > 0.0 && (4.0 * slack < ioRatio ==> arbM > slack) && postL > 0 && (mode == 0 ==> postL == 1)
    ensures passes == 0 ==> postL == 1
  {
  }

  lemma WideIs(d: real, smallInt: bool)
    requires Wide(d, smallInt)
    ensures d > 4.0
  {
  }

  lemma ProperIs(p: Plan)
    requires p.Proper()
    ensures p.preL > 0 && p.arbM > 0.0 && p.arbL > 0 && p.postM > 0 && p.postL > 0
  {
  }

  lemma DriftIs(head: real, slack: real)
    requires slack >= 0.0
    ensures head < 1.0 ==> Drift(head, slack) == 2.0 * slack
    ensures head >= 1.0 ==> Drift(head, slack) == 2.0 * (slack * head) && slack * head >= 0.0
  {
  }

  lemma FinalDrift(ioRatio: real, slack: real, known: bool, smallInt: bool, arbM0: real, mode: nat, postL: nat,
      passes: nat, p: Plan)
    requires 0.0 <= slack && Pending(ioRatio, slack, known, smallInt, arbM0, mode, postL, passes)
    requires postL > 0 && p.Proper()
    requires Abs(p.Ratio() - arbM0 / postL as real) <= Drift(arbM0 / postL as real, slack)
    ensures Planned(ioRatio, slack, p) && passes + 1 <= 3 && (slack == 0.0 ==> passes + 1 <= 2)
  {
    hide Plan.Ratio, Wide, Drift, Tight;
    HeadOf(ioRatio, slack, known, smallInt, arbM0, mode, postL, passes);
    CloseEnough(p.Ratio(), arbM0 / postL as real, ioRatio, slack);
  }

  lemma HeadOf(ioRatio: real, slack: real, known: bool, smallInt: bool, arbM: real, mode: nat, postL: nat, passes: nat)
    requires Pending(ioRatio, slack, known, smallInt, arbM, mode, postL, passes) && postL > 0
    ensures var head := arbM / postL as real; head == ioRatio || (head < 1.0 && Abs(head - ioRatio) <= 2.0 * slack)
  {
    hide Wide;
  }

  lemma CloseEnough(ratio: real, head: real, ioRatio: real, slack: real)
    requires slack >= 0.0 && Abs(ratio - head) <= Drift(head, slack)
    requires head == ioRatio || (head < 1.0 && Abs(head - ioRatio) <= 2.0 * slack)
    ensures Abs(ratio - ioRatio) <= 2.0 * Drift(ioRatio, slack)
  {
    hide Drift;
    DriftIs(head, slack);
    DriftIs(ioRatio, slack);
    if head != ioRatio && ioRatio >= 1.0 {
      RealMulLe(1.0, ioRatio, slack);
    }
  }

  lemma PlannedAs(ioRatio: real, slack: real, p: Plan)
    requires p.Proper() && AllInPre(p).Proper() && AllInPre(p).Ratio() == p.Ratio() && Planned(ioRatio, slack, p)
    ensures Planned(ioRatio, slack, AllInPre(p))
  {
    hide Plan.Ratio, Plan.Proper, AllInPre;
  }

  lemma PendingPost(ioRatio: real, slack: real, known: bool, smallInt: bool, arbM0: real, p: Plan, arbM: real,
      mode: nat, postL: nat, passes: nat, d: real)
    requires 0.0 <= slack && Pending(ioRatio, slack, known, smallInt, arbM0, mode, 1, passes)
    requires p.Proper() && Wide(d, smallInt) && arbM0 < 1.0 && PostFits(d, postL)
    requires slack == 0.0 || (known && passes == 0) ==> d == 1.0 / arbM0
    requires Abs(p.Ratio() - arbM0 / 1 as real) <= Drift(arbM0 / 1 as real, slack)
    requires postL >= 4 && arbM / postL as real == p.Ratio() < 0.25 && arbM >= 4.0 * p.Ratio() && arbM > 0.0
    ensures Pending(ioRatio, slack, known, smallInt, arbM, if mode == 0 then 1 else mode, postL, passes + 1)
  {
    hide Plan.Ratio, Wide, Drift;
    DriftIs(arbM0 / 1 as real, slack);
    assert arbM0 / 1 as real == ioRatio;
    AbsIs(p.Ratio() - ioRatio, 2.0 * slack);
  }

  lemma PendingMode(ioRatio: real, slack: real, known: bool, smallInt: bool, arbM0: real, p: Plan, postL: nat,
      passes: nat, d: real)
    requires Pending(ioRatio, slack, known, smallInt, arbM0, 0, postL, passes) && passes == 0 && ioRatio <= 1.0
    requires arbM0 != 1.0 && (arbM0 < 1.0 ==> p.arbM == arbM0)
    requires slack == 0.0 && arbM0 < 1.0 ==> d == 1.0 / arbM0
    requires !(postL == 1 && Wide(d, smallInt)) && (known ==> slack == 0.0)
    ensures Pending(ioRatio, slack, known, smallInt, p.arbM, 1, postL, passes + 1)
  {
    hide Wide;
  }
}
