/** What the pipeline of Rate hands over, in plain numbers: how many samples a request brings, and
    when each of them is taken. */
module RateOutput {
  import opened Arith
  import opened Options
  import opened Streams
  import opened CubicStage
  import opened Accounts
  import opened Rate

  // ---- how many ----

  /** The loop that comes back before the flush has made what was asked for, or all that the stage
      can make of its input. */
  lemma {:induction false} RunsDry(step: nat, mult: real, x: seq<real>, given: seq<real>, st: State, n: int)
    requires step > 0 && st.at < ONE32 && Processed(step, mult, st, n, false).Some?
    requires Tracks(step, mult, x, st.(produced := given + st.produced))
    ensures var r := Processed(step, mult, st, n, false).value;
            |r.produced| >= n || |given + r.produced| == Allowed(step, |x|)
    decreases n - |st.produced|
  {
    hide Fired, Integer, Position, Allowed, Tracks;
    if |st.produced| < n {
      FiredAt(step, mult, INPUT_SIZE, st);
      FiredAppends(step, mult, INPUT_SIZE, st, given);
      TracksFire(step, mult, INPUT_SIZE, x, st.(produced := given + st.produced));
      if |st.queue| >= INPUT_SIZE {
        StuckIff(step, mult, INPUT_SIZE, st);
        RunsDry(step, mult, x, given, Fired(step, mult, INPUT_SIZE, st), n);
      }
    }
  }

  /** Before the flush, asking for n samples brings n, or all that the stage can make of the input so
      far and has not given yet. */
  lemma RequestBrings(ratio: Ratio, mult: real, calls: seq<Call>, n: nat)
    requires Served(ratio, mult, calls).Some? && !Served(ratio, mult, calls).value.pipe.flushing
    requires Served(ratio, mult, calls + [Process(n)]).Some?
    ensures var h, after := Served(ratio, mult, calls).value, Served(ratio, mult, calls + [Process(n)] + [Output(n)]);
            && after.Some? && after.value.taken == h.taken && !after.value.pipe.flushing && h.given <= after.value.given
            && |after.value.given| - |h.given| == Min(n, Makes(StepOf(ratio), 1 + |h.taken|) - |h.given|)
  {
    hide Served, StepOf, Makes;
    var h := Served(ratio, mult, calls).value;
    var mid := calls + [Process(n)];
    ProcessBrings(ratio, mult, calls, n);
    ReadBrings(ratio, mult, mid, n);
  }

  /** After the call n samples wait, or all that the stage can make. */
  lemma ProcessBrings(ratio: Ratio, mult: real, calls: seq<Call>, n: nat)
    requires Served(ratio, mult, calls).Some? && !Served(ratio, mult, calls).value.pipe.flushing
    requires Served(ratio, mult, calls + [Process(n)]).Some?
    ensures var h, p := Served(ratio, mult, calls).value, Served(ratio, mult, calls + [Process(n)]).value;
            && p.taken == h.taken && p.given == h.given && !p.pipe.flushing
            && |p.given + p.pipe.waiting| <= Makes(StepOf(ratio), 1 + |p.taken|)
            && (|p.pipe.waiting| >= n || |p.given + p.pipe.waiting| == Makes(StepOf(ratio), 1 + |p.taken|))
  {
    hide *;
    var mid := calls + [Process(n)];
    assert mid[..|calls|] == calls;
    ServedUnfold(ratio, mult, mid);
    var h := Served(ratio, mult, calls).value;
    var pad := ServedGood(ratio, mult, calls);
    var later := ServedGood(ratio, mult, mid);
    ProcessLeaves(ratio, mult, h, pad, n);
    NotFlushed(ratio, mult, Served(ratio, mult, mid).value, later);
    WaitingAllowed(ratio, mult, Served(ratio, mult, mid).value);
  }

  lemma NotFlushed(ratio: Ratio, mult: real, h: History, pad: nat)
    requires Good(ratio, mult, h, pad) && !h.pipe.flushing
    ensures pad == 0
  {
    hide Follows, Due, Tight, StepOf;
  }

  lemma ProcessLeaves(ratio: Ratio, mult: real, h: History, pad: nat, n: nat)
    requires h.pipe.at < ONE32 && Good(ratio, mult, h, pad) && !h.pipe.flushing
    requires Next(ratio, mult, h, Process(n)).Some?
    ensures var p := Next(ratio, mult, h, Process(n)).value;
            && p.taken == h.taken && p.given == h.given && !p.pipe.flushing
            && (|p.pipe.waiting| >= n || |p.given + p.pipe.waiting| == Makes(StepOf(ratio), 1 + |p.taken|))
  {
    hide StepOf, Allowed, Tracks, Processed, Due, Tight, Stream;
    if StepOf(ratio) > 0 {
      RunsDry(StepOf(ratio), mult, Stream(h.taken, 0), h.given, State(h.pipe.queue, h.pipe.at, h.pipe.waiting), n);
    }
  }

  lemma WaitingAllowed(ratio: Ratio, mult: real, h: History)
    requires Good(ratio, mult, h, 0) && !h.pipe.flushing
    ensures |h.given + h.pipe.waiting| <= Makes(StepOf(ratio), 1 + |h.taken|)
  {
    hide Follows, Due, Makes, StepOf;
    var p := h.pipe;
    FollowsArrival(StepOf(ratio), mult, Stream(h.taken, 0), State(p.queue, p.at, h.given + p.waiting), []);
  }

  /** A read hands over what waits, up to what is asked for and, once flushing, up to what is owed. */
  lemma ReadBrings(ratio: Ratio, mult: real, calls: seq<Call>, n0: nat)
    requires Served(ratio, mult, calls).Some?
    ensures var h, after := Served(ratio, mult, calls).value, Served(ratio, mult, calls + [Output(n0)]);
            var asked := if h.pipe.flushing then Min(-h.pipe.samplesOut, n0) else n0;
            var m := Max(0, Min(asked, |h.pipe.waiting|));
            && after.Some? && after.value.taken == h.taken
            && after.value.given == h.given + h.pipe.waiting[..m]
            && after.value.pipe == h.pipe.(waiting := h.pipe.waiting[m..],
                                           samplesOut := h.pipe.samplesOut + Min(asked, |h.pipe.waiting|))
  {
    var all := calls + [Output(n0)];
    assert all[..|calls|] == calls;
    ServedUnfold(ratio, mult, all);
    hide Served;
  }

  /** The stage can make output k of n samples just when it has the samples it keeps back behind the
      one before the output: three, or a whole step. */
  lemma MakesIff(ratio: Ratio, n: nat, k: nat)
    requires StepOf(ratio) > 0
    ensures var step := StepOf(ratio);
            k < Makes(step, 1 + n) <==> k * step / 4294967296 + Max(3, step / 4294967296) <= n
  {
    hide StepOf, Allowed;
    AllowedWithin(StepOf(ratio), 1 + n, k);
  }

  // ---- when ----

  /** Output k is taken at k times the ratio, but for half a unit in the 32nd place each. */
  lemma TimeError(ratio: Ratio, k: nat)
    ensures Abs(Time(StepOf(ratio), k) - k as real * ratio) <= k as real / 8589934592.0
  {
    var step := StepOf(ratio);
    StepNear(ratio);
    hide StepOf, Time, Position;
    PositionReal(step, k);
    TimeIs(step, k);
    TimeScaled(step as real, ratio, k as real, Time(step, k));
  }

  lemma StepNear(ratio: Ratio)
    ensures -0.5 <= StepOf(ratio) as real - ratio * 4294967296.0 <= 0.5
  {
  }

  lemma TimeScaled(step: real, ratio: real, k: real, time: real)
    requires -0.5 <= step - ratio * 4294967296.0 <= 0.5 && k >= 0.0
    requires time == (k * step) / 4294967296.0
    ensures Abs(time - k * ratio) <= k / 8589934592.0
  {
    hide *;
    var e := step - ratio * 4294967296.0;
    var d := Weigh(k, e);
    StepParts(k, ratio, e, step);
    WeighBetween(k, e);
    TimeBound(time, k * ratio, d, k);
  }

  lemma StepParts(k: real, ratio: real, e: real, step: real)
    requires step == ratio * 4294967296.0 + e
    ensures k * step == (k * ratio) * 4294967296.0 + Weigh(k, e)
  {
  }

  lemma WeighBetween(k: real, e: real)
    requires k >= 0.0 && -0.5 <= e <= 0.5
    ensures -0.5 * k <= Weigh(k, e) <= 0.5 * k
  {
    ProductBetween(k, e);
    hide *;
    WeighProduct(k, e);
  }

  lemma WeighProduct(k: real, e: real)
    ensures Weigh(k, e) == k * e
  {
  }

  lemma ProductBetween(k: real, e: real)
    requires k >= 0.0 && -0.5 <= e <= 0.5
    ensures -0.5 * k <= k * e <= 0.5 * k
  {
    RealMulLe(e, 0.5, k);
    RealMulLe(-0.5, e, k);
  }

  lemma TimeBound(time: real, y: real, d: real, k: real)
    requires time == (y * 4294967296.0 + d) / 4294967296.0 && -0.5 * k <= d <= 0.5 * k
    ensures Abs(time - y) <= k / 8589934592.0
  {
  }

  /** Sample k has been handed out, and the samples around it are input, not padding. */
  ghost predicate OfInput(ratio: Ratio, h: History, k: nat) {
    k < |h.given| && (h.pipe.flushing ==> k * StepOf(ratio) / 4294967296 + 3 <= |h.taken|)
  }

  ghost predicate SamplesOf(taken: seq<real>, p: Cubic) {
    forall j: nat | j < |taken| :: taken[j] == p.At(j as real)
  }

  /** Samples of a polynomial of degree at most 3 come out as the same polynomial at their own
      times, if the four samples around are input, or the one before the first is and would be
      zero. */
  lemma PolynomialSamples(ratio: Ratio, mult: real, calls: seq<Call>, k: nat, p: Cubic)
    requires Served(ratio, mult, calls).Some? && OfInput(ratio, Served(ratio, mult, calls).value, k)
    requires SamplesOf(Served(ratio, mult, calls).value.taken, p)
    requires Time(StepOf(ratio), k) >= 1.0 || p.At(-1.0) == 0.0
    ensures Served(ratio, mult, calls).value.given[k] == mult * p.At(Time(StepOf(ratio), k))
  {
    hide *;
    var h, step := Served(ratio, mult, calls).value, StepOf(ratio);
    var pad := GivenSamples(ratio, mult, calls);
    PlaceIs(ratio, h, k);
    StreamOutput(step, mult, h.taken, pad, k, p);
  }

  lemma PlaceIs(ratio: Ratio, h: History, k: nat)
    requires OfInput(ratio, h, k)
    ensures k < |h.given| && (h.pipe.flushing ==> Integer(Position(StepOf(ratio), k)) + 3 <= |h.taken|)
  {
    hide StepOf;
  }

  lemma StreamOutput(step: nat, mult: real, taken: seq<real>, pad: nat, k: nat, p: Cubic)
    requires Integer(Position(step, k)) + 3 <= |taken|
    requires SamplesOf(taken, p)
    requires Time(step, k) >= 1.0 || p.At(-1.0) == 0.0
    ensures Integer(Position(step, k)) + 3 < |[0.0] + taken + seq(pad, _ => 0.0)|
    ensures OutputAt([0.0] + taken + seq(pad, _ => 0.0), mult, Position(step, k)) == mult * p.At(Time(step, k))
  {
    hide *;
    var at, y := Position(step, k), [0.0] + taken;
    var x := y + seq(pad, _ => 0.0);
    assert y == x[0..|y|];
    OutputMoved(mult, x, y, 0, at);
    assert 0 * ONE32 + at == at;
    TimeParts(at);
    TimeIs(step, k);
    SamplesMoved(taken, y, p);
    if Integer(at) >= 1 {
      PolynomialExact(y, mult, step, k, p);
    } else {
      FirstOutputs(y, mult, step, k, p);
    }
  }

  lemma SamplesMoved(taken: seq<real>, y: seq<real>, p: Cubic)
    requires SamplesOf(taken, p) && y == [0.0] + taken
    ensures forall j: nat | 1 <= j < |y| :: y[j] == p.At((j - 1) as real)
  {
    hide Cubic.At;
    forall j: nat | 1 <= j < |y| ensures y[j] == p.At((j - 1) as real) {
      assert y[j] == taken[j - 1];
    }
  }

  /** So of a straight line sample k is off by no more than half a unit in the 32nd place times k,
      times the slope. */
  lemma LineSamples(ratio: Ratio, mult: real, calls: seq<Call>, k: nat, slope: real, start: real)
    requires Served(ratio, mult, calls).Some? && OfInput(ratio, Served(ratio, mult, calls).value, k)
    requires var taken := Served(ratio, mult, calls).value.taken;
             forall j: nat | j < |taken| :: taken[j] == start + slope * j as real
    requires Time(StepOf(ratio), k) >= 1.0 || start == slope
    ensures Abs(Served(ratio, mult, calls).value.given[k] - mult * (start + slope * (k as real * ratio))) <=
            Abs(mult * slope) * (k as real / 8589934592.0)
  {
    hide *;
    var h, p, t := Served(ratio, mult, calls).value, Cubic(0.0, 0.0, slope, start), Time(StepOf(ratio), k);
    PlaceIs(ratio, h, k);
    LineSampled(h.taken, slope, start);
    PolynomialSamples(ratio, mult, calls, k, p);
    LineAt(slope, start, t);
    TimeError(ratio, k);
    LineError(h.given[k], p.At(t), mult, slope, start, t, k as real * ratio, k as real / 8589934592.0);
  }

  lemma LineSampled(taken: seq<real>, slope: real, start: real)
    requires forall j: nat | j < |taken| :: taken[j] == start + slope * j as real
    ensures SamplesOf(taken, Cubic(0.0, 0.0, slope, start))
    ensures start == slope ==> Cubic(0.0, 0.0, slope, start).At(-1.0) == 0.0
  {
    LineAt(slope, start, -1.0);
    forall j: nat | j < |taken| ensures taken[j] == Cubic(0.0, 0.0, slope, start).At(j as real) {
      LineAt(slope, start, j as real);
    }
  }

  lemma LineAt(slope: real, start: real, x: real)
    ensures Cubic(0.0, 0.0, slope, start).At(x) == start + slope * x
  {
  }

  lemma LineError(y: real, v: real, mult: real, slope: real, start: real, t: real, u: real, e: real)
    requires y == mult * v && v == start + slope * t && Abs(t - u) <= e
    ensures Abs(y - mult * (start + slope * u)) <= Abs(mult * slope) * e
  {
    hide *;
    var c, d := mult * slope, t - u;
    LineDifference(v, mult, slope, start, t, u);
    assert y - mult * (start + slope * u) == c * d;
    AbsProduct(c, d, e);
  }

  lemma LineDifference(v: real, mult: real, slope: real, start: real, t: real, u: real)
    requires v == start + slope * t
    ensures mult * v - mult * (start + slope * u) == (mult * slope) * (t - u)
  {
  }

  lemma AbsProduct(c: real, d: real, e: real)
    requires Abs(d) <= e
    ensures Abs(c * d) <= Abs(c) * e
  {
    RealMulLe(d, e, Abs(c));
    RealMulLe(-d, e, Abs(c));
  }
}
