/** The cubic interpolation stage (soxr-sys/src/cr-core.c, lines 49-67, set up by soxr-sys/src/cr.c,
    lines 390-397).  Positions are fixed-point numbers with 32 bits after the point, the two
    halves of one integer. */
module CubicStage {
  import opened Arith
  import opened Streams
  import opened Fifos

  const ONE32: nat := 0x1_0000_0000

  function Integer(at: nat): nat {
    at / ONE32
  }

  function Fraction(at: nat): nat {
    at % ONE32
  }

  // ---- one output ----

  /** The cubic through s[b-1], s[b], s[b+1] and s[b+2], x of the way from s[b] to s[b+1]:
      lines 58-61. */
  function Interpolate(s: seq<real>, b: nat, x: real): real
    requires 1 <= b && b + 2 < |s|
  {
    var sb := 0.5 * (s[b + 1] + s[b - 1]) - s[b];
    var sa := (1.0 / 6.0) * (s[b + 2] - s[b + 1] + s[b - 1] - s[b] - 4.0 * sb);
    var sc := s[b + 1] - s[b] - sa - sb;
    ((sa * x + sb) * x + sc) * x + s[b]
  }

  function Portion(at: nat): real {
    Fraction(at) as real * (1.0 / ONE32 as real)
  }

  /** The output taken at fixed-point position at of the stream x, whose first sample lies one
      place before position 0. */
  function OutputAt(x: seq<real>, mult: real, at: nat): real
    requires Integer(at) + 3 < |x|
  {
    mult * Interpolate(x, 1 + Integer(at), Portion(at))
  }

  /** A polynomial of degree at most 3. */
  datatype Cubic = Cubic(p3: real, p2: real, p1: real, p0: real) {
    function At(x: real): real {
      ((p3 * x + p2) * x + p1) * x + p0
    }

    /** The same curve with its origin moved to b. */
    function Moved(b: real): Cubic {
      Cubic(p3, 3.0 * p3 * b + p2, (3.0 * p3 * b + 2.0 * p2) * b + p1, At(b))
    }
  }

  lemma MovedAt(p: Cubic, b: real, x: real)
    ensures p.Moved(b).At(x) == p.At(b + x)
  {
    var b2, b3, x2, x3 := b * b, b * b * b, x * x, x * x * x;
    AtExpanded(p, b + x);
    AtExpanded(p.Moved(b), x);
    AtExpanded(p, b);
    BinomialSquare(b, x);
    BinomialCube(b, x);
    MovedExpanded(p.p3, p.p2, p.p1, b, x);
  }

  lemma AtExpanded(p: Cubic, x: real)
    ensures p.At(x) == p.p3 * (x * x * x) + p.p2 * (x * x) + p.p1 * x + p.p0
  {
  }

  lemma BinomialSquare(b: real, x: real)
    ensures (b + x) * (b + x) == b * b + 2.0 * (b * x) + x * x
  {
  }

  lemma BinomialCube(b: real, x: real)
    ensures (b + x) * (b + x) * (b + x) == b * b * b + 3.0 * (b * b * x) + 3.0 * (b * (x * x)) + x * x * x
  {
    BinomialSquare(b, x);
  }

  lemma MovedExpanded(p3: real, p2: real, p1: real, b: real, x: real)
    ensures p3 * (b * b * b + 3.0 * (b * b * x) + 3.0 * (b * (x * x)) + x * x * x)
            + p2 * (b * b + 2.0 * (b * x) + x * x) + p1 * (b + x) ==
            p3 * (x * x * x) + (3.0 * p3 * b + p2) * (x * x) + ((3.0 * p3 * b + 2.0 * p2) * b + p1) * x
            + (p3 * (b * b * b) + p2 * (b * b) + p1 * b)
  {
  }

  /** Exact on cubics: four neighbouring samples of a polynomial of degree at most 3 give back the
      polynomial anywhere between the middle two. */
  lemma InterpolateExact(s: seq<real>, b: nat, x: real, p: Cubic)
    requires 1 <= b && b + 2 < |s|
    requires forall i: nat | b - 1 <= i <= b + 2 :: s[i] == p.At(i as real)
    ensures Interpolate(s, b, x) == p.At(b as real + x)
  {
    var q := p.Moved(b as real);
    MovedAt(p, b as real, x);
    MovedAt(p, b as real, -1.0);
    MovedAt(p, b as real, 0.0);
    MovedAt(p, b as real, 1.0);
    MovedAt(p, b as real, 2.0);
    assert (b - 1) as real == b as real - 1.0 && (b + 1) as real == b as real + 1.0
        && (b + 2) as real == b as real + 2.0;
    FourPoints(q, s[b - 1], s[b], s[b + 1], s[b + 2], x);
    hide *;
    InterpolateIs(s, b, x);
  }

  function Through(m: real, z: real, o: real, t: real, x: real): real {
    var sb := 0.5 * (o + m) - z;
    var sa := (1.0 / 6.0) * (t - o + m - z - 4.0 * sb);
    var sc := o - z - sa - sb;
    ((sa * x + sb) * x + sc) * x + z
  }

  lemma InterpolateIs(s: seq<real>, b: nat, x: real)
    requires 1 <= b && b + 2 < |s|
    ensures Interpolate(s, b, x) == Through(s[b - 1], s[b], s[b + 1], s[b + 2], x)
  {
  }

  lemma FourPoints(q: Cubic, m: real, z: real, o: real, t: real, x: real)
    requires m == q.At(-1.0) && z == q.At(0.0) && o == q.At(1.0) && t == q.At(2.0)
    ensures Through(m, z, o, t, x) == q.At(x)
  {
    var sb := 0.5 * (o + m) - z;
    var sa := (1.0 / 6.0) * (t - o + m - z - 4.0 * sb);
    var sc := o - z - sa - sb;
    assert sb == q.p2 && sa == q.p3 && sc == q.p1 && z == q.p0;
  }

  /** What an error in the first of the four samples does to the result. */
  lemma FirstSample(m: real, m': real, z: real, o: real, t: real, x: real)
    ensures Through(m', z, o, t, x) - Through(m, z, o, t, x) == (m - m') * FirstError(x)
  {
    hide *;
    var e := (m - m') / 6.0;
    var a, b, c := ThroughIs(m, z, o, t, x);
    var a', b', c' := ThroughIs(m', z, o, t, x);
    CurveDifference(a, b, c, a', b', c', x);
    ErrorExpanded(e, a' - a, b' - b, c' - c, m - m', x);
  }

  /** A cubic that vanishes at 0. */
  function Curve(a: real, b: real, c: real, x: real): real {
    ((a * x + b) * x + c) * x
  }

  lemma ThroughIs(m: real, z: real, o: real, t: real, x: real) returns (a: real, b: real, c: real)
    ensures 2.0 * b == o + m - 2.0 * z && 6.0 * a == t - o + m - z - 4.0 * b && c == o - z - a - b
    ensures Through(m, z, o, t, x) == Curve(a, b, c, x) + z
  {
    b := 0.5 * (o + m) - z;
    a := (1.0 / 6.0) * (t - o + m - z - 4.0 * b);
    c := o - z - a - b;
  }

  lemma CurveDifference(a: real, b: real, c: real, a': real, b': real, c': real, x: real)
    ensures Curve(a', b', c', x) - Curve(a, b, c, x) == Curve(a' - a, b' - b, c' - c, x)
  {
    MulSub(a', a, x);
    MulSub(a' * x + b', a * x + b, x);
    MulSub((a' * x + b') * x + c', (a * x + b) * x + c, x);
  }

  lemma MulSub(a: real, b: real, x: real)
    ensures (a - b) * x == a * x - b * x
  {
  }

  lemma ErrorExpanded(e: real, a: real, b: real, c: real, d: real, x: real)
    requires a == e && b == -3.0 * e && c == 2.0 * e && d == 6.0 * e
    ensures Curve(a, b, c, x) == d * FirstError(x)
  {
    var y := (1.0 - x) * (2.0 - x);
    assert y == (x - 3.0) * x + 2.0;
    FactorOut(e, x, -3.0);
    assert (e * (x - 3.0)) * x == e * ((x - 3.0) * x);
    FactorOut(e, (x - 3.0) * x, 2.0);
    assert (e * y) * x == e * (x * y);
    assert x * (1.0 - x) * (2.0 - x) == x * y;
    SixthOf(e, x * y);
  }

  lemma FactorOut(e: real, x: real, k: real)
    ensures e * x + k * e == e * (x + k)
  {
  }

  lemma SixthOf(e: real, p: real)
    ensures e * p == 6.0 * e * (p / 6.0)
  {
  }

  // ---- positions ----

  lemma WholeAndPart(at: nat)
    ensures at == Integer(at) * ONE32 + Fraction(at) && Fraction(at) < ONE32
  {
  }

  /** Before a whole number of samples, in fixed point and in samples. */
  lemma BeforeWhole(at: nat, n: nat)
    ensures at < n * ONE32 <==> Integer(at) < n
  {
  }

  lemma MovedParts(n: nat, at: nat)
    ensures Integer(n * ONE32 + at) == n + Integer(at) && Fraction(n * ONE32 + at) == Fraction(at)
  {
  }

  // ---- one call ----

  /** The stage function's local num_in. */
  function NumIn(step: nat, queued: nat, inputSize: nat): (n: nat)
    ensures n > 0 ==> n + 3 <= queued && n + Integer(step) <= queued
    ensures n <= inputSize
  {
    Available(queued, Max(3, Integer(step)), inputSize)
  }

  function NumOut(step: nat, at: nat, queued: nat, inputSize: nat): nat
    requires step > 0
  {
    Count(step, at, NumIn(step, queued, inputSize) * ONE32)
  }

  /** The value of at when the loop of one call ends. */
  function EndOf(step: nat, at: nat, queued: nat, inputSize: nat): nat
    requires step > 0
  {
    at + Position(step, NumOut(step, at, queued, inputSize))
  }

  lemma ReadsInside(step: nat, at: nat, queued: nat, inputSize: nat, i: nat)
    requires step > 0 && i < NumOut(step, at, queued, inputSize)
    ensures Integer(at + Position(step, i)) < NumIn(step, queued, inputSize)
    ensures Integer(at + Position(step, i)) + 3 < queued
  {
    hide Position;
    var n := NumIn(step, queued, inputSize);
    CountIs(step, at, n * ONE32, i);
    BeforeWhole(at + Position(step, i), n);
  }

  /** The advance stays inside the queue, and in a 32-bit integer part with room to spare. */
  lemma AdvanceInside(step: nat, at: nat, queued: nat, inputSize: nat)
    requires step > 0 && at < ONE32
    ensures Integer(EndOf(step, at, queued, inputSize)) <= queued
    ensures Integer(EndOf(step, at, queued, inputSize)) <= inputSize + Integer(step)
    ensures NumOut(step, at, queued, inputSize) > 0 ==> NumIn(step, queued, inputSize) > 0
  {
    var k, n := NumOut(step, at, queued, inputSize), NumIn(step, queued, inputSize);
    hide Position, Count, NumOut, NumIn;
    PositionSum(step, 0, 0);
    if k > 0 {
      ReadsInside(step, at, queued, inputSize, k - 1);
      PositionSum(step, k - 1, 1);
      SumOfParts(at + Position(step, k - 1), step);
    }
  }

  /** There is an output unless there is no room at all; without outputs nothing moves. */
  lemma FirstPlace(step: nat, at: nat, queued: nat, inputSize: nat)
    requires step > 0 && at < ONE32
    ensures NumOut(step, at, queued, inputSize) == 0 <==> NumIn(step, queued, inputSize) == 0
    ensures NumIn(step, queued, inputSize) == 0 ==>
              var end := EndOf(step, at, queued, inputSize); Integer(end) == 0 && Fraction(end) == at
  {
    PositionSum(step, 0, 0);
    CountIs(step, at, NumIn(step, queued, inputSize) * ONE32, 0);
    hide Position, Count, NumIn;
  }

  lemma NumInZero(step: nat, queued: nat, inputSize: nat)
    requires inputSize > 0
    ensures NumIn(step, queued, inputSize) == 0 <==> queued <= Max(3, Integer(step))
  {
  }

  lemma SumOfParts(a: nat, b: nat)
    ensures Integer(a + b) <= Integer(a) + Integer(b) + 1
  {
  }

  /** The outputs of one call on the queue s. */
  function Produced(step: nat, mult: real, at: nat, inputSize: nat, s: seq<real>): (out: seq<real>)
    requires step > 0
    ensures |out| == NumOut(step, at, |s|, inputSize)
  {
    seq(NumOut(step, at, |s|, inputSize), i requires 0 <= i < NumOut(step, at, |s|, inputSize) =>
      ProducedValue(step, mult, at, inputSize, s, i))
  }

  function ProducedValue(step: nat, mult: real, at: nat, inputSize: nat, s: seq<real>, i: nat): real
    requires step > 0 && i < NumOut(step, at, |s|, inputSize)
  {
    ReadsInside(step, at, |s|, inputSize, i);
    OutputAt(s, mult, at + Position(step, i))
  }

  // ---- any number of calls and arrivals ----

  datatype State = State(queue: seq<real>, at: nat, produced: seq<real>)

  function Fired(step: nat, mult: real, inputSize: nat, st: State): State
    requires step > 0
  {
    var end := EndOf(step, st.at, |st.queue|, inputSize);
    State(if Integer(end) <= |st.queue| then st.queue[Integer(end)..] else st.queue,
          Fraction(end), st.produced + Produced(step, mult, st.at, inputSize, st.queue))
  }

  function Run(step: nat, mult: real, inputSize: nat, first: seq<real>, events: seq<Event>): State
    requires step > 0
  {
    if events == [] then State(first, 0, [])
    else
      var st := Run(step, mult, inputSize, first, events[..|events| - 1]);
      match events[|events| - 1]
      case Arrive(samples) => State(st.queue + samples, st.at, st.produced)
      case Fire => Fired(step, mult, inputSize, st)
  }

  /** How many outputs a stream of the given length allows. */
  function Allowed(step: nat, length: nat): nat
    requires step > 0
  {
    Count(step, 0, Max(0, length - Max(3, Integer(step))) * ONE32)
  }

  ghost predicate OutputOk(step: nat, mult: real, x: seq<real>, out: seq<real>, k: nat)
    requires k < |out|
  {
    Integer(Position(step, k)) + 3 < |x| && out[k] == OutputAt(x, mult, Position(step, k))
  }

  /** Where a run stands: everything is determined by the stream and the number of outputs. */
  ghost predicate Tracks(step: nat, mult: real, x: seq<real>, st: State)
    requires step > 0
  {
    var end := Position(step, |st.produced|);
    && Integer(end) <= |x| && st.queue == x[Integer(end)..] && st.at == Fraction(end)
    && |st.produced| <= Allowed(step, |x|)
    && forall k: nat | k < |st.produced| :: OutputOk(step, mult, x, st.produced, k)
  }

  /** The same place seen from the whole stream and from a queue that starts d samples later. */
  lemma OutputMoved(mult: real, x: seq<real>, y: seq<real>, d: nat, at: nat)
    requires d + |y| <= |x| && y == x[d..d + |y|] && Integer(at) + 3 < |y|
    ensures Integer(d * ONE32 + at) + 3 < |x|
    ensures OutputAt(x, mult, d * ONE32 + at) == OutputAt(y, mult, at)
  {
    MovedParts(d, at);
    InterpolateIs(y, 1 + Integer(at), Portion(at));
    InterpolateIs(x, 1 + (d + Integer(at)), Portion(at));
    hide Interpolate;
  }

  lemma TracksArrival(step: nat, mult: real, x: seq<real>, st: State, samples: seq<real>)
    requires step > 0 && Tracks(step, mult, x, st)
    ensures Tracks(step, mult, x + samples, State(st.queue + samples, st.at, st.produced))
  {
    hide OutputAt, Count, Position;
    var y := x + samples;
    forall k: nat | k < |st.produced| ensures OutputOk(step, mult, y, st.produced, k) {
      assert OutputOk(step, mult, x, st.produced, k);
      OutputMoved(mult, y, x, 0, Position(step, k));
    }
    AllowedGrows(step, |x|, |y|);
  }

  lemma AllowedGrows(step: nat, length: nat, longer: nat)
    requires step > 0 && length <= longer
    ensures Allowed(step, length) <= Allowed(step, longer)
  {
    hide Count, Position;
    var c := Allowed(step, length);
    AllowedIs(step, longer, c);
    if c > 0 {
      AllowedIs(step, length, c - 1);
      AllowedIs(step, longer, c - 1);
    }
  }

  lemma AllowedIs(step: nat, length: nat, k: nat)
    requires step > 0
    ensures k < Allowed(step, length) <==> Integer(Position(step, k)) + Max(3, Integer(step)) < length
  {
    hide Position, Count;
    var n := Max(0, length - Max(3, Integer(step)));
    CountIs(step, 0, n * ONE32, k);
    BeforeWhole(Position(step, k), n);
  }

  /** Output k waits for three samples behind the one before it, or for a whole step of them. */
  lemma AllowedWithin(step: nat, length: nat, k: nat)
    requires step > 0
    ensures k < Allowed(step, length) <==> k * step / 4294967296 + Max(3, step / 4294967296) < length
  {
    hide Allowed;
    AllowedIs(step, length, k);
  }

  /** One call's places on the stream: d samples are gone, m outputs made. */
  lemma Accounts(step: nat, length: nat, m: nat, inputSize: nat)
    requires step > 0 && Integer(Position(step, m)) <= length && m <= Allowed(step, length)
    ensures var d, at := Integer(Position(step, m)), Fraction(Position(step, m));
            var k, end := NumOut(step, at, length - d, inputSize), EndOf(step, at, length - d, inputSize);
            && Position(step, m + k) == d * ONE32 + end
            && Integer(end) <= length - d
            && m + k <= Allowed(step, length)
            && (length - d <= Max(3, Integer(step)) + inputSize ==> m + k == Allowed(step, length))
  {
    hide Position, Count, Allowed, NumOut, NumIn, Integer, Fraction;
    var d, at := Integer(Position(step, m)), Fraction(Position(step, m));
    var k := NumOut(step, at, length - d, inputSize);
    WholeAndPart(Position(step, m));
    PositionSum(step, m, k);
    AdvanceInside(step, at, length - d, inputSize);
    if k > 0 {
      ReadsInside(step, at, length - d, inputSize, k - 1);
      PlaceOnStream(step, m, k - 1);
      NumInIs(step, length - d, inputSize);
      AllowedIs(step, length, m + (k - 1));
    }
    if length - d <= Max(3, Integer(step)) + inputSize {
      NumInIs(step, length - d, inputSize);
      NumOutStops(step, at, length - d, inputSize);
      PlaceOnStream(step, m, k);
      AllowedIs(step, length, m + k);
    }
  }

  lemma NumInIs(step: nat, queued: nat, inputSize: nat)
    ensures NumIn(step, queued, inputSize) > 0 ==> NumIn(step, queued, inputSize) + Max(3, Integer(step)) <= queued
    ensures queued <= Max(3, Integer(step)) + inputSize ==>
              queued <= NumIn(step, queued, inputSize) + Max(3, Integer(step))
  {
  }

  lemma NumOutStops(step: nat, at: nat, queued: nat, inputSize: nat)
    requires step > 0
    ensures NumIn(step, queued, inputSize) <= Integer(EndOf(step, at, queued, inputSize))
  {
    hide Position;
    var k, n := NumOut(step, at, queued, inputSize), NumIn(step, queued, inputSize);
    CountIs(step, at, n * ONE32, k);
    BeforeWhole(at + Position(step, k), n);
  }

  lemma PlaceOnStream(step: nat, m: nat, i: nat)
    ensures var d, at := Integer(Position(step, m)), Fraction(Position(step, m));
            && Position(step, m + i) == d * ONE32 + (at + Position(step, i))
            && Integer(Position(step, m + i)) == d + Integer(at + Position(step, i))
  {
    hide Position, Integer, Fraction;
    var d, at := Integer(Position(step, m)), Fraction(Position(step, m));
    PositionSum(step, m, i);
    WholeAndPart(Position(step, m));
    MovedParts(d, at + Position(step, i));
  }

  lemma TracksFire(step: nat, mult: real, inputSize: nat, x: seq<real>, st: State)
    requires step > 0 && Tracks(step, mult, x, st)
    ensures Tracks(step, mult, x, Fired(step, mult, inputSize, st))
    ensures |st.queue| <= Max(3, Integer(step)) + inputSize ==>
              |Fired(step, mult, inputSize, st).produced| == Allowed(step, |x|)
  {
    hide Position, Count, Allowed, NumOut, NumIn, Integer, Fraction, OutputAt, Produced;
    var s, m := st.queue, |st.produced|;
    var d := Integer(Position(step, m));
    Accounts(step, |x|, m, inputSize);
    var k, end := NumOut(step, st.at, |s|, inputSize), EndOf(step, st.at, |s|, inputSize);
    MovedParts(d, end);
    var next := Fired(step, mult, inputSize, st);
    forall q: nat | q < |next.produced| ensures OutputOk(step, mult, x, next.produced, q) {
      if q < m {
        assert OutputOk(step, mult, x, st.produced, q);
      } else {
        ProducedAt(step, mult, st.at, inputSize, s, q - m);
        PlaceOnStream(step, m, q - m);
        OutputMoved(mult, x, s, d, st.at + Position(step, q - m));
      }
    }
  }

  lemma ProducedAt(step: nat, mult: real, at: nat, inputSize: nat, s: seq<real>, i: nat)
    requires step > 0 && i < NumOut(step, at, |s|, inputSize)
    ensures Integer(at + Position(step, i)) + 3 < |s|
    ensures Produced(step, mult, at, inputSize, s)[i] == OutputAt(s, mult, at + Position(step, i))
  {
    hide Position, OutputAt, NumOut;
    ReadsInside(step, at, |s|, inputSize, i);
  }

  lemma {:induction false} RunTracks(step: nat, mult: real, inputSize: nat, first: seq<real>, events: seq<Event>)
    requires step > 0
    ensures Tracks(step, mult, Received(first, events), Run(step, mult, inputSize, first, events))
  {
    hide Position, Count, Fired, OutputOk;
    if events == [] {
      PositionSum(step, 0, 0);
    } else {
      var before := events[..|events| - 1];
      RunTracks(step, mult, inputSize, first, before);
      var x, st := Received(first, before), Run(step, mult, inputSize, first, before);
      match events[|events| - 1]
      case Arrive(samples) =>
        TracksArrival(step, mult, x, st, samples);
      case Fire =>
        TracksFire(step, mult, inputSize, x, st);
    }
  }

  /** However the samples arrive and the calls fall, output k is the interpolation of the whole
      stream at absolute position k*step, in units of 2^-32; what is still queued and the carried position
      depend on the stream and the number of outputs alone; and a call that the input size does
      not cut short brings the outputs up to date. */
  lemma RunIsInterpolation(step: nat, mult: real, inputSize: nat, first: seq<real>, events: seq<Event>)
    requires step > 0
    ensures var x, st := Received(first, events), Run(step, mult, inputSize, first, events);
            && (forall k: nat | k < |st.produced| :: Integer(Position(step, k)) + 3 < |x|)
            && (forall k: nat | k < |st.produced| :: st.produced[k] == OutputAt(x, mult, Position(step, k)))
            && |st.produced| <= Allowed(step, |x|)
            && Integer(Position(step, |st.produced|)) <= |x|
            && st.queue == x[Integer(Position(step, |st.produced|))..]
            && st.at == Fraction(Position(step, |st.produced|))
            && (|st.queue| <= Max(3, Integer(step)) + inputSize ==>
                  |Run(step, mult, inputSize, first, events + [Fire]).produced| == Allowed(step, |x|))
  {
    hide OutputAt, Count, Allowed, Fired, Position, Integer, Fraction;
    var x, st := Received(first, events), Run(step, mult, inputSize, first, events);
    RunTracks(step, mult, inputSize, first, events);
    forall k: nat | k < |st.produced|
      ensures Integer(Position(step, k)) + 3 < |x| && st.produced[k] == OutputAt(x, mult, Position(step, k))
    {
      assert OutputOk(step, mult, x, st.produced, k);
    }
    assert (events + [Fire])[..|events|] == events;
    TracksFire(step, mult, inputSize, x, st);
  }

  // ---- polynomials ----

  function Time(step: nat, k: nat): real {
    Position(step, k) as real / ONE32 as real
  }

  lemma TimeParts(at: nat)
    ensures at as real / ONE32 as real == Integer(at) as real + Portion(at)
    ensures 0.0 <= Portion(at) < 1.0 && (Portion(at) == 0.0 <==> Fraction(at) == 0)
  {
    WholeAndPart(at);
    hide *;
    PortionIs(at);
    assert at as real == Integer(at) as real * ONE32 as real + Fraction(at) as real;
  }

  lemma PortionIs(at: nat)
    ensures Portion(at) == Fraction(at) as real / ONE32 as real
  {
  }

  /** Input sampled from a polynomial of degree at most 3 (sample j of the input is entry j+1 of
      the stream, after the preloaded zero) comes out as that polynomial at the output's own
      time, as soon as the four samples around that time are all input. */
  lemma PolynomialExact(x: seq<real>, mult: real, step: nat, k: nat, p: Cubic)
    requires 1 <= Integer(Position(step, k)) && Integer(Position(step, k)) + 3 < |x|
    requires forall j: nat | 1 <= j < |x| :: x[j] == p.At((j - 1) as real)
    ensures OutputAt(x, mult, Position(step, k)) == mult * p.At(Time(step, k))
  {
    hide *;
    var at := Position(step, k);
    var b := 1 + Integer(at);
    var q := p.Moved(-1.0);
    MovedSamples(x, p);
    InterpolateExact(x, b, Portion(at), q);
    TimeParts(at);
    MovedAt(p, -1.0, b as real + Portion(at));
    assert -1.0 + (b as real + Portion(at)) == Integer(at) as real + Portion(at);
    TimeIs(step, k);
    OutputIs(x, mult, at);
  }

  lemma MovedSamples(x: seq<real>, p: Cubic)
    requires forall j: nat | 1 <= j < |x| :: x[j] == p.At((j - 1) as real)
    ensures forall i: nat | 1 <= i < |x| :: x[i] == p.Moved(-1.0).At(i as real)
  {
    hide *;
    forall i: nat | 1 <= i < |x| ensures x[i] == p.Moved(-1.0).At(i as real) {
      MovedAt(p, -1.0, i as real);
      assert -1.0 + i as real == (i - 1) as real;
    }
  }

  lemma TimeIs(step: nat, k: nat)
    ensures Time(step, k) == Position(step, k) as real / ONE32 as real
  {
  }

  lemma OutputIs(x: seq<real>, mult: real, at: nat)
    requires Integer(at) + 3 < |x|
    ensures OutputAt(x, mult, at) == mult * Interpolate(x, 1 + Integer(at), Portion(at))
  {
  }

  /** The outputs before the first whole sample look back at the preloaded zero instead of the
      polynomial's own value one sample before the start: they are exact just when they are taken
      on the first sample, or that value is zero too (or nothing is heard). */
  lemma FirstOutputs(x: seq<real>, mult: real, step: nat, k: nat, p: Cubic)
    requires Integer(Position(step, k)) == 0 && 3 < |x| && x[0] == 0.0
    requires forall j: nat | 1 <= j < |x| :: x[j] == p.At((j - 1) as real)
    ensures OutputAt(x, mult, Position(step, k)) == mult * p.At(Time(step, k)) <==>
            mult == 0.0 || Fraction(Position(step, k)) == 0 || p.At(-1.0) == 0.0
  {
    hide *;
    var at := Position(step, k);
    var y := Portion(at);
    TimeParts(at);
    OutputIs(x, mult, at);
    TimeIs(step, k);
    var f := FirstError(y);
    FirstErrorZero(y);
    FirstDifference(x, y, p);
    ProductZero(mult, p.At(-1.0), f, Interpolate(x, 1, y), p.At(y));
  }

  function FirstError(y: real): real {
    y * (1.0 - y) * (2.0 - y) / 6.0
  }

  lemma FirstDifference(x: seq<real>, y: real, p: Cubic)
    requires 3 < |x| && x[0] == 0.0
    requires forall j: nat | 1 <= j < |x| :: x[j] == p.At((j - 1) as real)
    ensures Interpolate(x, 1, y) - p.At(y) == p.At(-1.0) * FirstError(y)
  {
    hide *;
    assert x[1] == p.At(0.0) && x[2] == p.At(1.0) && x[3] == p.At(2.0);
    InterpolateIs(x, 1, y);
    FourPoints(p, p.At(-1.0), x[1], x[2], x[3], y);
    FirstSample(p.At(-1.0), 0.0, x[1], x[2], x[3], y);
    assert (p.At(-1.0) - 0.0) * FirstError(y) == p.At(-1.0) * FirstError(y);
  }

  lemma FirstErrorZero(y: real)
    requires 0.0 <= y < 1.0
    ensures FirstError(y) == 0.0 <==> y == 0.0
  {
    if y > 0.0 {
      PositiveProduct(y, 1.0 - y);
      PositiveProduct(y * (1.0 - y), 2.0 - y);
    }
  }

  lemma ProductZero(mult: real, v: real, f: real, a: real, b: real)
    requires a - b == v * f
    ensures mult * a == mult * b <==> mult == 0.0 || f == 0.0 || v == 0.0
  {
    assert mult * a - mult * b == mult * (a - b);
  }

  // ---- the stage ----

  /** max_num_out, line 53, is room enough. */
  lemma RoomEnough(step: nat, at: nat, numIn: nat, ratio: real)
    requires step > 0 && ratio == ONE32 as real / step as real
    ensures 0 <= (numIn as real * ratio).Floor
    ensures Count(step, at, numIn * ONE32) <= 1 + (numIn as real * ratio).Floor
  {
    var limit := numIn * ONE32;
    var f := (numIn as real * ratio).Floor;
    assert numIn as real * ratio == limit as real / step as real;
    hide *;
    RatioPositive(limit, step);
    FloorBelow(limit, step, f);
    CountIs(step, at, limit, f + 1);
    assert limit <= Position(step, f + 1);
  }

  lemma RatioPositive(limit: nat, step: nat)
    requires step > 0
    ensures limit as real / step as real >= 0.0
  {
  }

  lemma FloorBelow(limit: nat, step: nat, f: int)
    requires step > 0 && f >= 0 && limit as real / step as real < f as real + 1.0
    ensures limit <= Position(step, f + 1)
  {
    var r := limit as real / step as real;
    assert limit as real == r * step as real;
    RealMulLe(r, (f + 1) as real, step as real);
    assert (f + 1) as real * step as real == ((f + 1) * step) as real;
  }

  class Stage {
    const fifo: Fifo<real>
    var at: nat
    const step: nat
    const mult: real
    const prePost: nat
    const inputSize: nat
    const outInRatio: real

    ghost predicate Valid()
      reads this, fifo
    {
      Ready() && at < ONE32
    }

    /** All but what the loop of a call breaks for a while. */
    ghost predicate Ready()
      reads fifo
    {
      && fifo.Valid() && fifo.itemSize == 1
      && step > 0 && prePost == Max(3, Integer(step)) && outInRatio == ONE32 as real / step as real
    }

    /** Lines 390-397 and 487-490 of cr.c: the queue starts with one zero. */
    constructor (step: nat, mult: real, inputSize: nat)
      requires step > 0
      ensures Valid() && fresh(fifo) && fresh(fifo.data)
      ensures this.step == step && this.mult == mult && this.inputSize == inputSize
      ensures at == 0 && fifo.Contents() == [0.0]
    {
      this.step, this.mult, this.inputSize := step, mult, inputSize;
      prePost := Max(3, Integer(step));
      outInRatio := ONE32 as real / step as real;
      at := 0;
      fifo := new Fifo<real>(1);
      new;
      var zeros := new real[1](_ => 0.0);
      var p := fifo.Write(1, zeros);
    }

    method Call(output: Fifo<real>)
      requires Valid() && output.Valid() && output.itemSize == 1
      requires output != fifo && output.data != fifo.data
      modifies this`at, fifo, output, output.data
      ensures Valid() && output.Valid() && (output.data == old(output.data) || fresh(output.data))
      ensures fifo.data == old(fifo.data)
      ensures State(fifo.Contents(), at, output.Contents()) ==
              Fired(step, mult, inputSize, old(State(fifo.Contents(), at, output.Contents())))
    {
      hide Produced, NumOut, EndOf, Integer, Fraction, Available, Max, NumIn;
      ghost var s, at0 := fifo.Contents(), at;
      var occupancy := fifo.Occupancy();
      var numIn := Available(occupancy, prePost, inputSize);
      NumInDef(step, |s|, inputSize);
      var maxNumOut := 1 + (numIn as real * outInRatio).Floor;
      RoomEnough(step, at, numIn, outInRatio);
      NumOutDef(step, at, |s|, inputSize);
      var i := Deliver(output, numIn, maxNumOut);
      AdvanceInside(step, at0, |s|, inputSize);
      var r := fifo.Read(Integer(at), null);
      at := Fraction(at);
      WholeAndPart(EndOf(step, at0, |s|, inputSize));
    }

    method Deliver(output: Fifo<real>, numIn: nat, maxNumOut: nat) returns (i: nat)
      requires Ready() && output.Valid() && output.itemSize == 1
      requires output != fifo && output.data != fifo.data
      requires numIn == NumIn(step, |fifo.Contents()|, inputSize)
      requires NumOut(step, at, |fifo.Contents()|, inputSize) <= maxNumOut
      modifies this`at, output, output.data
      ensures output.Valid() && (output.data == old(output.data) || fresh(output.data))
      ensures output.Contents() == old(output.Contents()) + Produced(step, mult, old(at), inputSize, fifo.Contents())
      ensures at == EndOf(step, old(at), |fifo.Contents()|, inputSize)
    {
      ghost var s := fifo.Contents();
      ghost var y := Produced(step, mult, at, inputSize, s);
      hide Produced, NumOut, EndOf, Integer, NumIn, Max;
      var p := output.Reserve(maxNumOut);
      i := Fill(output.data, p, numIn, maxNumOut);
      SplitCells(output.data[..], output.begin, p, i, maxNumOut, y);
      output.TrimBy(maxNumOut - i);
    }

    /** Lines 56-62. */
    method Fill(output: array<real>, p: nat, numIn: nat, maxNumOut: nat) returns (i: nat)
      requires Ready() && output != fifo.data && p + maxNumOut <= output.Length
      requires numIn == NumIn(step, |fifo.Contents()|, inputSize)
      requires NumOut(step, at, |fifo.Contents()|, inputSize) <= maxNumOut
      modifies this`at, output
      ensures i == NumOut(step, old(at), |fifo.Contents()|, inputSize)
      ensures output[..p] == old(output[..p])
      ensures output[p..p + i] == Produced(step, mult, old(at), inputSize, fifo.Contents())
      ensures at == EndOf(step, old(at), |fifo.Contents()|, inputSize)
    {
      ghost var s, at0 := fifo.Contents(), at;
      ghost var y := Produced(step, mult, at0, inputSize, s);
      hide *;
      i := 0;
      NumOutDef(step, at0, |s|, inputSize);
      PositionSum(step, 0, 0);
      while Integer(at) < numIn
        invariant at == at0 + Position(step, i)
        invariant i <= |y|
        invariant i > 0 ==> at0 + Position(step, i - 1) < numIn * ONE32
        invariant output[..p] == old(output[..p])
        invariant output[p..p + i] == y[..i]
        decreases |y| - i
      {
        BeforeWhole(at, numIn);
        CountIs(step, at0, numIn * ONE32, i);
        PositionSum(step, i, 1);
        Store(output, p + i, y[i], at0, i);
        i, at := i + 1, at + step;
        assert output[p..p + i] == y[..i];
      }
      BeforeWhole(at, numIn);
      CountUnique(step, at0, numIn * ONE32, i);
    }

    method Store(output: array<real>, p: nat, ghost y: real, ghost at0: nat, ghost i: nat)
      requires Ready() && output != fifo.data && p < output.Length
      requires i < NumOut(step, at0, |fifo.Contents()|, inputSize) && at == at0 + Position(step, i)
      requires y == Produced(step, mult, at0, inputSize, fifo.Contents())[i]
      modifies output
      ensures output[..] == old(output[..])[p := y]
    {
      ProducedAt(step, mult, at0, inputSize, fifo.Contents(), i);
      hide Produced, OutputAt, NumOut, Position;
      output[p] := Sample(fifo.begin + 1 + Integer(at));
    }

    /** Lines 57-61, with s pointing at cell q of the queue's buffer. */
    method Sample(q: nat) returns (y: real)
      requires Ready() && fifo.begin < q && q + 2 < fifo.end && Integer(at) == q - fifo.begin - 1
      ensures Integer(at) + 3 < |fifo.Contents()|
      ensures y == OutputAt(fifo.Contents(), mult, at)
    {
      var x := Fraction(at) as real * (1.0 / ONE32 as real);
      var d := fifo.data;
      var b := 0.5 * (d[q + 1] + d[q - 1]) - d[q];
      var a := (1.0 / 6.0) * (d[q + 2] - d[q + 1] + d[q - 1] - d[q] - 4.0 * b);
      var c := d[q + 1] - d[q] - a - b;
      y := mult * (((a * x + b) * x + c) * x + d[q]);
      CellsAround(q);
      OutputIs(fifo.Contents(), mult, at);
      InterpolateIs(fifo.Contents(), 1 + Integer(at), x);
    }

    lemma CellsAround(q: nat)
      requires fifo.Valid() && fifo.begin < q && q + 2 < fifo.end
      ensures var s, b := fifo.Contents(), q - fifo.begin;
              && |s| == fifo.end - fifo.begin && s[b - 1] == fifo.data[q - 1] && s[b] == fifo.data[q]
              && s[b + 1] == fifo.data[q + 1] && s[b + 2] == fifo.data[q + 2]
    {
    }
  }

  lemma NumInDef(step: nat, queued: nat, inputSize: nat)
    ensures NumIn(step, queued, inputSize) == Available(queued, Max(3, Integer(step)), inputSize)
  {
  }

  lemma NumOutDef(step: nat, at: nat, queued: nat, inputSize: nat)
    requires step > 0
    ensures NumOut(step, at, queued, inputSize) == Count(step, at, NumIn(step, queued, inputSize) * ONE32)
    ensures EndOf(step, at, queued, inputSize) == at + Position(step, NumOut(step, at, queued, inputSize))
  {
  }
}
