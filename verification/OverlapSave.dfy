/** The stage that filters by blocks (soxr-sys/src/cr.c, dft_stage_fn, lines 68-174), seen from
    outside: what it takes, what it makes and what it carries from block to block.  That a block's
    values are these ones is proved in DftStage. */
module OverlapSave {
  import opened Arith
  import opened Streams

  /** L, M, dft_length, the filter before it is wrapped and transformed, and the overall gain;
      spectral says that the zeros are stuffed in the frequency domain. */
  datatype Filter = Filter(up: nat, down: nat, size: nat, taps: seq<real>, gain: real, spectral: bool) {
    predicate Sound() {
      1 <= up && 1 <= down && 1 <= |taps| <= size
    }

    /** Line 245: a transform yields so many values of the linear filter. */
    function Block(): (b: nat)
      requires Sound()
      ensures 1 <= b <= size
    {
      size - (|taps| - 1)
    }
  }

  // ---- the filter ----

  /** The stream x with up - 1 zeros after every sample, beginning at place first. */
  function Stuffed(x: seq<real>, up: nat, first: int, i: int): real
    requires up > 0
  {
    if i >= first && (i - first) % up == 0 && (i - first) / up < |x| then x[(i - first) / up] else 0.0
  }

  /** The first size places of the stuffed stream, as a block. */
  function Spread(x: seq<real>, up: nat, first: int, size: nat): (r: seq<real>)
    requires up > 0
    ensures |r| == size
    ensures forall i: nat | i < size :: r[i] == Stuffed(x, up, first, i)
  {
    seq(size, i requires 0 <= i < size => Stuffed(x, up, first, i))
  }

  /** The part of the filter's value at v that the last t taps make up. */
  function FirSum(h: seq<real>, x: seq<real>, up: nat, first: int, v: nat, t: nat): real
    requires up > 0 && t <= |h|
  {
    if t == 0 then 0.0
    else FirSum(h, x, up, first, v, t - 1) + Weigh(h[|h| - t], Stuffed(x, up, first, v + (t - 1)))
  }

  /** Value v of the zero-stuffed stream filtered by all the taps. */
  function Value(f: Filter, x: seq<real>, first: int, v: nat): real
    requires f.Sound()
  {
    Weigh(f.gain, FirSum(f.taps, x, f.up, first, v, |f.taps|))
  }

  // ---- one call ----

  /** Line 76. */
  predicate Fires(f: Filter, at: nat, queued: nat) {
    at + Position(f.up, queued) >= f.size
  }

  /** divd.quot, line 79. */
  function Consumed(f: Filter, at: nat): nat
    requires f.Sound() && at < f.up
  {
    (f.Block() - at + f.up - 1) / f.up
  }

  /** Where in the buffer the first sample goes. */
  function Start(f: Filter, at: nat): nat {
    if f.spectral then 0 else at
  }

  function NextAt(f: Filter, at: nat): nat
    requires f.Sound() && at < f.up
  {
    if f.spectral then at else f.up - 1 - (f.Block() - at + f.up - 1) % f.up
  }

  /** How many values of a block are kept, and the first place beyond them. */
  function Kept(f: Filter, remM: nat): nat
    requires f.Sound()
  {
    Count(f.down, remM, f.Block())
  }

  function NextRem(f: Filter, remM: nat): int
    requires f.Sound()
  {
    remM + Position(f.down, Kept(f, remM)) - f.Block()
  }

  /** Lines 173 and 247. */
  function InputSize(f: Filter, at: nat): nat
    requires f.Sound() && at < f.up
  {
    (f.size - at + f.up - 1) / f.up
  }

  function Produced(f: Filter, s: seq<real>, at: nat, remM: nat): (out: seq<real>)
    requires f.Sound()
    ensures |out| == Kept(f, remM)
  {
    seq(Kept(f, remM), j requires 0 <= j < Kept(f, remM) => Value(f, s, Start(f, at), remM + Position(f.down, j)))
  }

  datatype State = State(queue: seq<real>, at: nat, remM: nat, inputSize: nat, produced: seq<real>)

  ghost predicate Ready(f: Filter, st: State) {
    f.Sound() && st.at < f.up && st.remM < f.down && st.inputSize == InputSize(f, st.at)
  }

  function Fired(f: Filter, st: State): (r: State)
    requires f.Sound() && st.at < f.up && st.remM < f.down
  {
    if Fires(f, st.at, |st.queue|) then
      StepFacts(f, st.at, st.remM, |st.queue|);
      State(st.queue[Consumed(f, st.at)..], NextAt(f, st.at), NextRem(f, st.remM),
            InputSize(f, NextAt(f, st.at)), st.produced + Produced(f, st.queue, st.at, st.remM))
    else st.(inputSize := InputSize(f, st.at))
  }

  // ---- the arithmetic of one call ----

  lemma CeilIs(a: int, b: nat) returns (r: nat)
    requires b > 0 && a + b - 1 >= 0
    ensures (a + b - 1) / b >= 0 && r == (a + b - 1) % b < b
    ensures Position(b, (a + b - 1) / b) == a + b - 1 - r
  {
    r := (a + b - 1) % b;
  }

  lemma CeilLeast(a: int, b: nat, k: nat)
    requires b > 0 && a + b - 1 >= 0
    ensures Position(b, k) >= a <==> k >= (a + b - 1) / b
  {
    var c := (a + b - 1) / b;
    var r := CeilIs(a, b);
    if k >= c {
      MulLe(b, c, k);
    } else {
      MulLe(b, k + 1, c);
      MulDistrib(b, k, 1);
    }
  }

  /** input_size is the least occupancy at which a block fires. */
  lemma InputSizeIsLeast(f: Filter, at: nat, queued: nat)
    requires f.Sound() && at < f.up
    ensures Fires(f, at, queued) <==> queued >= InputSize(f, at)
  {
    hide Position;
    CeilLeast(f.size - at, f.up, queued);
  }

  /** What one block takes and leaves, in zero-stuffed places. */
  lemma StepFacts(f: Filter, at: nat, remM: nat, queued: nat)
    requires f.Sound() && at < f.up && remM < f.down
    ensures NextAt(f, at) < f.up && 0 <= NextRem(f, remM) < f.down
    ensures !f.spectral ==> at + Position(f.up, Consumed(f, at)) == f.Block() + NextAt(f, at)
    ensures Fires(f, at, queued) ==> Consumed(f, at) <= queued
  {
    hide Position, Count;
    var r := CeilIs(f.Block() - at, f.up);
    CeilLeast(f.Block() - at, f.up, queued);
    var k := Kept(f, remM);
    CountIs(f.down, remM, f.Block(), k);
    if k > 0 {
      CountIs(f.down, remM, f.Block(), k - 1);
      PositionSum(f.down, k - 1, 1);
    } else {
      PositionSum(f.down, 0, 0);
    }
  }

  /** In the frequency domain at never moves, so a block must take exactly what it makes: that is
      so just when the block length is a multiple of L, that is, one tap more than a multiple. */
  lemma SpectralStep(f: Filter, at: nat)
    requires f.Sound() && at < f.up && f.size % f.up == 0
    ensures Position(f.up, Consumed(f, at)) == f.Block() <==> |f.taps| % f.up == 1 % f.up
  {
    var r := CeilIs(f.Block() - at, f.up);
    hide Position;
    TapsAligned(f.size, |f.taps|, f.up);
    PositionAligned(f.up, Consumed(f, at));
    if f.Block() % f.up == 0 {
      AlignedCeil(f.up, f.Block(), at, r, Consumed(f, at));
    }
  }

  lemma PositionAligned(b: nat, k: nat)
    requires b > 0
    ensures Position(b, k) % b == 0
  {
    DigitsDivMod(b, 0, k);
  }

  lemma TapsAligned(size: nat, taps: nat, up: nat)
    requires up > 0 && 1 <= taps <= size && size % up == 0
    ensures (size - (taps - 1)) % up == 0 <==> taps % up == 1 % up
  {
    AlignedApart(size, taps - 1, up);
    OneMore(taps - 1, up);
  }

  lemma AlignedApart(s: nat, t: nat, b: nat)
    requires b > 0 && t <= s && s % b == 0
    ensures (s - t) % b == 0 <==> t % b == 0
  {
    if t % b == 0 {
      MultipleApart(b, s, t);
    }
    if (s - t) % b == 0 {
      MultipleApart(b, s, s - t);
    }
  }

  lemma OneMore(t: nat, b: nat)
    requires b > 0
    ensures (t + 1) % b == 1 % b <==> t % b == 0
  {
    var q, r := t / b, t % b;
    assert t == r + b * q;
    if b > 1 {
      DigitsDivMod(b, 1, 0);
      if r + 1 < b {
        DigitsDivMod(b, r + 1, q);
      } else {
        MulDistrib(b, q, 1);
        ProductIsMultiple(b, q + 1);
      }
    }
  }

  lemma AlignedCeil(b: nat, a: nat, at: nat, r: nat, k: nat)
    requires b > 0 && a % b == 0 && at < b && r < b && Position(b, k) == a - at + b - 1 - r
    ensures Position(b, k) == a
  {
    var d, q := b - 1 - r - at, a / b;
    assert a == b * q;
    PositionIs(b, k);
    hide Position;
    if d > 0 {
      DigitsUnique(b, d, q, 0, k);
    } else if d < 0 {
      MulDistrib(b, q, 1);
      DigitsUnique(b, d + b, q - 1, 0, k);
    }
  }

  lemma PositionIs(b: nat, k: nat)
    ensures Position(b, k) == b * k
  {
  }

  // ---- any number of calls and arrivals ----

  function Run(f: Filter, at: nat, first: seq<real>, events: seq<Event>): (st: State)
    requires f.Sound() && at < f.up
    ensures Ready(f, st)
  {
    if events == [] then State(first, at, 0, InputSize(f, at), [])
    else
      var st := Run(f, at, first, events[..|events| - 1]);
      match events[|events| - 1]
      case Arrive(samples) => st.(queue := st.queue + samples)
      case Fire =>
        StepFacts(f, st.at, st.remM, |st.queue|);
        Fired(f, st)
  }

  /** How far apart on the stream consecutive blocks begin: when at stands still, what a block
      takes, else what it makes. */
  function Stride(f: Filter, at: nat): nat
    requires f.Sound() && at < f.up
  {
    if f.spectral then Position(f.up, Consumed(f, at)) else f.Block()
  }

  /** The place on the stuffed stream where the stage's value v is taken. */
  function Place(f: Filter, at: nat, v: nat): nat
    requires f.Sound() && at < f.up
  {
    if f.spectral then Position(Stride(f, at), v / f.Block()) + v % f.Block() else v
  }

  /** A transform that can be divided by L; so it is whenever the zeros are stuffed there. */
  predicate Whole(f: Filter) {
    f.spectral ==> f.up > 0 && f.size % f.up == 0
  }

  /** Where a run from at stands after n blocks, with c samples gone: the accounts in zero-stuffed
      places, and every output a value of the one filter over the whole stream. */
  ghost predicate Tracks(f: Filter, at: nat, x: seq<real>, st: State, n: nat, c: nat)
    requires f.Sound() && at < f.up
  {
    && Ready(f, st) && (f.spectral ==> st.at == at)
    && c <= |x| && st.queue == x[c..]
    && Position(Stride(f, at), n) + st.at == at + Position(f.up, c)
    && Position(f.down, |st.produced|) == Position(f.Block(), n) + st.remM
    && (n > 0 ==> Position(Stride(f, at), n - 1) + f.size <= at + Position(f.up, |x|))
    && forall q: nat | q < |st.produced| :: OutputOk(f, at, x, st.produced, q)
  }

  /** Output q is the filter's value at its place, and no later sample can change it. */
  ghost predicate OutputOk(f: Filter, at: nat, x: seq<real>, out: seq<real>, q: nat)
    requires f.Sound() && at < f.up && q < |out|
  {
    var v := Place(f, at, Position(f.down, q));
    v + |f.taps| <= Start(f, at) + Position(f.up, |x|) && out[q] == Value(f, x, Start(f, at), v)
  }

  lemma StuffedMoved(x: seq<real>, y: seq<real>, up: nat, first: int, at: int, c: nat, d: int, i: int)
    requires up > 0 && c + |y| <= |x| && y == x[c..c + |y|]
    requires d + at == first + Position(up, c) && at < up
    requires 0 <= i < at + Position(up, |y|) && d >= 0 && 0 <= at
    ensures Stuffed(x, up, first, d + i) == Stuffed(y, up, at, i)
  {
    var k := i - at;
    PositionIs(up, c);
    PositionIs(up, |y|);
    var q, r := k / up, k % up;
    assert k == up * q + r;
    MulDistrib(up, q, c);
    assert d + i - first == r + up * (q + c);
    DigitsDivMod(up, r, q + c);
    hide Position;
    if i >= at {
      if q >= |y| {
        MulLe(up, |y|, q);
      }
    } else {
      SmallNegative(up, k);
    }
  }

  lemma SmallNegative(up: nat, k: int)
    requires 0 - up as int < k < 0
    ensures k % up != 0
  {
    DigitsDivMod(up, k + up, -1);
  }

  lemma {:induction false} FirMoved(h: seq<real>, x: seq<real>, y: seq<real>, up: nat, first: nat, at: nat, c: nat,
                                    d: nat, v: nat, t: nat)
    requires up > 0 && t <= |h| && c + |y| <= |x| && y == x[c..c + |y|]
    requires d + at == first + Position(up, c) && at < up
    requires v + t <= at + Position(up, |y|)
    ensures FirSum(h, x, up, first, d + v, t) == FirSum(h, y, up, at, v, t)
  {
    hide Position, Stuffed, Weigh;
    if t > 0 {
      FirMoved(h, x, y, up, first, at, c, d, v, t - 1);
      StuffedMoved(x, y, up, first, at, c, d, v + (t - 1));
      assert d + (v + (t - 1)) == (d + v) + (t - 1);
    }
  }

  lemma PositionGrows(step: nat, a: nat, b: nat)
    requires a <= b
    ensures Position(step, a) <= Position(step, b)
  {
    MulLe(step, a, b);
  }

  lemma TracksArrival(f: Filter, at: nat, x: seq<real>, st: State, n: nat, c: nat, samples: seq<real>)
    requires f.Sound() && at < f.up && Tracks(f, at, x, st, n, c)
    ensures Tracks(f, at, x + samples, st.(queue := st.queue + samples), n, c)
  {
    hide Position, FirSum, Fired, Place, Stride, Start;
    var y := x + samples;
    PositionGrows(f.up, |x|, |y|);
    PositionSum(f.up, 0, 0);
    StartBelow(f, at);
    forall q: nat | q < |st.produced| ensures OutputOk(f, at, y, st.produced, q) {
      assert OutputOk(f, at, x, st.produced, q);
      var first, v := Start(f, at), Place(f, at, Position(f.down, q));
      FirMoved(f.taps, y, x, f.up, first, first, 0, 0, v, |f.taps|);
    }
    assert y[c..] == x[c..] + samples;
  }

  lemma StartBelow(f: Filter, at: nat)
    ensures Start(f, at) <= at
  {
  }

  /** With a whole transform, the gap before the first sample does not matter to when a block
      fires. */
  lemma FiresWhole(f: Filter, at: nat, queued: nat)
    requires f.Sound() && at < f.up && Whole(f) && f.spectral
    ensures Fires(f, at, queued) <==> Fires(f, 0, queued)
  {
    var k := f.size / f.up;
    assert f.size == f.up * k;
    PositionIs(f.up, queued);
    if queued < k {
      MulLe(f.up, queued + 1, k);
      MulDistrib(f.up, queued, 1);
    } else {
      MulLe(f.up, k, queued);
    }
    hide Position;
  }

  /** Value v of block n, on the stream. */
  lemma PlaceOfBlock(f: Filter, at: nat, n: nat, v: nat)
    requires f.Sound() && at < f.up && v < f.Block()
    ensures Place(f, at, Position(f.Block(), n) + v) == Position(Stride(f, at), n) + v
  {
    PositionIs(f.Block(), n);
    hide Position, Stride;
    StrideIs(f, at);
    DigitsDivMod(f.Block(), v, n);
  }

  lemma StrideIs(f: Filter, at: nat)
    requires f.Sound() && at < f.up
    ensures !f.spectral ==> Stride(f, at) == f.Block()
    ensures f.spectral ==> Stride(f, at) == Position(f.up, Consumed(f, at))
  {
  }

  /** The outputs of the block that fires are values of the filter on the whole stream. */
  lemma BlockOutputs(f: Filter, at: nat, x: seq<real>, st: State, n: nat, c: nat, j: nat)
    requires f.Sound() && at < f.up && Tracks(f, at, x, st, n, c) && Whole(f)
    requires Fires(f, st.at, |st.queue|) && j < Kept(f, st.remM)
    ensures var v := Place(f, at, Position(f.down, |st.produced| + j));
            && v + |f.taps| <= Start(f, at) + Position(f.up, |x|)
            && Produced(f, st.queue, st.at, st.remM)[j] == Value(f, x, Start(f, at), v)
  {
    hide Position, FirSum, Place, Stride;
    var v := st.remM + Position(f.down, j);
    CountIs(f.down, st.remM, f.Block(), j);
    PositionSum(f.down, |st.produced|, j);
    PositionSum(f.up, c, |st.queue|);
    PlaceOfBlock(f, at, n, v);
    if f.spectral {
      FiresWhole(f, at, |st.queue|);
      FirMoved(f.taps, x, st.queue, f.up, 0, 0, c, Position(Stride(f, at), n), v, |f.taps|);
    } else {
      FirMoved(f.taps, x, st.queue, f.up, at, st.at, c, Position(Stride(f, at), n), v, |f.taps|);
    }
  }

  lemma TracksFire(f: Filter, at: nat, x: seq<real>, st: State, n: nat, c: nat)
    requires f.Sound() && at < f.up && Tracks(f, at, x, st, n, c) && Whole(f)
    ensures if Fires(f, st.at, |st.queue|) then Tracks(f, at, x, Fired(f, st), n + 1, c + Consumed(f, st.at))
            else Fired(f, st) == st
  {
    hide Position, FirSum, Produced, Count, Consumed, InputSize, Kept, Value, NextAt, NextRem, Start, Stride, Place;
    if Fires(f, st.at, |st.queue|) {
      StepFacts(f, st.at, st.remM, |st.queue|);
      FireAccounts(f, at, x, st, n, c);
      FireOutputs(f, at, x, st, n, c);
    }
  }

  lemma FireAccounts(f: Filter, at: nat, x: seq<real>, st: State, n: nat, c: nat)
    requires f.Sound() && at < f.up && Tracks(f, at, x, st, n, c) && Fires(f, st.at, |st.queue|)
    ensures var k, d := Kept(f, st.remM), Consumed(f, st.at);
            && (f.spectral ==> NextAt(f, st.at) == at)
            && Position(Stride(f, at), n + 1) + NextAt(f, st.at) == at + Position(f.up, c + d)
            && Position(f.down, |st.produced| + k) == Position(f.Block(), n + 1) + NextRem(f, st.remM)
            && Position(Stride(f, at), n) + f.size <= at + Position(f.up, |x|)
  {
    hide Position, OutputOk, Count, Consumed, InputSize, Kept, NextRem, Stride;
    var k, d := Kept(f, st.remM), Consumed(f, st.at);
    StepFacts(f, st.at, st.remM, |st.queue|);
    StrideIs(f, at);
    PositionSum(f.up, c, d);
    PositionSum(f.up, c, |st.queue|);
    PositionSum(f.Block(), n, 1);
    PositionSum(Stride(f, at), n, 1);
    PositionSum(f.down, |st.produced|, k);
    NextRemIs(f, st.remM);
  }

  lemma FireOutputs(f: Filter, at: nat, x: seq<real>, st: State, n: nat, c: nat)
    requires f.Sound() && at < f.up && Tracks(f, at, x, st, n, c) && Whole(f) && Fires(f, st.at, |st.queue|)
    ensures var out := st.produced + Produced(f, st.queue, st.at, st.remM);
            forall q: nat | q < |out| :: OutputOk(f, at, x, out, q)
  {
    hide Position, Produced, Value, Kept, Fires, Place, Stride, Start;
    var out := st.produced + Produced(f, st.queue, st.at, st.remM);
    forall q: nat | q < |out| ensures OutputOk(f, at, x, out, q) {
      if q < |st.produced| {
        assert OutputOk(f, at, x, st.produced, q);
      } else {
        BlockOutputs(f, at, x, st, n, c, q - |st.produced|);
      }
    }
  }

  lemma NextRemIs(f: Filter, remM: nat)
    requires f.Sound()
    ensures NextRem(f, remM) == remM + Position(f.down, Kept(f, remM)) - f.Block()
  {
  }

  lemma {:induction false} RunTracks(f: Filter, at: nat, first: seq<real>, events: seq<Event>) returns (n: nat, c: nat)
    requires f.Sound() && at < f.up && Whole(f)
    ensures Tracks(f, at, Received(first, events), Run(f, at, first, events), n, c)
  {
    hide Position, OutputOk, Fired, InputSize, Stride;
    if events == [] {
      n, c := 0, 0;
      PositionSum(f.up, 0, 0);
      PositionSum(f.down, 0, 0);
      PositionSum(f.Block(), 0, 0);
      PositionSum(Stride(f, at), 0, 0);
    } else {
      var before := events[..|events| - 1];
      n, c := RunTracks(f, at, first, before);
      var x, st := Received(first, before), Run(f, at, first, before);
      match events[|events| - 1]
      case Arrive(samples) =>
        TracksArrival(f, at, x, st, n, c, samples);
      case Fire =>
        TracksFire(f, at, x, st, n, c);
        if Fires(f, st.at, |st.queue|) {
          n, c := n + 1, c + Consumed(f, st.at);
        }
    }
  }

  /** How many blocks fire on a stream that fills so many zero-stuffed places. */
  function Blocks(f: Filter, at: nat, places: nat): nat
    requires f.Sound() && at < f.up
  {
    if places < f.size || Stride(f, at) == 0 then 0 else (places - f.size) / Stride(f, at) + 1
  }

  lemma BlocksIs(f: Filter, at: nat, places: nat, n: nat)
    requires f.Sound() && at < f.up
    requires n > 0 ==> Position(Stride(f, at), n - 1) + f.size <= places
    requires Position(Stride(f, at), n) + f.size > places
    ensures n == Blocks(f, at, places)
  {
    var b := Stride(f, at);
    hide Stride;
    PositionIs(b, n);
    if n > 0 {
      PositionIs(b, n - 1);
      MulDistrib(b, n, 1);
      hide Position;
      var q, y := (places - f.size) / b, places - f.size;
      assert y == (y - b * (n - 1)) + b * (n - 1);
      DigitsDivMod(b, y - b * (n - 1), n - 1);
    }
  }

  /** However the samples arrive and the calls fall, the outputs are the stream, stuffed with
      zeros by L, through one linear filter, every M-th value kept, each at its place; once no
      more block can fire, they are all the values that whole blocks of the stream allow. */
  lemma RunIsFilter(f: Filter, at: nat, first: seq<real>, events: seq<Event>)
    requires f.Sound() && at < f.up && Whole(f)
    ensures var x, st := Received(first, events), Run(f, at, first, events);
            && (forall q: nat | q < |st.produced| ::
                  st.produced[q] == Value(f, x, Start(f, at), Place(f, at, Position(f.down, q))))
            && (!Fires(f, st.at, |st.queue|) ==>
                  |st.produced| == Count(f.down, 0, Position(f.Block(), Blocks(f, at, at + Position(f.up, |x|)))))
  {
    hide Position, FirSum, Fired, Value, Count, Blocks, Place, Stride, Start;
    var x, st := Received(first, events), Run(f, at, first, events);
    var n, c := RunTracks(f, at, first, events);
    forall q: nat | q < |st.produced|
      ensures st.produced[q] == Value(f, x, Start(f, at), Place(f, at, Position(f.down, q)))
    {
      assert OutputOk(f, at, x, st.produced, q);
    }
    if !Fires(f, st.at, |st.queue|) {
      PositionSum(f.up, c, |st.queue|);
      BlocksIs(f, at, at + Position(f.up, |x|), n);
      KeptSoFar(f.down, |st.produced|, Position(f.Block(), n), st.remM);
    }
  }

  /** The places are the values' own numbers, without drift, in the time domain always, and in the
      frequency domain just when the filter has one tap more than a multiple of L. */
  lemma InStepIff(f: Filter, at: nat)
    requires f.Sound() && at < f.up && Whole(f)
    ensures (forall v: nat :: Place(f, at, v) == v) <==> !f.spectral || |f.taps| % f.up == 1 % f.up
  {
    var b := f.Block();
    if f.spectral {
      SpectralStep(f, at);
      StrideIs(f, at);
      PositionSum(Stride(f, at), 0, 0);
      PositionSum(b, 1, 0);
      hide Position, Stride;
      PlaceOfBlock(f, at, 1, 0);
      if Stride(f, at) == b {
        forall v: nat ensures Place(f, at, v) == v {
          PositionIs(b, v / b);
          PlaceOfBlock(f, at, v / b, v % b);
        }
      } else {
        assert Place(f, at, b) != b;
      }
    }
  }

  lemma KeptSoFar(down: nat, k: nat, limit: nat, rem: nat)
    requires rem < down && Position(down, k) == limit + rem
    ensures k == Count(down, 0, limit)
  {
    hide Position, Count;
    if k > 0 {
      PositionSum(down, k - 1, 1);
    }
    CountUnique(down, 0, limit, k);
  }

  // ---- drift ----

  /** What a block takes beyond what it makes, in zero-stuffed places, when at stands still. */
  function Excess(f: Filter, at: nat): int
    requires f.Sound() && at < f.up
  {
    Position(f.up, Consumed(f, at)) - f.Block()
  }

  ghost predicate Accounts(f: Filter, at: nat, length: nat, st: State, n: nat)
    requires f.Sound() && at < f.up
  {
    && Ready(f, st) && |st.queue| <= length
    && (f.spectral ==> st.at == at)
    && Position(f.up, length - |st.queue|) ==
       Position(f.Block(), n) + (if f.spectral then Excess(f, at) * n else st.at - at)
    && Position(f.down, |st.produced|) == Position(f.Block(), n) + st.remM
  }

  lemma AccountsFire(f: Filter, at: nat, length: nat, st: State, n: nat)
    requires f.Sound() && at < f.up && Accounts(f, at, length, st, n) && Fires(f, st.at, |st.queue|)
    ensures Accounts(f, at, length, Fired(f, st), n + 1)
  {
    hide Position, Count, Consumed, InputSize, Kept, NextRem, Fires;
    StepFacts(f, st.at, st.remM, |st.queue|);
    PositionSum(f.up, length - |st.queue|, Consumed(f, st.at));
    PositionSum(f.Block(), n, 1);
    PositionSum(f.down, |st.produced|, Kept(f, st.remM));
    NextRemIs(f, st.remM);
    MulDistrib(Excess(f, at), n, 1);
  }

  lemma {:induction false} RunAccounts(f: Filter, at: nat, first: seq<real>, events: seq<Event>) returns (n: nat)
    requires f.Sound() && at < f.up
    ensures Accounts(f, at, |Received(first, events)|, Run(f, at, first, events), n)
  {
    hide Position, Fired, InputSize, Excess;
    if events == [] {
      n := 0;
      PositionSum(f.up, 0, 0);
      PositionSum(f.down, 0, 0);
      PositionSum(f.Block(), 0, 0);
    } else {
      var before := events[..|events| - 1];
      n := RunAccounts(f, at, first, before);
      if events[|events| - 1] == Fire {
        var x, st := Received(first, before), Run(f, at, first, before);
        if Fires(f, st.at, |st.queue|) {
          AccountsFire(f, at, |x|, st, n);
          n := n + 1;
        } else {
          NotFired(f, st);
        }
      }
    }
  }

  lemma NotFired(f: Filter, st: State)
    requires f.Sound() && Ready(f, st) && !Fires(f, st.at, |st.queue|)
    ensures Fired(f, st) == st
  {
    hide InputSize;
  }

  /** The stage never drifts: over any run the places taken and the places made differ only by the
      two remainders it carries, which stay below L and M; and input_size says exactly when the
      next block fires. */
  lemma NoDrift(f: Filter, at: nat, first: seq<real>, events: seq<Event>)
    requires f.Sound() && at < f.up && !f.spectral
    ensures var x, st := Received(first, events), Run(f, at, first, events);
            && |st.queue| <= |x|
            && Position(f.up, |x| - |st.queue|) - Position(f.down, |st.produced|) == (st.at - at) - st.remM
            && st.at < f.up && st.remM < f.down
            && forall queued: nat :: Fires(f, st.at, queued) <==> queued >= st.inputSize
  {
    hide Position, InputSize;
    var n := RunAccounts(f, at, first, events);
    var st := Run(f, at, first, events);
    forall queued: nat ensures Fires(f, st.at, queued) <==> queued >= st.inputSize {
      InputSizeIsLeast(f, st.at, queued);
    }
  }

  /** With zeros stuffed in the frequency domain the same holds after every block just when the
      filter has one tap more than a multiple of L; otherwise each block adds its excess. */
  lemma SpectralDrift(f: Filter, at: nat, first: seq<real>, events: seq<Event>) returns (n: nat)
    requires f.Sound() && at < f.up && f.spectral && f.size % f.up == 0
    ensures var x, st := Received(first, events), Run(f, at, first, events);
            && |st.queue| <= |x| && Position(f.down, |st.produced|) == Position(f.Block(), n) + st.remM
            && Position(f.up, |x| - |st.queue|) - Position(f.down, |st.produced|) == Excess(f, at) * n - st.remM
            && st.at == at && st.remM < f.down
            && (Excess(f, at) == 0 <==> |f.taps| % f.up == 1 % f.up)
  {
    hide Position, InputSize, Consumed;
    n := RunAccounts(f, at, first, events);
    SpectralStep(f, at);
  }
}
