/** What each kind of stage makes of a whole stream at once: no run makes anything else, and a longer
    stream only adds to it. */
module OneShots {
  import opened Arith
  import opened Streams
  import HalfBand
  import CubicStage
  import OverlapSave

  // ---- the half-band stage ----

  /** The centred filter at every second sample. */
  function Halved(c: seq<real>, x: seq<real>): (y: seq<real>)
    ensures |y| == HalfBand.Allowed(c, |x|)
  {
    seq(HalfBand.Allowed(c, |x|), q requires 0 <= q < HalfBand.Allowed(c, |x|) => HalfBand.FirAt(c, x, 2 * |c| + 2 * q))
  }

  lemma HalvedMade(c: seq<real>, x: seq<real>, st: HalfBand.State)
    requires |c| > 0 && HalfBand.Tracks(c, x, st)
    ensures st.produced <= Halved(c, x)
  {
    hide HalfBand.FirAt, HalfBand.FoldedSum;
    forall q: nat | q < |st.produced| ensures st.produced[q] == Halved(c, x)[q] {
      assert HalfBand.OutputOk(c, x, st.produced, q);
      HalfBand.FirIsFolded(c, x, 2 * |c| + 2 * q);
    }
  }

  /** With no more in the queue than it must keep, the stage has made all of it. */
  lemma HalvedAll(c: seq<real>, inputSize: nat, x: seq<real>, st: HalfBand.State)
    requires |c| > 0 && HalfBand.Tracks(c, x, st) && inputSize > 0 && HalfBand.NumOut(c, |st.queue|, inputSize) == 0
    ensures st.produced == Halved(c, x)
  {
    HalvedMade(c, x, st);
    HalfBand.TracksFire(c, inputSize, x, st);
    hide HalfBand.Tracks, HalfBand.FirAt;
  }

  lemma HalvedGrows(c: seq<real>, x: seq<real>, y: seq<real>)
    requires |c| > 0 && x <= y
    ensures Halved(c, x) <= Halved(c, y)
  {
    hide HalfBand.FirAt, HalfBand.FoldedSum;
    forall q: nat | q < |Halved(c, x)| ensures Halved(c, x)[q] == Halved(c, y)[q] {
      var p := 2 * |c| + 2 * q;
      HalfBand.FirIsFolded(c, x, p);
      HalfBand.FirIsFolded(c, y, p);
      HalfBand.FoldedMoved(c, y, x, 0, p, |c|);
    }
  }

  // ---- the cubic stage ----

  /** The interpolation at every place that the stream allows. */
  function Interpolated(step: nat, mult: real, x: seq<real>): (y: seq<real>)
    requires step > 0
    ensures |y| == CubicStage.Allowed(step, |x|)
  {
    seq(CubicStage.Allowed(step, |x|), k requires 0 <= k < CubicStage.Allowed(step, |x|) => Sampled(step, mult, x, k))
  }

  function Sampled(step: nat, mult: real, x: seq<real>, k: nat): real
    requires step > 0 && k < CubicStage.Allowed(step, |x|)
  {
    CubicStage.AllowedIs(step, |x|, k);
    CubicStage.OutputAt(x, mult, Position(step, k))
  }

  lemma InterpolatedMade(step: nat, mult: real, x: seq<real>, st: CubicStage.State)
    requires step > 0 && CubicStage.Tracks(step, mult, x, st)
    ensures st.produced <= Interpolated(step, mult, x)
  {
    hide CubicStage.OutputAt, CubicStage.Allowed, Position, CubicStage.Integer;
    forall k: nat | k < |st.produced| ensures st.produced[k] == Interpolated(step, mult, x)[k] {
      assert CubicStage.OutputOk(step, mult, x, st.produced, k);
    }
  }

  lemma InterpolatedAll(step: nat, mult: real, inputSize: nat, x: seq<real>, st: CubicStage.State)
    requires step > 0 && CubicStage.Tracks(step, mult, x, st) && |st.queue| <= Max(3, CubicStage.Integer(step))
    requires CubicStage.Fired(step, mult, inputSize, st) == st
    ensures st.produced == Interpolated(step, mult, x)
  {
    InterpolatedMade(step, mult, x, st);
    CubicStage.TracksFire(step, mult, inputSize, x, st);
    hide CubicStage.Tracks, CubicStage.Fired, CubicStage.Allowed, CubicStage.OutputAt, CubicStage.Integer;
  }

  lemma InterpolatedGrows(step: nat, mult: real, x: seq<real>, y: seq<real>)
    requires step > 0 && x <= y
    ensures Interpolated(step, mult, x) <= Interpolated(step, mult, y)
  {
    hide CubicStage.OutputAt, CubicStage.Allowed, Position, CubicStage.Integer;
    CubicStage.AllowedGrows(step, |x|, |y|);
    forall k: nat | k < |Interpolated(step, mult, x)|
      ensures Interpolated(step, mult, x)[k] == Interpolated(step, mult, y)[k]
    {
      CubicStage.AllowedIs(step, |x|, k);
      CubicStage.OutputMoved(mult, y, x, 0, Position(step, k));
    }
  }

  // ---- the block filter ----

  /** How many values are kept of the blocks that the stream fills. */
  function KeptOf(f: OverlapSave.Filter, at: nat, length: nat): nat
    requires f.Sound() && at < f.up
  {
    Count(f.down, 0, Position(f.Block(), OverlapSave.Blocks(f, at, at + Position(f.up, length))))
  }

  /** The zero-stuffed stream through the filter, every M-th value kept. */
  function Filtered(f: OverlapSave.Filter, at: nat, x: seq<real>): (y: seq<real>)
    requires f.Sound() && at < f.up
    ensures |y| == KeptOf(f, at, |x|)
  {
    seq(KeptOf(f, at, |x|), q requires 0 <= q < KeptOf(f, at, |x|) =>
      OverlapSave.Value(f, x, OverlapSave.Start(f, at), OverlapSave.Place(f, at, Position(f.down, q))))
  }

  lemma BlocksInside(f: OverlapSave.Filter, at: nat, places: nat, n: nat)
    requires f.Sound() && at < f.up && OverlapSave.Stride(f, at) > 0
    ensures n < OverlapSave.Blocks(f, at, places) <==> Position(OverlapSave.Stride(f, at), n) + f.size <= places
  {
    var b := OverlapSave.Stride(f, at);
    OverlapSave.PositionIs(b, n);
    hide OverlapSave.Stride, Position;
    if places >= f.size {
      var y := places - f.size;
      var q := y / b;
      assert y == b * q + y % b;
      if n <= q {
        MulLe(b, n, q);
      } else {
        MulLe(b, q + 1, n);
        MulDistrib(b, q, 1);
      }
    }
  }

  lemma CountGrows(step: nat, a: nat, b: nat)
    requires step > 0 && a <= b
    ensures Count(step, 0, a) <= Count(step, 0, b)
  {
    var k := Count(step, 0, b);
    CountIs(step, 0, a, k);
    CountIs(step, 0, b, k);
    hide Count, Position;
  }

  lemma FilteredMade(f: OverlapSave.Filter, at: nat, x: seq<real>, st: OverlapSave.State, n: nat, c: nat)
    requires f.Sound() && at < f.up && OverlapSave.Stride(f, at) > 0 && OverlapSave.Tracks(f, at, x, st, n, c)
    ensures st.produced <= Filtered(f, at, x)
  {
    hide Position, Count, OverlapSave.Value, OverlapSave.Place, OverlapSave.Start, OverlapSave.Blocks,
      OverlapSave.Stride;
    var places := at + Position(f.up, |x|);
    var b := OverlapSave.Blocks(f, at, places);
    if n > 0 {
      BlocksInside(f, at, places, n - 1);
    }
    OverlapSave.KeptSoFar(f.down, |st.produced|, Position(f.Block(), n), st.remM);
    OverlapSave.PositionGrows(f.Block(), n, b);
    CountGrows(f.down, Position(f.Block(), n), Position(f.Block(), b));
    forall q: nat | q < |st.produced| ensures st.produced[q] == Filtered(f, at, x)[q] {
      assert OverlapSave.OutputOk(f, at, x, st.produced, q);
    }
  }

  lemma FilteredAll(f: OverlapSave.Filter, at: nat, x: seq<real>, st: OverlapSave.State, n: nat, c: nat)
    requires f.Sound() && at < f.up && OverlapSave.Stride(f, at) > 0 && OverlapSave.Tracks(f, at, x, st, n, c)
    requires !OverlapSave.Fires(f, st.at, |st.queue|)
    ensures st.produced == Filtered(f, at, x)
  {
    FilteredMade(f, at, x, st, n, c);
    hide Position, Count, OverlapSave.Value, OverlapSave.Place, OverlapSave.Start, OverlapSave.Blocks,
      OverlapSave.Stride, OverlapSave.OutputOk;
    PositionSum(f.up, c, |st.queue|);
    OverlapSave.BlocksIs(f, at, at + Position(f.up, |x|), n);
    OverlapSave.KeptSoFar(f.down, |st.produced|, Position(f.Block(), n), st.remM);
  }

  /** The values of whole blocks do not reach beyond the stream. */
  lemma PlaceInside(f: OverlapSave.Filter, at: nat, length: nat, q: nat)
    requires f.Sound() && at < f.up && OverlapSave.Stride(f, at) > 0 && OverlapSave.Whole(f)
    requires q < KeptOf(f, at, length)
    ensures OverlapSave.Place(f, at, Position(f.down, q)) + |f.taps| <=
            OverlapSave.Start(f, at) + Position(f.up, length)
  {
    hide *;
    var v, places := Position(f.down, q), at + Position(f.up, length);
    var m, r := BlockOf(f, at, length, q);
    BlocksInside(f, at, places, m);
    OverlapSave.PlaceOfBlock(f, at, m, r);
    if f.spectral {
      WholePlaces(f, at, length, m);
    }
    StartIs(f, at);
  }

  lemma StartIs(f: OverlapSave.Filter, at: nat)
    ensures OverlapSave.Start(f, at) == if f.spectral then 0 else at
  {
  }

  /** Value q is value r of block m. */
  lemma BlockOf(f: OverlapSave.Filter, at: nat, length: nat, q: nat) returns (m: nat, r: nat)
    requires f.Sound() && at < f.up && q < KeptOf(f, at, length)
    ensures m < OverlapSave.Blocks(f, at, at + Position(f.up, length))
    ensures r < f.Block() == f.size - (|f.taps| - 1)
    ensures Position(f.down, q) == Position(f.Block(), m) + r
  {
    var v, b := Position(f.down, q), OverlapSave.Blocks(f, at, at + Position(f.up, length));
    CountIs(f.down, 0, Position(f.Block(), b), q);
    OverlapSave.PositionIs(f.Block(), b);
    hide Position, Count, OverlapSave.Blocks;
    m, r := Split(f.Block(), b, v);
    OverlapSave.PositionIs(f.Block(), m);
  }

  lemma Split(block: nat, count: nat, v: nat) returns (m: nat, r: nat)
    requires 0 < block && v < block * count
    ensures m < count && r < block && v == block * m + r
  {
    QuotientBound(block, count, v);
    m, r := v / block, v % block;
  }

  lemma WholePlaces(f: OverlapSave.Filter, at: nat, length: nat, m: nat)
    requires f.Sound() && at < f.up && f.spectral && OverlapSave.Whole(f)
    requires Position(OverlapSave.Stride(f, at), m) + f.size <= at + Position(f.up, length)
    ensures Position(OverlapSave.Stride(f, at), m) + f.size <= Position(f.up, length)
  {
    var d, k := OverlapSave.Consumed(f, at), f.size / f.up;
    OverlapSave.StrideIs(f, at);
    OverlapSave.PositionIs(OverlapSave.Stride(f, at), m);
    OverlapSave.PositionIs(f.up, d);
    OverlapSave.PositionIs(f.up, length);
    assert f.size == f.up * k;
    hide *;
    AlignedBelow(f.up, d, m, k, length, at);
  }

  lemma AlignedBelow(up: nat, d: nat, m: nat, k: nat, length: nat, at: nat)
    requires at < up && (up * d) * m + up * k <= at + up * length
    ensures (up * d) * m + up * k <= up * length
  {
    MulAssoc3(up, d, m);
    var t := d * m + k;
    MulDistrib(up, d * m, k);
    if t > length {
      MulLe(up, length + 1, t);
      MulDistrib(up, length, 1);
    }
  }

  lemma FilteredGrows(f: OverlapSave.Filter, at: nat, x: seq<real>, y: seq<real>)
    requires f.Sound() && at < f.up && OverlapSave.Stride(f, at) > 0 && OverlapSave.Whole(f) && x <= y
    ensures Filtered(f, at, x) <= Filtered(f, at, y)
  {
    KeptGrows(f, at, |x|, |y|);
    hide Position, OverlapSave.FirSum, OverlapSave.Place, KeptOf;
    PositionSum(f.up, 0, 0);
    forall q: nat | q < KeptOf(f, at, |x|) ensures Filtered(f, at, x)[q] == Filtered(f, at, y)[q] {
      var first, v := OverlapSave.Start(f, at), OverlapSave.Place(f, at, Position(f.down, q));
      PlaceInside(f, at, |x|, q);
      OverlapSave.FirMoved(f.taps, y, x, f.up, first, first, 0, 0, v, |f.taps|);
    }
  }

  lemma KeptGrows(f: OverlapSave.Filter, at: nat, length: nat, longer: nat)
    requires f.Sound() && at < f.up && OverlapSave.Stride(f, at) > 0 && length <= longer
    ensures KeptOf(f, at, length) <= KeptOf(f, at, longer)
  {
    hide Position, Count, OverlapSave.Blocks, OverlapSave.Stride;
    OverlapSave.PositionGrows(f.up, length, longer);
    var a, b := at + Position(f.up, length), at + Position(f.up, longer);
    var m, n := OverlapSave.Blocks(f, at, a), OverlapSave.Blocks(f, at, b);
    BlocksInside(f, at, a, n);
    BlocksInside(f, at, b, n);
    OverlapSave.PositionGrows(f.Block(), m, n);
    CountGrows(f.down, Position(f.Block(), m), Position(f.Block(), n));
  }
}
