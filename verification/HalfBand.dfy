/** The decimate-by-2 stage (soxr-sys/src/half-fir.h, set up by soxr-sys/src/cr.c, lines 366-372). */
module HalfBand {
  import opened Streams
  import opened Fifos

  // ---- one output ----

  /** The sum built by the first j multiply-adds around x[p]. */
  function FoldedSum(c: seq<real>, x: seq<real>, p: nat, j: nat): real
    requires j <= |c| && 2 * j <= p + 1 && p + 2 * j <= |x| && p < |x|
  {
    if j == 0 then x[p] * 0.5
    else FoldedSum(c, x, p, j - 1) + (x[p - (2 * (j - 1) + 1)] + x[p + (2 * (j - 1) + 1)]) * c[j - 1]
  }

  /** Coefficient d places from the centre of the symmetric filter: a half in the middle, the
      table at odd distances, nothing at even ones. */
  function Tap(c: seq<real>, d: int): real {
    var e := if d < 0 then -d else d;
    if e == 0 then 0.5
    else if e % 2 == 1 && e / 2 < |c| then c[e / 2]
    else 0.0
  }

  function RangeSum(lo: int, hi: int, f: int -> real): real
    decreases hi - lo
  {
    if hi <= lo then 0.0 else RangeSum(lo, hi - 1, f) + f(hi - 1)
  }

  function Sample(x: seq<real>, i: int): real {
    if 0 <= i < |x| then x[i] else 0.0
  }

  function FirTerms(c: seq<real>, x: seq<real>, p: int): int -> real {
    (d: int) => Sample(x, p + d) * Tap(c, d)
  }

  /** The centred FIR filter of length 4*|c| - 1 at place p of the stream x. */
  function FirAt(c: seq<real>, x: seq<real>, p: int): real {
    RangeSum(-(2 * |c| - 1), 2 * |c|, FirTerms(c, x, p))
  }

  lemma {:induction false} RangeSumLow(lo: int, hi: int, f: int -> real)
    requires lo < hi
    ensures RangeSum(lo, hi, f) == f(lo) + RangeSum(lo + 1, hi, f)
    decreases hi - lo
  {
    if lo + 1 < hi {
      RangeSumLow(lo, hi - 1, f);
    }
  }

  /** The half-open range of distances covered after j multiply-adds. */
  function Low(j: nat): int {
    if j == 0 then 0 else -(2 * j - 1)
  }

  function High(j: nat): int {
    if j == 0 then 1 else 2 * j
  }

  /** The folded sum is the FIR filter over a window that grows by an odd and an even place at
      each end. */
  lemma {:induction false} FoldedIsWindow(c: seq<real>, x: seq<real>, p: nat, j: nat)
    requires j <= |c| && 2 * j <= p + 1 && p + 2 * j <= |x| && p < |x|
    ensures FoldedSum(c, x, p, j) == RangeSum(Low(j), High(j), FirTerms(c, x, p))
  {
    var f := FirTerms(c, x, p);
    if j == 0 {
      assert RangeSum(0, 1, f) == RangeSum(0, 0, f) + f(0);
    } else {
      hide *;
      FoldedIsWindow(c, x, p, j - 1);
      TapAt(c, x, p, j);
      WindowGrows(j, f);
      FoldedUnfold(c, x, p, j);
    }
  }

  lemma FoldedNext(c: seq<real>, x: seq<real>, p: nat, j: nat, l: real, r: real)
    requires j < |c| && 2 * (j + 1) <= p + 1 && p + 2 * (j + 1) <= |x| && p < |x|
    requires l == x[p - (2 * j + 1)] && r == x[p + (2 * j + 1)]
    ensures FoldedSum(c, x, p, j + 1) == FoldedSum(c, x, p, j) + (l + r) * c[j]
  {
    FoldedUnfold(c, x, p, j + 1);
    hide FoldedSum;
    assert 2 * (j + 1) - 1 == 2 * j + 1;
  }

  lemma FoldedUnfold(c: seq<real>, x: seq<real>, p: nat, j: nat)
    requires 0 < j <= |c| && 2 * j <= p + 1 && p + 2 * j <= |x| && p < |x|
    ensures FoldedSum(c, x, p, j) == FoldedSum(c, x, p, j - 1) + (x[p - (2 * j - 1)] + x[p + (2 * j - 1)]) * c[j - 1]
  {
    assert 2 * (j - 1) + 1 == 2 * j - 1;
  }

  lemma TapAt(c: seq<real>, x: seq<real>, p: nat, j: nat)
    requires 0 < j <= |c| && 2 * j <= p + 1 && p + 2 * j <= |x|
    ensures var e, f := 2 * j - 1, FirTerms(c, x, p);
            && f(-(2 * j - 1)) + f(2 * j - 1) == (x[p - e] + x[p + e]) * c[j - 1]
            && (j > 1 ==> f(-(2 * j - 2)) == 0.0 && f(2 * j - 2) == 0.0)
  {
    var e := 2 * j - 1;
    assert e % 2 == 1 && e / 2 == j - 1;
    assert Tap(c, e) == c[j - 1] && Tap(c, -e) == c[j - 1];
    if j > 1 {
      assert (e - 1) % 2 == 0;
      assert Tap(c, e - 1) == 0.0 && Tap(c, -(e - 1)) == 0.0;
    }
    Fold(x[p - e], x[p + e], c[j - 1]);
  }

  lemma Fold(a: real, b: real, t: real)
    ensures a * t + b * t == (a + b) * t
  {
  }

  /** One multiply-add widens the window by two places at each end. */
  lemma WindowGrows(j: nat, f: int -> real)
    requires j > 0 && (j > 1 ==> f(-(2 * j - 2)) == 0.0 && f(2 * j - 2) == 0.0)
    ensures RangeSum(Low(j), High(j), f) ==
            RangeSum(Low(j - 1), High(j - 1), f) + (f(-(2 * j - 1)) + f(2 * j - 1))
  {
    var e := 2 * j - 1;
    RangeSumLow(-e, e, f);
    assert RangeSum(-e, e + 1, f) == RangeSum(-e, e, f) + f(e);
    if j > 1 {
      RangeSumLow(-(e - 1), e, f);
      assert RangeSum(-(e - 2), e, f) == RangeSum(-(e - 2), e - 1, f) + f(e - 1);
    }
  }

  // ---- one call ----

  function NumOut(c: seq<real>, queued: nat, inputSize: nat): (k: nat)
    ensures 2 * k <= Max(0, queued - 4 * |c|) + 1
    ensures |c| > 0 ==> 2 * k <= queued
  {
    (Available(queued, 4 * |c|, inputSize) + 1) / 2
  }

  /** What one call appends to the output; it takes twice as many samples off the queue s. */
  function Produced(c: seq<real>, inputSize: nat, s: seq<real>): (out: seq<real>)
    ensures |out| == NumOut(c, |s|, inputSize)
  {
    seq(NumOut(c, |s|, inputSize), i requires 0 <= i < NumOut(c, |s|, inputSize) =>
      FoldedSum(c, s, 2 * |c| + 2 * i, |c|))
  }

  // ---- any number of calls and arrivals ----

  datatype State = State(queue: seq<real>, produced: seq<real>)

  function Run(c: seq<real>, inputSize: nat, first: seq<real>, events: seq<Event>): State
    requires |c| > 0
  {
    if events == [] then State(first, [])
    else
      var st := Run(c, inputSize, first, events[..|events| - 1]);
      match events[|events| - 1]
      case Arrive(samples) => State(st.queue + samples, st.produced)
      case Fire =>
        State(st.queue[2 * NumOut(c, |st.queue|, inputSize)..], st.produced + Produced(c, inputSize, st.queue))
  }

  /** How many outputs a stream of the given length allows. */
  function Allowed(c: seq<real>, length: nat): nat {
    (Max(0, length - 4 * |c|) + 1) / 2
  }

  /** Output q needs the 4*n-1 samples around it, and waits for one more. */
  lemma AllowedIff(c: seq<real>, length: nat, q: nat)
    ensures q < Allowed(c, length) <==> 4 * |c| + 2 * q < length
  {
  }

  lemma {:induction false} FoldedMoved(c: seq<real>, x: seq<real>, y: seq<real>, k: nat, p: nat, j: nat)
    requires j <= |c| && 2 * j <= p + 1 && p + 2 * j <= |y| && p < |y|
    requires k + |y| <= |x| && forall i: nat | i < |y| :: y[i] == x[k + i]
    ensures FoldedSum(c, x, k + p, j) == FoldedSum(c, y, p, j)
  {
    if j > 0 {
      FoldedMoved(c, x, y, k, p, j - 1);
      hide *;
      var e := 2 * (j - 1) + 1;
      var l, r := y[p - e], y[p + e];
      assert l == x[k + (p - e)] && r == x[k + (p + e)];
      assert k + (p - e) == (k + p) - e && k + (p + e) == (k + p) + e;
      FoldedNext(c, x, k + p, j - 1, l, r);
      FoldedNext(c, y, p, j - 1, l, r);
    } else {
      FoldedFirst(c, x, k + p);
      FoldedFirst(c, y, p);
    }
  }

  /** Where a run stands: the queue is the rest of the stream, the outputs are the filter. */
  ghost predicate Tracks(c: seq<real>, x: seq<real>, st: State) {
    && 2 * |st.produced| <= |x| && st.queue == x[2 * |st.produced|..]
    && |st.produced| <= Allowed(c, |x|)
    && forall q: nat | q < |st.produced| :: OutputOk(c, x, st.produced, q)
  }

  ghost predicate OutputOk(c: seq<real>, x: seq<real>, out: seq<real>, q: nat)
    requires q < |out|
  {
    4 * |c| + 2 * q <= |x| && |c| > 0 && out[q] == FoldedSum(c, x, 2 * |c| + 2 * q, |c|)
  }

  lemma TracksArrival(c: seq<real>, x: seq<real>, st: State, samples: seq<real>)
    requires Tracks(c, x, st)
    ensures Tracks(c, x + samples, State(st.queue + samples, st.produced))
  {
    hide FoldedSum;
    var y := x + samples;
    forall q: nat | q < |st.produced| ensures OutputOk(c, y, st.produced, q) {
      assert OutputOk(c, x, st.produced, q);
      FoldedMoved(c, y, x, 0, 2 * |c| + 2 * q, |c|);
    }
    assert y[2 * |st.produced|..] == x[2 * |st.produced|..] + samples;
  }

  lemma TracksFire(c: seq<real>, inputSize: nat, x: seq<real>, st: State)
    requires |c| > 0 && Tracks(c, x, st)
    ensures var k := NumOut(c, |st.queue|, inputSize);
            Tracks(c, x, State(st.queue[2 * k..], st.produced + Produced(c, inputSize, st.queue)))
    ensures |st.queue| <= 4 * |c| + inputSize ==>
              |st.produced| + NumOut(c, |st.queue|, inputSize) == Allowed(c, |x|)
  {
    hide FoldedSum, Produced;
    var s, m, k := st.queue, |st.produced|, NumOut(c, |st.queue|, inputSize);
    var out := st.produced + Produced(c, inputSize, s);
    Accounts(|c|, |x|, m, inputSize);
    forall q: nat | q < |out| ensures OutputOk(c, x, out, q) {
      if q < m {
        assert OutputOk(c, x, st.produced, q);
      } else {
        ProducedAt(c, inputSize, s, q - m);
        FoldedMoved(c, x, s, 2 * m, 2 * |c| + 2 * (q - m), |c|);
      }
    }
  }

  lemma ProducedAt(c: seq<real>, inputSize: nat, s: seq<real>, i: nat)
    requires i < NumOut(c, |s|, inputSize) && |c| > 0
    ensures 4 * |c| + 2 * i <= |s|
    ensures Produced(c, inputSize, s)[i] == FoldedSum(c, s, 2 * |c| + 2 * i, |c|)
  {
    hide FoldedSum;
  }

  /** The outputs of one call on top of m earlier ones, for a stream of the given length. */
  lemma Accounts(n: nat, length: nat, m: nat, inputSize: nat)
    requires n > 0 && 2 * m <= length && m <= (Max(0, length - 4 * n) + 1) / 2
    ensures var k := (Available(length - 2 * m, 4 * n, inputSize) + 1) / 2;
            && 2 * (m + k) <= length && m + k <= (Max(0, length - 4 * n) + 1) / 2
            && (length - 2 * m <= 4 * n + inputSize ==> m + k == (Max(0, length - 4 * n) + 1) / 2)
  {
  }

  lemma {:induction false} RunTracks(c: seq<real>, inputSize: nat, first: seq<real>, events: seq<Event>)
    requires |c| > 0
    ensures Tracks(c, Received(first, events), Run(c, inputSize, first, events))
  {
    if events == [] {
    } else {
      var before := events[..|events| - 1];
      RunTracks(c, inputSize, first, before);
      var x, st := Received(first, before), Run(c, inputSize, first, before);
      match events[|events| - 1]
      case Arrive(samples) =>
        TracksArrival(c, x, st, samples);
      case Fire =>
        TracksFire(c, inputSize, x, st);
    }
  }

  lemma FirIsFolded(c: seq<real>, x: seq<real>, p: nat)
    requires |c| > 0 && 2 * |c| <= p && p + 2 * |c| <= |x|
    ensures FirAt(c, x, p) == FoldedSum(c, x, p, |c|)
  {
    FoldedIsWindow(c, x, p, |c|);
    hide FoldedSum, RangeSum, FirTerms;
  }

  /** However the samples arrive and the calls fall, the outputs are the first so many values of
      one centred FIR filter over the whole stream, taken at every second sample; and a call that
      its input size does not cut short brings them up to date. */
  lemma RunIsFilter(c: seq<real>, inputSize: nat, first: seq<real>, events: seq<Event>)
    requires |c| > 0
    ensures var x, st := Received(first, events), Run(c, inputSize, first, events);
            && |st.produced| <= Allowed(c, |x|)
            && (forall q: nat | q < |st.produced| :: st.produced[q] == FirAt(c, x, 2 * |c| + 2 * q))
            && 2 * |st.produced| <= |x| && st.queue == x[2 * |st.produced|..]
            && (|st.queue| <= 4 * |c| + inputSize ==>
                  |Run(c, inputSize, first, events + [Fire]).produced| == Allowed(c, |x|))
  {
    var x, st := Received(first, events), Run(c, inputSize, first, events);
    RunTracks(c, inputSize, first, events);
    hide FoldedSum, RangeSum, FirTerms, FirAt, Produced, Allowed, NumOut;
    forall q: nat | q < |st.produced| ensures st.produced[q] == FirAt(c, x, 2 * |c| + 2 * q) {
      assert OutputOk(c, x, st.produced, q);
      FirIsFolded(c, x, 2 * |c| + 2 * q);
    }
    assert (events + [Fire])[..|events|] == events;
    TracksFire(c, inputSize, x, st);
  }

  // ---- the stage ----

  class HalfStage {
    const fifo: Fifo<real>
    const coefs: seq<real>
    const pre: nat
    const prePost: nat
    const inputSize: nat

    ghost predicate Valid()
      reads this, fifo
    {
      && fifo.Valid() && fifo.itemSize == 1
      && |coefs| > 0 && pre == 2 * |coefs| && prePost == 4 * |coefs|
    }

    /** Lines 366-372 and 487-490 of cr.c: the queue starts with pre zeros. */
    constructor (coefs: seq<real>, inputSize: nat)
      requires |coefs| > 0
      ensures Valid() && fresh(fifo) && fresh(fifo.data)
      ensures this.coefs == coefs && this.inputSize == inputSize
      ensures fifo.Contents() == Zeros(2 * |coefs|)
    {
      this.coefs := coefs;
      this.inputSize := inputSize;
      pre := 2 * |coefs|;
      prePost := 4 * |coefs|;
      fifo := new Fifo<real>(1);
      new;
      var zeros := new real[2 * |coefs|](_ => 0.0);
      var p := fifo.Write(2 * |coefs|, zeros);
    }

    method Call(output: Fifo<real>)
      requires Valid() && output.Valid() && output.itemSize == 1
      requires output != fifo && output.data != fifo.data
      modifies fifo, output, output.data
      ensures Valid() && output.Valid() && (output.data == old(output.data) || fresh(output.data))
      ensures fifo.data == old(fifo.data)
      ensures var s := old(fifo.Contents());
              && fifo.Contents() == s[2 * NumOut(coefs, |s|, inputSize)..]
              && output.Contents() == old(output.Contents()) + Produced(coefs, inputSize, s)
    {
      hide Produced;
      var occupancy := fifo.Occupancy();
      var numIn := Available(occupancy, prePost, inputSize);
      var numOut := (numIn + 1) / 2;
      var p := output.Reserve(numOut);
      Fill(output.data, p, numOut);
      assert output.Contents() == output.data[output.begin..p] + output.data[p..p + numOut];
      var r := fifo.Read(2 * numOut, null);
    }

    /** Lines 45-48. */
    method Fill(output: array<real>, p: nat, numOut: nat)
      requires Valid() && output != fifo.data && p + numOut <= output.Length
      requires numOut == NumOut(coefs, |fifo.Contents()|, inputSize)
      modifies output
      ensures output[..p] == old(output[..p])
      ensures output[p..p + numOut] == Produced(coefs, inputSize, fifo.Contents())
    {
      hide FoldedSum;
      ghost var s := fifo.Contents();
      var input := fifo.begin + pre;
      var i := 0;
      while i < numOut
        invariant i <= numOut && input == fifo.begin + pre + 2 * i
        invariant fifo.Contents() == s && output[..p] == old(output[..p])
        invariant forall k: nat | k < i :: output[p + k] == Produced(coefs, inputSize, s)[k]
      {
        ProducedAt(coefs, inputSize, s, i);
        output[p + i] := Convolve(input);
        i, input := i + 1, input + 2;
      }
    }

    /** BEGINNING, CONVOLVE and END: lines 29-33. */
    method Convolve(input: nat) returns (sum: real)
      requires Valid() && fifo.begin + 2 * |coefs| <= input && input + 2 * |coefs| <= fifo.end
      ensures sum == FoldedSum(coefs, fifo.Contents(), input - fifo.begin, |coefs|)
    {
      ghost var s, q := fifo.Contents(), input - fifo.begin;
      CellsAround(input, 0);
      hide *;
      sum := fifo.data[input] * 0.5;
      FoldedFirst(coefs, s, q);
      for j := 0 to |coefs|
        invariant sum == FoldedSum(coefs, s, q, j)
      {
        var e := 2 * j + 1;
        CellsAround(input, e);
        var before, after := fifo.data[input - e], fifo.data[input + e];
        FoldedNext(coefs, s, q, j, before, after);
        sum := sum + (before + after) * coefs[j];
      }
    }

    lemma CellsAround(input: nat, e: nat)
      requires fifo.Valid() && fifo.begin + e <= input && input + e < fifo.end
      ensures fifo.data[input - e] == fifo.Contents()[input - fifo.begin - e]
      ensures fifo.data[input + e] == fifo.Contents()[input - fifo.begin + e]
    {
    }
  }

  lemma FoldedFirst(c: seq<real>, x: seq<real>, p: nat)
    requires p < |x|
    ensures FoldedSum(c, x, p, 0) == x[p] * 0.5
  {
  }
}
