/** The block-filter stage in place (soxr-sys/src/cr.c, lines 68-174 and 204-247): dft_stage_fn
    over the transforms of fft4g.c, proved to do what OverlapSave says. */
module DftStage {
  import opened Arith
  import opened Complexes
  import opened BitReversal
  import opened FftView
  import opened FftTheorem
  import opened FftReal
  import opened FftTables
  import opened Fft
  import opened FftSpectrum
  import opened FftRealSpectrum
  import opened FftInverse
  import opened Convolution
  import opened Streams
  import opened Fifos
  import opened OverlapSave
  import opened Replication
  import opened Decimation
  import DftFilter

  // ---- a block of the circular filter is the linear filter ----

  /** The taps, scaled, stored backwards around the end of the block: lines 205-210. */
  function Wrapped(h: seq<real>, m: real, size: nat): (g: seq<real>)
    requires 1 <= |h| <= size
    ensures |g| == size
  {
    seq(size, r requires 0 <= r < size => WrappedAt(h, m, size, r))
  }

  function WrappedAt(h: seq<real>, m: real, size: nat, r: nat): real
    requires 1 <= |h| <= size
  {
    var i := TapOf(|h|, size, r);
    if i < |h| then Weigh(h[i], m) else 0.0
  }

  /** Which tap is stored in cell r. */
  function TapOf(taps: nat, size: nat, r: nat): nat
    requires 1 <= taps <= size
  {
    (r + taps - 1) % size
  }

  /** Tap i is found where output n meets input n + |h| - 1 - i; elsewhere there is nothing. */
  lemma TapMeets(h: seq<real>, m: real, size: nat, n: nat, j: nat)
    requires 1 <= |h| <= size && n + |h| <= size && j < size
    ensures var g := Wrapped(h, m, size);
            Cell(g, Wrap(n, j, size)) ==
            if n <= j < n + |h| then Weigh(h[|h| - 1 - (j - n)], m) else 0.0
  {
    var r := (n - j) % size;
    if j <= n {
      DigitsDivMod(size, n - j, 0);
    } else {
      DigitsDivMod(size, n - j + size, -1);
    }
    var i := (r + |h| - 1) % size;
    if r + |h| - 1 < size {
      DigitsDivMod(size, r + |h| - 1, 0);
    } else {
      DigitsDivMod(size, r + |h| - 1 - size, 1);
    }
  }

  lemma WeighRegroup(m: real, a: real, h: real, u: real)
    ensures Weigh(m, a) + Weigh(u, Weigh(h, m)) == Weigh(m, a + Weigh(h, u))
    ensures Weigh(u, 0.0) == 0.0 && Weigh(m, 0.0) == 0.0
  {
    assert u * (h * m) == m * (h * u);
  }

  lemma RealSumUnfold(n: nat, f: nat -> real)
    ensures RealSum(n, f) == if n == 0 then 0.0 else RealSum(n - 1, f) + f(n - 1)
  {
  }

  /** The first n + t terms of the circular sum are the last t taps. */
  lemma {:induction false} PartialSum(h: seq<real>, m: real, s: seq<real>, up: nat, at: nat, size: nat, n: nat, t: nat)
    requires up > 0 && 1 <= |h| <= size && n + |h| <= size && t <= |h|
    ensures RealSum(n + t, CircularTerms(Spread(s, up, at, size), Wrapped(h, m, size), n)) ==
            Weigh(m, FirSum(h, s, up, at, n, t))
  {
    hide *;
    var b, g := Spread(s, up, at, size), Wrapped(h, m, size);
    FirSumUnfold(h, s, up, at, n, t);
    if t == 0 {
      WeighRegroup(m, 0.0, 0.0, 0.0);
      forall j: nat | j < n ensures CircularTerms(b, g, n)(j) == 0.0 {
        TermIs(h, m, s, up, at, size, n, j);
      }
      RealSumZero(n, CircularTerms(b, g, n));
    } else {
      PartialSum(h, m, s, up, at, size, n, t - 1);
      RealSumUnfold(n + t, CircularTerms(b, g, n));
      TermIs(h, m, s, up, at, size, n, n + t - 1);
      WeighRegroup(m, FirSum(h, s, up, at, n, t - 1), h[|h| - t], Stuffed(s, up, at, n + (t - 1)));
      assert n + t - 1 == n + (t - 1) && |h| - 1 - (n + t - 1 - n) == |h| - t;
    }
  }

  lemma FirSumUnfold(h: seq<real>, x: seq<real>, up: nat, first: int, v: nat, t: nat)
    requires up > 0 && t <= |h|
    ensures FirSum(h, x, up, first, v, t) ==
            if t == 0 then 0.0
            else FirSum(h, x, up, first, v, t - 1) + Weigh(h[|h| - t], Stuffed(x, up, first, v + (t - 1)))
  {
  }

  lemma {:induction false} RealSumZero(n: nat, f: nat -> real)
    requires forall j: nat | j < n :: f(j) == 0.0
    ensures RealSum(n, f) == 0.0
  {
    if n > 0 {
      RealSumZero(n - 1, f);
    }
  }

  lemma TermIs(h: seq<real>, m: real, s: seq<real>, up: nat, at: nat, size: nat, n: nat, j: nat)
    requires up > 0 && 1 <= |h| <= size && n + |h| <= size && j < size
    ensures CircularTerms(Spread(s, up, at, size), Wrapped(h, m, size), n)(j) ==
            if n <= j < n + |h| then Weigh(Stuffed(s, up, at, j), Weigh(h[|h| - 1 - (j - n)], m)) else 0.0
  {
    hide *;
    var b, g := Spread(s, up, at, size), Wrapped(h, m, size);
    CircularTermsAt(b, g, n, j);
    TapMeets(h, m, size, n, j);
    SpreadCell(s, up, at, size, j);
    WeighRegroup(0.0, 0.0, 0.0, Cell(b, j));
  }

  lemma SpreadCell(s: seq<real>, up: nat, at: nat, size: nat, j: nat)
    requires up > 0 && j < size
    ensures Cell(Spread(s, up, at, size), j) == Stuffed(s, up, at, j)
  {
    hide Stuffed;
  }

  lemma {:induction false} RestZero(n: nat, k: nat, f: nat -> real)
    requires forall j: nat | n <= j < n + k :: f(j) == 0.0
    ensures RealSum(n + k, f) == RealSum(n, f)
  {
    if k > 0 {
      RestZero(n, k - 1, f);
    }
  }

  /** Away from the wrapped-around end, circular filtering of a block is linear filtering. */
  lemma CircularIsLinear(h: seq<real>, m: real, s: seq<real>, up: nat, at: nat, size: nat, n: nat)
    requires up > 0 && 1 <= |h| <= size && n + |h| <= size
    ensures Circular(Spread(s, up, at, size), Wrapped(h, m, size))[n] == Weigh(m, FirSum(h, s, up, at, n, |h|))
  {
    hide *;
    var b, g := Spread(s, up, at, size), Wrapped(h, m, size);
    CircularAt(b, g, n);
    CellOf(Circular(b, g), n);
    PartialSum(h, m, s, up, at, size, n, |h|);
    var f := CircularTerms(b, g, n);
    forall j: nat | n + |h| <= j < n + |h| + (size - n - |h|) ensures f(j) == 0.0 {
      TermIs(h, m, s, up, at, size, n, j);
    }
    RestZero(n + |h|, size - n - |h|, f);
  }

  lemma CellOf(s: seq<real>, i: nat)
    requires i < |s|
    ensures Cell(s, i) == s[i]
  {
  }

  /** The kept part of what the transforms yield. */
  ghost predicate BlockOk(f: Filter, s: seq<real>, at: nat, a: seq<real>)
    requires f.Sound() && f.size <= |a|
  {
    forall n: nat | n < f.Block() :: a[n] == Value(f, s, Start(f, at), n)
  }

  lemma FilteredBlock(f: Filter, m: real, s: seq<real>, at: nat, a: seq<real>)
    requires f.Sound() && |a| == f.size && f.gain == Weigh((f.size / 2) as real, m)
    requires a ==
        ScaleReals((f.size / 2) as real, Circular(Spread(s, f.up, Start(f, at), f.size), Wrapped(f.taps, m, f.size)))
    ensures BlockOk(f, s, at, a)
  {
    hide Circular, Spread, Wrapped, FirSum, Start, Value;
    var half := (f.size / 2) as real;
    forall n: nat | n < f.Block() ensures a[n] == Value(f, s, Start(f, at), n) {
      CircularIsLinear(f.taps, m, s, f.up, Start(f, at), f.size, n);
      WeighTwice(half, m, FirSum(f.taps, s, f.up, Start(f, at), n, |f.taps|));
      ValueIs(f, s, Start(f, at), n);
    }
  }

  lemma ValueIs(f: Filter, x: seq<real>, first: int, v: nat)
    requires f.Sound()
    ensures Value(f, x, first, v) == Weigh(f.gain, FirSum(f.taps, x, f.up, first, v, |f.taps|))
  {
  }

  lemma WeighTwice(a: real, m: real, x: real)
    ensures a * Weigh(m, x) == Weigh(Weigh(a, m), x)
  {
  }

  // ---- filling the block ----

  /** lsx_is_power_of_2 (soxr-sys/src/filter.h, line 14): 1 does not pass. */
  predicate PowerOfTwo(x: nat) {
    x >= 2 && (x == 2 || (x % 2 == 0 && PowerOfTwo(x / 2)))
  }

  lemma {:induction false} PowerOfTwoIs(x: nat, p: nat)
    requires x == Pow2(p)
    ensures PowerOfTwo(x) <==> p > 0
  {
    if p > 1 {
      PowerOfTwoIs(x / 2, p - 1);
    }
  }

  lemma {:induction false} PowerOfTwoOnly(x: nat) returns (p: nat)
    requires PowerOfTwo(x)
    ensures p > 0 && x == Pow2(p)
  {
    if x == 2 {
      assert Pow2(1) == 2;
      p := 1;
    } else {
      p := PowerOfTwoOnly(x / 2);
      p := p + 1;
    }
  }

  /** The test of filter.h, line 14: zeros are stuffed in the frequency domain for the powers of two
      from 2 on. */
  lemma PowerOfTwoIff(x: nat)
    ensures PowerOfTwo(x) <==> exists p: nat :: p > 0 && x == Pow2(p)
  {
    if PowerOfTwo(x) {
      var p := PowerOfTwoOnly(x);
    }
    if p: nat :| p > 0 && x == Pow2(p) {
      PowerOfTwoIs(x, p);
    }
  }

  /** Room in the shared tables for transforms of up to size cells: dft_br_len and dft_sc_len
      (soxr-sys/src/fft4g.h, lines 18-19). */
  ghost predicate RoomFor(size: nat, nw: nat, nc: nat, cells: nat) {
    4 * nw <= size && (4 * nc <= size || nc <= 1) && size <= 2 * cells
  }

  ghost predicate Room(size: nat, ip: array<nat>, w: array<real>)
    reads ip
  {
    ip.Length >= 2 && RoomFor(size, ip[0], ip[1], w.Length)
  }

  lemma RoomServes(size: nat, n: nat, ip: array<nat>, w: array<real>)
    requires Room(size, ip, w) && 2 <= n <= size
    ensures TablesRoom(n, ip, w)
  {
  }

  lemma RoomKept(size: nat, n: nat, nw: nat, nc: nat, nw': nat, nc': nat, cells: nat)
    requires RoomFor(size, nw, nc, cells) && n <= size && Grown(n, nw, nc, nw', nc')
    ensures RoomFor(size, nw', nc', cells)
  {
  }

  lemma RoomIs(size: nat, ip: array<nat>, w: array<real>)
    requires ip.Length >= 2
    ensures Room(size, ip, w) <==> RoomFor(size, ip[0], ip[1], w.Length)
  {
  }

  /** The stream in the buffer, from cell input on. */
  ghost function Queue(data: array<real>, input: nat, numIn: nat): (s: seq<real>)
    requires input + numIn <= data.Length
    reads data
    ensures |s| == numIn
  {
    data[input..input + numIn]
  }

  ghost predicate StuffedUpTo(d: seq<real>, s: seq<real>, up: nat, at: nat, size: nat, i: nat)
    requires up > 0 && size <= |d|
  {
    forall k: nat | k < size :: d[k] == if k < i then Stuffed(s, up, at, k) else 0.0
  }

  lemma StuffedPlace(s: seq<real>, up: nat, at: nat, j: nat, k: nat)
    requires up > 0 && j < |s| && at + Position(up, j) <= k < at + Position(up, j) + up
    ensures Stuffed(s, up, at, k) == if k == at + Position(up, j) then s[j] else 0.0
  {
    PositionIs(up, j);
    DigitsDivMod(up, k - at - Position(up, j), j);
    hide Position;
  }

  lemma StuffedStep(d: seq<real>, s: seq<real>, up: nat, at: nat, size: nat, j: nat)
    requires up > 0 && size <= |d| && j < |s| && at + Position(up, j) < size
    requires StuffedUpTo(d, s, up, at, size, at + Position(up, j))
    ensures StuffedUpTo(d[at + Position(up, j) := s[j]], s, up, at, size, at + Position(up, j) + up)
  {
    hide Stuffed, Position;
    var i := at + Position(up, j);
    var e := d[i := s[j]];
    forall k: nat | k < size ensures e[k] == if k < i + up then Stuffed(s, up, at, k) else 0.0 {
      if i <= k < i + up {
        StuffedPlace(s, up, at, j, k);
      }
    }
  }

  lemma StuffedStart(d: seq<real>, s: seq<real>, up: nat, at: nat, size: nat)
    requires 0 <= at < up && size <= |d| && forall k: nat | k < size :: d[k] == 0.0
    ensures StuffedUpTo(d, s, up, at, size, at)
  {
  }

  lemma StuffedEnd(d: seq<real>, s: seq<real>, up: nat, at: nat, size: nat, i: nat)
    requires up > 0 && size <= |d| && i >= size && StuffedUpTo(d, s, up, at, size, i)
    ensures d[..size] == Spread(s, up, at, size)
  {
    hide Stuffed;
  }

  /** Without zero stuffing the block is the queue's head. */
  lemma SpreadByOne(s: seq<real>, size: nat)
    requires size <= |s|
    ensures s[..size] == Spread(s, 1, 0, size)
  {
  }

  /** Lines 126-137. */
  method StuffBlock(up: nat, at: nat, size: nat, data: array<real>, input: nat, ghost numIn: nat, dftOut: array<real>)
    requires at < up && at + Position(up, numIn) >= size && input + numIn <= data.Length
    requires dftOut != data && size <= dftOut.Length
    modifies dftOut
    ensures dftOut[..size] == Spread(Queue(data, input, numIn), up, at, size)
  {
    ghost var s := Queue(data, input, numIn);
    if up == 1 {
      PositionIs(1, numIn);
      forall k | 0 <= k < size {
        dftOut[k] := data[input + k];
      }
      SpreadByOne(s, size);
      assert dftOut[..size] == s[..size];
    } else {
      forall k | 0 <= k < size {
        dftOut[k] := 0.0;
      }
      StuffedStart(dftOut[..], s, up, at, size);
      PositionSum(up, 0, 0);
      hide *;
      var j, i := 0, at;
      while i < size
        invariant i == at + Position(up, j) && data[input..input + numIn] == s
        invariant StuffedUpTo(dftOut[..], s, up, at, size, i)
        decreases size - i
      {
        InsideQueue(up, at, size, numIn, j);
        StuffedStep(dftOut[..], s, up, at, size, j);
        PositionSum(up, j, 1);
        QueueCell(data, input, numIn, j, s);
        dftOut[i] := data[input + j];
        j, i := j + 1, i + up;
      }
      StuffedEnd(dftOut[..], s, up, at, size, i);
      assert dftOut[..][..size] == dftOut[..size];
      QueueIs(data, input, numIn);
    }
  }

  lemma QueueIs(data: array<real>, input: nat, numIn: nat)
    requires input + numIn <= data.Length
    ensures Queue(data, input, numIn) == data[input..input + numIn]
  {
  }

  lemma QueueCell(data: array<real>, input: nat, numIn: nat, j: nat, s: seq<real>)
    requires input + numIn <= data.Length && data[input..input + numIn] == s && j < numIn
    ensures |s| == numIn && data[input + j] == s[j]
  {
  }

  lemma InsideQueue(up: nat, at: nat, size: nat, numIn: nat, j: nat)
    requires at + Position(up, numIn) >= size && at + Position(up, j) < size
    ensures j < numIn
  {
    if j >= numIn {
      PositionGrows(up, numIn, j);
    }
  }

  /** Lines 125-139: without zero stuffing, or with it done sample by sample. */
  method TimeSpectrum(up: nat, at: nat, size: nat, data: array<real>, input: nat, ghost numIn: nat, dftOut: array<real>,
                      ip: array<nat>, w: array<real>, turn: nat -> Complex, ghost q: nat)
    requires at < up && at + Position(up, numIn) >= size && input + numIn <= data.Length
    requires dftOut != data && size <= dftOut.Length && dftOut != w && data != w
    requires size >= 2 && size % 2 == 0 && size == 2 * Pow2(q) <= Pow2(23)
    requires IsTurn(turn) && TablesReady(ip, w, turn) && Room(size, ip, w)
    modifies dftOut, ip, w
    ensures TablesReady(ip, w, turn) && Room(size, ip, w)
    ensures Head(dftOut, size) == HalfSpectrum(Spread(Queue(data, input, numIn), up, at, size), turn(size))
  {
    StuffBlock(up, at, size, data, input, numIn, dftOut);
    hide *;
    RoomHas(size, ip, w);
    RoomIs(size, ip, w);
    RoomServes(size, size, ip, w);
    Rdft(size, 1, dftOut, ip, w, turn, q);
    RoomKept(size, size, old(ip[0]), old(ip[1]), ip[0], ip[1], w.Length);
    RoomIs(size, ip, w);
  }

  lemma RoomHas(size: nat, ip: array<nat>, w: array<real>)
    requires Room(size, ip, w)
    ensures ip.Length >= 2
  {
  }

  /** Line 89. */
  method CopyPortion(portion: nat, data: array<real>, input: nat, ghost numIn: nat, dftOut: array<real>)
    requires portion <= numIn && input + numIn <= data.Length && dftOut != data && portion <= dftOut.Length
    modifies dftOut
    ensures dftOut[..portion] == Queue(data, input, numIn)[..portion]
  {
    ghost var s := Queue(data, input, numIn);
    forall k | 0 <= k < portion {
      dftOut[k] := data[input + k];
    }
    assert dftOut[..portion] == s[..portion];
  }

  /** Lines 87-122: the zeros are stuffed by copying the spectrum. */
  method CopiedSpectrum(portion: nat, size: nat, data: array<real>, input: nat, ghost numIn: nat, dftOut: array<real>,
                        ip: array<nat>, w: array<real>, turn: nat -> Complex, ghost q: nat, ghost p: nat)
    requires size % 2 == 0 && 2 <= portion <= size && portion % 2 == 0 && 0 < p
    requires portion == 2 * Pow2(q) && size == 2 * Pow2(q + p) && size <= Pow2(23)
    requires portion <= numIn && input + numIn <= data.Length
    requires dftOut != data && size <= dftOut.Length && dftOut != w && data != w
    requires IsTurn(turn) && TablesReady(ip, w, turn) && Room(size, ip, w)
    modifies dftOut, ip, w
    ensures TablesReady(ip, w, turn) && Room(size, ip, w)
    ensures Head(dftOut, size) == HalfSpectrum(Spread(Queue(data, input, numIn), Pow2(p), 0, size), turn(size))
  {
    hide *;
    ghost var s := Queue(data, input, numIn);
    CopyPortion(portion, data, input, numIn, dftOut);
    RoomHas(size, ip, w);
    RoomServes(size, portion, ip, w);
    RoomIs(size, ip, w);
    Rdft(portion, 1, dftOut, ip, w, turn, q);
    RoomKept(size, portion, old(ip[0]), old(ip[1]), ip[0], ip[1], w.Length);
    RoomIs(size, ip, w);
    CopiedSizes(q, p);
    Replicate(portion, size, dftOut, p);
    ReplicatedIsSpectrum(s, turn, q, p);
  }

  lemma CopiedSizes(q: nat, p: nat)
    ensures Times(2 * Pow2(q), Pow2(p)) == 2 * Pow2(q + p)
  {
    Pow2Add(q, p);
    MulAssoc3(2, Pow2(q), Pow2(p));
  }

  lemma PortionIs(size: nat, up: nat, q: nat, p: nat)
    requires up == Pow2(p) && 0 < p <= q && size == 2 * Pow2(q)
    ensures var portion := size / up;
            && portion == 2 * Pow2(q - p) && portion % 2 == 0 && 2 <= portion <= size
            && Times(portion, Pow2(p)) == size
  {
    Pow2Add(q - p, p);
    Pow2Monotone(q - p, q);
    hide Pow2;
    var b := Pow2(q - p);
    MulAssoc3(2, b, Pow2(p));
    assert size == 0 + up * (2 * b);
    DigitsDivMod(up, 0, 2 * b);
  }

  // ---- keeping every M-th value ----

  lemma CountAtMost(down: nat, rem: nat, limit: nat)
    requires down > 0
    ensures Count(down, rem, limit) <= limit
  {
    CountIs(down, rem, limit, limit);
    MulLe(limit, 1, down);
  }

  /** Lines 150-158. */
  method Decimate(down: nat, remM: nat, block: nat, a: array<real>, out: array<real>, p: nat) returns (j: nat, i: nat)
    requires down > 0 && block <= a.Length && p + block <= out.Length && out != a
    modifies out
    ensures j == Count(down, remM, block) && j <= block <= i && i == remM + Position(down, j)
    ensures out[..p] == old(out[..p])
    ensures forall k: nat | k < j :: remM + Position(down, k) < block && out[p + k] == a[remM + Position(down, k)]
  {
    CountAtMost(down, remM, block);
    PositionSum(down, 0, 0);
    hide *;
    ghost var count := Count(down, remM, block);
    j, i := 0, remM;
    while i < block
      invariant j <= count && i == remM + Position(down, j)
      invariant j > 0 ==> remM + Position(down, j - 1) < block
      invariant out[..p] == old(out[..p])
      invariant forall k: nat | k < j :: remM + Position(down, k) < block && out[p + k] == a[remM + Position(down, k)]
      decreases count - j
    {
      CountIs(down, remM, block, j);
      PositionSum(down, j, 1);
      out[p + j] := a[i];
      j, i := j + 1, i + down;
    }
    CountUnique(down, remM, block, j);
  }

  lemma KeptValues(f: Filter, s: seq<real>, at: nat, remM: nat, a: seq<real>, out: seq<real>)
    requires f.Sound() && f.size <= |a| && BlockOk(f, s, at, a)
    requires |out| == Kept(f, remM)
    requires forall k: nat | k < |out| ::
               remM + Position(f.down, k) < f.Block() && out[k] == a[remM + Position(f.down, k)]
    ensures out == Produced(f, s, at, remM)
  {
    hide Value, Position, Start, Count;
  }

  lemma KeptAll(f: Filter, s: seq<real>, at: nat, a: seq<real>)
    requires f.Sound() && f.down == 1 && f.size <= |a| && BlockOk(f, s, at, a)
    ensures a[..f.Block()] == Produced(f, s, at, 0) && NextRem(f, 0) == 0
  {
    var b := f.Block();
    PositionIs(1, b);
    if b > 0 {
      PositionIs(1, b - 1);
    }
    CountUnique(1, 0, b, b);
    hide Value, Start, Count, Kept;
    KeptIs(f, 0);
    forall k: nat | k < b ensures Position(1, k) == k {
      PositionIs(1, k);
    }
    hide Position;
    KeptValues(f, s, at, 0, a, a[..b]);
  }

  lemma KeptIs(f: Filter, remM: nat)
    requires f.Sound()
    ensures Kept(f, remM) == Count(f.down, remM, f.Block())
    ensures NextRem(f, remM) == remM + Position(f.down, Kept(f, remM)) - f.Block()
  {
  }

  // ---- decimation in the frequency domain ----

  /** The product of the two spectra, packed. */
  ghost function BlockSpectrum(f: Filter, scale: real, s: seq<real>, at: nat, turn: nat -> Complex): (y: seq<Complex>)
    requires f.Sound()
    ensures |y| == f.size / 2
  {
    Product(HalfSpectrum(Spread(s, f.up, Start(f, at), f.size), turn(f.size)), TapSpectrum(f, scale, turn))
  }

  ghost function TapSpectrum(f: Filter, scale: real, turn: nat -> Complex): (v: seq<Complex>)
    requires f.Sound()
    ensures |v| == f.size / 2
  {
    HalfSpectrum(Wrapped(f.taps, scale, f.size), turn(f.size))
  }

  /** A transform that decimation by M = 2^m in the frequency domain divides. */
  ghost predicate Thinnable(f: Filter, q: nat, m: nat) {
    f.Sound() && f.size == 2 * Pow2(q) && 0 < m <= q && f.down == Pow2(m)
  }

  /** The number of coefficients kept. */
  function Edge(f: Filter): nat
    requires f.Sound()
  {
    f.size / 2 / f.down
  }

  lemma EdgeIs(f: Filter, q: nat, m: nat)
    requires Thinnable(f, q, m)
    ensures Edge(f) == Pow2(q - m) && 0 < Edge(f) < f.size / 2 == Pow2(q) && f.size / 2 == Edge(f) * f.down
    ensures f.down % 2 == 0 && f.size % 2 == 0 && f.size / f.down == 2 * Edge(f)
  {
    var e := Pow2(q - m);
    Pow2Add(q - m, m);
    Pow2Two(m);
    Pow2Monotone(1, m);
    Pow2Small();
    hide Pow2;
    ProductIsMultiple(f.down, e);
    ProductIsMultiple(2, Pow2(m - 1));
    ProductIsMultiple(2, Pow2(q));
    MulLe(e, 2, f.down);
    MulAssoc3(2, e, f.down);
    MulAssoc3(2, f.down, e);
    ProductIsMultiple(f.down, 2 * e);
  }

  /** What a block emits then. */
  ghost function Thinned(f: Filter, scale: real, s: seq<real>, at: nat, turn: nat -> Complex): (out: seq<real>)
    requires f.Sound() && 0 < Edge(f) < f.size / 2
    ensures |out| == Kept(f, 0)
  {
    seq(Kept(f, 0), i requires 0 <= i < Kept(f, 0) => ThinnedAt(f, scale, s, at, turn, i))
  }

  ghost function ThinnedAt(f: Filter, scale: real, s: seq<real>, at: nat, turn: nat -> Complex, i: nat): real
    requires f.Sound() && 0 < Edge(f) < f.size / 2
  {
    InverseReal(Lower(BlockSpectrum(f, scale, s, at, turn), Edge(f)), Pow(turn(f.size), f.down), i)
  }

  lemma ThinnedIs(f: Filter, scale: real, s: seq<real>, at: nat, turn: nat -> Complex, i: nat)
    requires f.Sound() && 0 < Edge(f) < f.size / 2
    ensures |BlockSpectrum(f, scale, s, at, turn)| == f.size / 2
    ensures |Lower(BlockSpectrum(f, scale, s, at, turn), Edge(f))| == Edge(f)
    ensures |Thinned(f, scale, s, at, turn)| == Kept(f, 0)
    ensures ThinnedAt(f, scale, s, at, turn, i) ==
            InverseReal(Lower(BlockSpectrum(f, scale, s, at, turn), Edge(f)), Pow(turn(f.size), f.down), i)
    ensures i < Kept(f, 0) ==> Thinned(f, scale, s, at, turn)[i] == ThinnedAt(f, scale, s, at, turn, i)
  {
    hide InverseReal, BlockSpectrum, Lower, Pow, Kept, Edge;
  }

  /** The long backward transform of the product is the linear filter. */
  lemma LongIsValue(f: Filter, scale: real, s: seq<real>, at: nat, turn: nat -> Complex, q: nat, n: nat)
    requires f.Sound() && IsTurn(turn) && f.size == 2 * Pow2(q) && n < f.Block()
    requires f.gain == Weigh((f.size / 2) as real, scale)
    ensures |BlockSpectrum(f, scale, s, at, turn)| > 0
    ensures InverseReal(BlockSpectrum(f, scale, s, at, turn), turn(f.size), n) == Value(f, s, Start(f, at), n)
  {
    hide *;
    BlockIs(f);
    var x, g := Spread(s, f.up, Start(f, at), f.size), Wrapped(f.taps, scale, f.size);
    BlockSpectrumIs(f, scale, s, at, turn);
    Pow2Two(q + 1);
    TurnRoot(turn, q + 1);
    LongIsCircular(x, g, turn(f.size), q, n);
    CircularIsLinear(f.taps, scale, s, f.up, Start(f, at), f.size, n);
    LongValue(f, scale, s, at, q, n, Circular(x, g)[n]);
  }

  lemma LongValue(f: Filter, scale: real, s: seq<real>, at: nat, q: nat, n: nat, c: real)
    requires f.Sound() && f.size == 2 * Pow2(q) && f.gain == Weigh((f.size / 2) as real, scale)
    requires c == Weigh(scale, FirSum(f.taps, s, f.up, Start(f, at), n, |f.taps|))
    ensures Pow2(q) as real * c == Value(f, s, Start(f, at), n)
  {
    hide *;
    BlockIs(f);
    assert f.size / 2 == Pow2(q);
    WeighTwice((f.size / 2) as real, scale, FirSum(f.taps, s, f.up, Start(f, at), n, |f.taps|));
    ValueIs(f, s, Start(f, at), n);
  }

  lemma BlockIs(f: Filter)
    requires f.Sound()
    ensures f.up > 0 && f.down > 0 && 1 <= |f.taps| <= f.size && f.Block() == f.size - (|f.taps| - 1)
  {
  }

  lemma BlockSpectrumIs(f: Filter, scale: real, s: seq<real>, at: nat, turn: nat -> Complex)
    requires f.Sound()
    ensures |Spread(s, f.up, Start(f, at), f.size)| == |Wrapped(f.taps, scale, f.size)| == f.size
    ensures |Circular(Spread(s, f.up, Start(f, at), f.size), Wrapped(f.taps, scale, f.size))| == f.size
    ensures BlockSpectrum(f, scale, s, at, turn) ==
            Product(HalfSpectrum(Spread(s, f.up, Start(f, at), f.size), turn(f.size)),
                    HalfSpectrum(Wrapped(f.taps, scale, f.size), turn(f.size)))
  {
    hide Product, HalfSpectrum, Spread, Wrapped, Circular;
  }

  /** Every value emitted is the linear filter's, less what the coefficients that were dropped would
      have added. */
  lemma ThinnedLoses(f: Filter, scale: real, s: seq<real>, at: nat, turn: nat -> Complex, q: nat, m: nat, i: nat)
    requires Thinnable(f, q, m) && IsTurn(turn) && f.gain == Weigh((f.size / 2) as real, scale) && i < Kept(f, 0)
    ensures 0 < Edge(f) < f.size / 2 == |BlockSpectrum(f, scale, s, at, turn)|
    ensures Thinned(f, scale, s, at, turn)[i] == Value(f, s, Start(f, at), f.down * i)
                - Lost(BlockSpectrum(f, scale, s, at, turn), turn(f.size), f.down * i, Edge(f), i)
  {
    hide *;
    EdgeIs(f, q, m);
    ThinnableIs(f, q, m);
    KeptInside(f, i);
    var y := BlockSpectrum(f, scale, s, at, turn);
    ThinnedIs(f, scale, s, at, turn, i);
    HalfTurn(turn, q);
    LowerLoses(y, turn(f.size), f.down, Edge(f), i);
    LongIsValue(f, scale, s, at, turn, q, f.down * i);
  }

  lemma ThinnableStep(f: Filter, q: nat, m: int)
    requires m >= 0 && Thinnable(f, q, m)
    ensures 0 < m <= q && f.down == Pow2(m)
  {
  }

  lemma ThinnableIs(f: Filter, q: nat, m: nat)
    requires Thinnable(f, q, m)
    ensures f.Sound() && f.size == 2 * Pow2(q)
  {
  }

  lemma HalfTurn(turn: nat -> Complex, q: nat)
    requires IsTurn(turn)
    ensures Pow(turn(2 * Pow2(q)), Pow2(q)) == Neg(ONE)
  {
    hide *;
    Pow2Two(q + 1);
    TurnRoot(turn, q + 1);
    RootPowers(turn(Pow2(q + 1)), q + 1);
  }

  lemma KeptInside(f: Filter, i: nat)
    requires f.Sound() && i < Kept(f, 0)
    ensures f.down * i < f.Block()
  {
    KeptIs(f, 0);
    CountIs(f.down, 0, f.Block(), i);
    PositionIs(f.down, i);
  }

  lemma ProducedAt(f: Filter, s: seq<real>, at: nat, i: nat)
    requires f.Sound() && i < Kept(f, 0)
    ensures |Produced(f, s, at, 0)| == Kept(f, 0)
    ensures Produced(f, s, at, 0)[i] == Value(f, s, Start(f, at), f.down * i)
  {
    PositionIs(f.down, i);
    hide Value, Start, Kept, Position;
  }

  /** With a filter whose spectrum vanishes from the edge up, decimation in the frequency domain makes
      just what decimation in the time domain makes. */
  lemma ThinnedWhenClear(f: Filter, scale: real, s: seq<real>, at: nat, turn: nat -> Complex, q: nat, m: nat)
    requires Thinnable(f, q, m) && IsTurn(turn) && f.gain == Weigh((f.size / 2) as real, scale)
    requires 0 < Edge(f) < f.size / 2 && Clear(TapSpectrum(f, scale, turn), Edge(f))
    ensures Thinned(f, scale, s, at, turn) == Produced(f, s, at, 0)
  {
    hide *;
    ThinnableIs(f, q, m);
    var y := BlockSpectrum(f, scale, s, at, turn);
    ClearBlock(f, scale, s, at, turn);
    ThinnedIs(f, scale, s, at, turn, 0);
    KeptLength(f, s, at);
    forall i: nat | i < Kept(f, 0) ensures Thinned(f, scale, s, at, turn)[i] == Produced(f, s, at, 0)[i] {
      ThinnedLoses(f, scale, s, at, turn, q, m, i);
      NothingLost(y, turn(f.size), f.down * i, Edge(f), i);
      ProducedAt(f, s, at, i);
    }
  }

  lemma ClearBlock(f: Filter, scale: real, s: seq<real>, at: nat, turn: nat -> Complex)
    requires f.Sound() && 0 < Edge(f) < f.size / 2 && Clear(TapSpectrum(f, scale, turn), Edge(f))
    ensures |BlockSpectrum(f, scale, s, at, turn)| == f.size / 2
    ensures Clear(BlockSpectrum(f, scale, s, at, turn), Edge(f))
  {
    hide Clear, TapSpectrum, HalfSpectrum, Product, Edge;
    var u := HalfSpectrum(Spread(s, f.up, Start(f, at), f.size), turn(f.size));
    ClearProduct(u, TapSpectrum(f, scale, turn), Edge(f));
  }

  lemma KeptLength(f: Filter, s: seq<real>, at: nat)
    requires f.Sound()
    ensures |Produced(f, s, at, 0)| == Kept(f, 0)
  {
  }

  /** Without zero stuffing that is exact: on every queue the two make the same just when the filter's
      spectrum vanishes from the edge up. */
  lemma ThinnedIffClear(f: Filter, scale: real, turn: nat -> Complex, q: nat, m: nat)
    requires Thinnable(f, q, m) && IsTurn(turn) && f.gain == Weigh((f.size / 2) as real, scale) && f.up == 1
    ensures 0 < Edge(f) < f.size / 2
    ensures (forall s: seq<real> | |s| >= f.size :: Thinned(f, scale, s, 0, turn) == Produced(f, s, 0, 0)) <==>
            Clear(TapSpectrum(f, scale, turn), Edge(f))
  {
    EdgeIs(f, q, m);
    if Clear(TapSpectrum(f, scale, turn), Edge(f)) {
      forall s: seq<real> | |s| >= f.size ensures Thinned(f, scale, s, 0, turn) == Produced(f, s, 0, 0) {
        ThinnedWhenClear(f, scale, s, 0, turn, q, m);
      }
    } else {
      var s := ThinnedDiffers(f, scale, turn, q, m);
    }
  }

  lemma ThinnedDiffers(f: Filter, scale: real, turn: nat -> Complex, q: nat, m: nat) returns (s: seq<real>)
    requires Thinnable(f, q, m) && IsTurn(turn) && f.gain == Weigh((f.size / 2) as real, scale) && f.up == 1
    requires 0 < Edge(f) < f.size / 2 && !Clear(TapSpectrum(f, scale, turn), Edge(f))
    ensures |s| == f.size && Thinned(f, scale, s, 0, turn) != Produced(f, s, 0, 0)
  {
    EdgeIs(f, q, m);
    BlockIs(f);
    var v, e := TapSpectrum(f, scale, turn), Edge(f);
    assert |v| == f.size / 2;
    var b: nat :| (b == 0 || e <= b < |v|) && (if b == 0 then v[0].im != 0.0 else v[b] != ZERO);
    KeptIs(f, 0);
    CountIs(f.down, 0, f.Block(), 0);
    PositionSum(f.down, 0, 0);
    hide *;
    s := InexactBlock(v, turn, q, f.down, e, b);
    WholeBlockSpectrum(f, scale, s, turn);
    LongIsValue(f, scale, s, 0, turn, q, 0);
    ThinnedIs(f, scale, s, 0, turn, 0);
    ProducedAt(f, s, 0, 0);
    assert f.down * 0 == 0;
  }

  lemma WholeBlockSpectrum(f: Filter, scale: real, s: seq<real>, turn: nat -> Complex)
    requires f.Sound() && f.up == 1 && |s| == f.size
    ensures |HalfSpectrum(s, turn(f.size))| == |TapSpectrum(f, scale, turn)|
    ensures BlockSpectrum(f, scale, s, 0, turn) == Product(HalfSpectrum(s, turn(f.size)), TapSpectrum(f, scale, turn))
  {
    hide Product, HalfSpectrum, TapSpectrum;
    SpreadWhole(s, Start(f, 0), f.size);
  }

  lemma SpreadWhole(s: seq<real>, first: nat, size: nat)
    requires |s| == size && first == 0
    ensures Spread(s, 1, first, size) == s
  {
    var x := Spread(s, 1, first, size);
    forall i: nat | i < size ensures x[i] == s[i] {
      assert x[i] == Stuffed(s, 1, 0, i);
      assert (i - 0) % 1 == 0 && (i - 0) / 1 == i;
    }
  }

  /** What a call makes, with a positive step or, in the frequency domain, a negative one; then remM
      is left alone. */
  ghost function Called(f: Filter, step: int, scale: real, turn: nat -> Complex, st: State): State
    requires f.Sound() && st.at < f.up && st.remM < f.down && (step <= 0 ==> 0 < Edge(f) < f.size / 2)
  {
    if step > 0 || !Fires(f, st.at, |st.queue|) then Fired(f, st)
    else Fired(f, st).(remM := st.remM, produced := st.produced + Thinned(f, scale, st.queue, st.at, turn))
  }

  /** With a clear spectrum and blocks that M divides, such a stage runs as OverlapSave says. */
  lemma CalledIsFired(f: Filter, step: int, scale: real, turn: nat -> Complex, q: nat, m: nat, st: State)
    requires Thinnable(f, q, m) && IsTurn(turn) && f.gain == Weigh((f.size / 2) as real, scale)
    requires 0 < Edge(f) < f.size / 2 && Clear(TapSpectrum(f, scale, turn), Edge(f))
    requires st.at < f.up && st.remM == 0 && f.Block() % f.down == 0
    ensures Called(f, step, scale, turn, st) == Fired(f, st) && Fired(f, st).remM == 0
  {
    ThinnedWhenClear(f, scale, st.queue, st.at, turn, q, m);
    NoRemainder(f);
    hide Thinned, Produced, Thinnable, NextRem, InputSize, Consumed, NextAt, Fires, Clear, Edge;
    StepFacts(f, st.at, st.remM, |st.queue|);
  }

  lemma CalledInRange(f: Filter, step: int, scale: real, turn: nat -> Complex, st: State)
    requires f.Sound() && st.at < f.up && st.remM < f.down && (step <= 0 ==> 0 < Edge(f) < f.size / 2)
    ensures Called(f, step, scale, turn, st).at < f.up && Called(f, step, scale, turn, st).remM < f.down
  {
    hide Thinned, Produced, NextRem, InputSize, Consumed, NextAt, Fires, Edge;
    StepFacts(f, st.at, st.remM, |st.queue|);
  }

  /** Any arrivals and calls of such a stage. */
  ghost function CalledRun(f: Filter, step: int, scale: real, turn: nat -> Complex, at: nat, first: seq<real>,
                           events: seq<Event>): (st: State)
    requires f.Sound() && at < f.up && (step <= 0 ==> 0 < Edge(f) < f.size / 2)
    ensures st.at < f.up && st.remM < f.down
  {
    if events == [] then State(first, at, 0, InputSize(f, at), [])
    else
      var st := CalledRun(f, step, scale, turn, at, first, events[..|events| - 1]);
      match events[|events| - 1]
      case Arrive(samples) => st.(queue := st.queue + samples)
      case Fire =>
        CalledInRange(f, step, scale, turn, st);
        Called(f, step, scale, turn, st)
  }

  /** With a clear spectrum and blocks that M divides, RunIsFilter speaks of it too. */
  lemma {:induction false} CalledRunIsRun(f: Filter, step: int, scale: real, turn: nat -> Complex, q: nat, m: nat,
                                          at: nat, first: seq<real>, events: seq<Event>)
    requires Thinnable(f, q, m) && IsTurn(turn) && f.gain == Weigh((f.size / 2) as real, scale) && step <= 0
    requires 0 < Edge(f) < f.size / 2 && Clear(TapSpectrum(f, scale, turn), Edge(f))
    requires at < f.up && f.Block() % f.down == 0
    ensures CalledRun(f, step, scale, turn, at, first, events) == Run(f, at, first, events)
    ensures Run(f, at, first, events).remM == 0
  {
    hide Thinnable, Called, Fired, Clear, Edge, TapSpectrum, InputSize;
    if events != [] {
      var before := events[..|events| - 1];
      CalledRunIsRun(f, step, scale, turn, q, m, at, first, before);
      CalledIsFired(f, step, scale, turn, q, m, Run(f, at, first, before));
    }
  }

  lemma NoRemainder(f: Filter)
    requires f.Sound() && f.Block() % f.down == 0
    ensures NextRem(f, 0) == 0
  {
    var b, e := f.Block(), f.Block() / f.down;
    PositionIs(f.down, e);
    if e > 0 {
      PositionIs(f.down, e - 1);
      MulDistrib(f.down, e, 1);
    }
    CountUnique(f.down, 0, b, e);
    KeptIs(f, 0);
  }

  // ---- the filter, set up ----

  ghost predicate WrappedUpTo(g: seq<real>, h: seq<real>, m: real, size: nat, k: nat)
    requires 1 <= |h| <= size
  {
    |g| == size && forall r: nat | r < size :: g[r] == if TapOf(|h|, size, r) < k then WrappedAt(h, m, size, r) else 0.0
  }

  lemma WrappedStep(g: seq<real>, h: seq<real>, m: real, size: nat, k: nat)
    requires 1 <= |h| <= size && k < |h| && WrappedUpTo(g, h, m, size, k)
    ensures var r := (k + (size - |h| + 1)) % size; WrappedUpTo(g[r := Weigh(h[k], m)], h, m, size, k + 1)
  {
    var r0 := (k + (size - |h| + 1)) % size;
    forall r: nat | r < size ensures TapOf(|h|, size, r) == k <==> r == r0 {
      WrapInverse(size, |h|, k, r);
    }
  }

  lemma WrapInverse(size: nat, taps: nat, k: nat, r: nat)
    requires 1 <= taps <= size && k < taps && r < size
    ensures TapOf(taps, size, r) == k <==> r == (k + (size - taps + 1)) % size
  {
    var a, b := r + taps - 1, k + (size - taps + 1);
    if a < size {
      DigitsDivMod(size, a, 0);
    } else {
      DigitsDivMod(size, a - size, 1);
    }
    if b < size {
      DigitsDivMod(size, b, 0);
    } else {
      DigitsDivMod(size, b - size, 1);
    }
  }

  lemma WrappedEnd(g: seq<real>, h: seq<real>, m: real, size: nat)
    requires 1 <= |h| <= size && WrappedUpTo(g, h, m, size, |h|)
    ensures g == Wrapped(h, m, size)
  {
  }

  lemma WrappedStart(g: seq<real>, h: seq<real>, m: real, size: nat)
    requires 1 <= |h| <= size && |g| == size && forall r: nat | r < size :: g[r] == 0.0
    ensures WrappedUpTo(g, h, m, size, 0)
  {
  }

  /** Lines 204-210.  For a power of two the mask size - 1 takes the remainder. */
  method WrapTaps(h: seq<real>, m: real, size: nat) returns (coefs: array<real>)
    requires 1 <= |h| <= size
    ensures fresh(coefs) && coefs[..] == Wrapped(h, m, size)
  {
    coefs := new real[size](_ => 0.0);
    WrappedStart(coefs[..], h, m, size);
    hide *;
    var offset := size - |h| + 1;
    for i := 0 to |h|
      invariant WrappedUpTo(coefs[..], h, m, size, i)
    {
      WrappedStep(coefs[..], h, m, size, i);
      var r := (i + offset) % size;
      coefs[r] := Weigh(h[i], m);
    }
    WrappedEnd(coefs[..], h, m, size);
  }

  /** Lines 204-210 and 226: the transform of the wrapped taps. */
  method PrepareCoefs(h: seq<real>, m: real, size: nat, ip: array<nat>, w: array<real>, turn: nat -> Complex,
      ghost q: nat)
    returns (coefs: array<real>)
    requires 1 <= |h| <= size && size == 2 * Pow2(q) <= Pow2(23) && size >= 2 && size % 2 == 0
    requires IsTurn(turn) && TablesReady(ip, w, turn) && Room(size, ip, w)
    modifies ip, w
    ensures TablesReady(ip, w, turn) && Room(size, ip, w)
    ensures fresh(coefs) && coefs.Length == size
    ensures Head(coefs, size) == HalfSpectrum(Wrapped(h, m, size), turn(size))
  {
    hide *;
    coefs := WrapTaps(h, m, size);
    WrappedLength(h, m, size);
    assert coefs[..size] == coefs[..];
    RoomHas(size, ip, w);
    RoomServes(size, size, ip, w);
    RoomIs(size, ip, w);
    Rdft(size, 1, coefs, ip, w, turn, q);
    RoomKept(size, size, old(ip[0]), old(ip[1]), ip[0], ip[1], w.Length);
    RoomIs(size, ip, w);
  }

  lemma WrappedLength(h: seq<real>, m: real, size: nat)
    requires 1 <= |h| <= size
    ensures |Wrapped(h, m, size)| == size
  {
  }

  /** Line 166. */
  method ShortBackward(ghost size: nat, portion: nat, dftOut: array<real>, ip: array<nat>, w: array<real>,
                       turn: nat -> Complex, ghost q: nat)
    requires portion % 2 == 0 && 2 <= portion == 2 * Pow2(q) <= size <= Pow2(23)
    requires portion <= dftOut.Length && dftOut != w
    requires IsTurn(turn) && TablesReady(ip, w, turn) && Room(size, ip, w)
    modifies dftOut, ip, w
    ensures TablesReady(ip, w, turn) && Room(size, ip, w)
    ensures |old(Head(dftOut, portion))| > 0
    ensures forall k: nat | k < portion :: dftOut[k] == InverseReal(old(Head(dftOut, portion)), turn(portion), k)
  {
    hide *;
    RoomHas(size, ip, w);
    RoomServes(size, portion, ip, w);
    RoomIs(size, ip, w);
    Rdft(portion, -1, dftOut, ip, w, turn, q);
    RoomKept(size, portion, old(ip[0]), old(ip[1]), ip[0], ip[1], w.Length);
    RoomIs(size, ip, w);
  }

  // ---- the stage ----

  class Stage {
    const fifo: Fifo<real>
    var at: nat
    var remM: nat
    var inputSize: nat
    const filter: Filter
    /** M, or -M/2 when the decimation is in the frequency domain. */
    const step: int
    const coefs: array<real>
    const dftOut: array<real>
    const ip: array<nat>
    const w: array<real>
    const turn: nat -> Complex
    ghost const scale: real
    ghost const q: nat
    ghost const p: nat

    /** The set-up that no call changes. */
    ghost predicate Prepared()
      reads coefs
    {
      && filter.Sound() && filter.size == 2 * Pow2(q) <= Pow2(23) && filter.size % 2 == 0 && filter.size >= 2
      && filter.spectral == PowerOfTwo(filter.up)
      && (filter.spectral ==> filter.up == Pow2(p) && 0 < p <= q)
      && filter.gain == Weigh((filter.size / 2) as real, scale)
      && (if step > 0 then step == filter.down else
            -2 <= step && Thinnable(filter, q, -step) && 0 < Edge(filter) < filter.size / 2)
      && filter.size <= coefs.Length && filter.size <= dftOut.Length
      && Head(coefs, filter.size) == HalfSpectrum(Wrapped(filter.taps, scale, filter.size), turn(filter.size))
      && IsTurn(turn)
    }

    ghost predicate Apart()
      reads fifo
    {
      && dftOut != coefs && dftOut != w && coefs != w
      && fifo.data != dftOut && fifo.data != coefs && fifo.data != w
    }

    ghost predicate Tables()
      reads ip, w
    {
      TablesReady(ip, w, turn) && Room(filter.size, ip, w)
    }

    ghost predicate Carried()
      reads this
    {
      filter.Sound() && at < filter.up && remM < filter.down && inputSize == InputSize(filter, at)
    }

    ghost predicate Valid()
      reads this, fifo, coefs, ip, w
    {
      Prepared() && Apart() && Tables() && Carried() && fifo.Valid() && fifo.itemSize == 1
    }

    /** dft_stage_init, lines 184-248, from the designed taps on; the queue is still empty. */
    constructor (taps: seq<real>, up: nat, down: nat, fDomain: bool, size: nat, multiplier: real, postPeak: nat,
                 ip: array<nat>, w: array<real>, turn: nat -> Complex, ghost q: nat, ghost p: nat)
      requires 1 <= up && 1 <= down && 1 <= |taps| <= size
      requires size == 2 * Pow2(q) <= Pow2(23) && size >= 2 && size % 2 == 0
      requires PowerOfTwo(up) ==> up == Pow2(p) && 0 < p <= q
      requires fDomain ==> (down == 2 || down == 4) && down <= Pow2(q)
      requires IsTurn(turn) && TablesReady(ip, w, turn) && Room(size, ip, w)
      modifies ip, w
      ensures Valid() && this.ip == ip && this.w == w && this.turn == turn
      ensures fresh(fifo) && fresh(fifo.data) && fresh(coefs) && fresh(dftOut)
      ensures filter == Filter(up, down, size, taps, up as real * multiplier, PowerOfTwo(up))
      ensures if fDomain then step < 0 && down == Pow2(-step) else step == down
      ensures fifo.Contents() == []
      ensures at == postPeak % up && remM == 0
    {
      hide Pow2, IsTurn, TablesReady, Room, Head, HalfSpectrum, Wrapped, PowerOfTwo, Weigh, InputSize, Scaling, Edge,
          Thinnable;
      var m := Scaling(size, up, multiplier);
      GainIs(size, up, multiplier);
      var c := PrepareCoefs(taps, m, size, ip, w, turn, q);
      coefs := c;
      dftOut := new real[size];
      var f := Filter(up, down, size, taps, up as real * multiplier, PowerOfTwo(up));
      filter := f;
      step := StageStep(down, fDomain);
      StageStepFits(f, q, fDomain);
      scale, this.q, this.p := m, q, p;
      this.ip, this.w, this.turn := ip, w, turn;
      var start := postPeak % up;
      at, remM, inputSize := start, 0, InputSize(f, start);
      fifo := new Fifo<real>(1);
      new;
    }

    /** Lines 489-490: zeros ahead of the stream, postPeak / up of them. */
    method Preload(preload: nat)
      requires Valid()
      modifies fifo, fifo.data
      ensures Valid() && (fifo.data == old(fifo.data) || fresh(fifo.data))
      ensures fifo.Contents() == old(fifo.Contents()) + Zeros(preload)
    {
      hide Prepared, Tables, Carried;
      var zeros := new real[preload](_ => 0.0);
      var p := fifo.Write(preload, zeros);
      assert zeros[..preload * 1] == Zeros(preload);
    }

    /** Lines 87-139: the spectrum of the zero-stuffed block. */
    method Analyse(input: nat, ghost numIn: nat)
      requires Prepared() && Apart() && Tables() && at < filter.up
      requires at + Position(filter.up, numIn) >= filter.size && input + numIn <= fifo.data.Length
      modifies dftOut, ip, w
      ensures Tables()
      ensures Head(dftOut, filter.size) ==
              HalfSpectrum(Spread(Queue(fifo.data, input, numIn), filter.up, Start(filter, at), filter.size),
                  turn(filter.size))
    {
      hide Pow2, Position, Spread, HalfSpectrum, Queue, Head, TablesReady, Room, IsTurn, Wrapped, PowerOfTwo, Weigh;
      if PowerOfTwo(filter.up) {
        var portion := filter.size / filter.up;
        PortionIs(filter.size, filter.up, q, p);
        PortionQueued(filter.size, filter.up, portion, p, at, numIn);
        CopiedSpectrum(portion, filter.size, fifo.data, input, numIn, dftOut, ip, w, turn, q - p, p);
      } else {
        TimeSpectrum(filter.up, at, filter.size, fifo.data, input, numIn, dftOut, ip, w, turn, q);
      }
    }

    /** Lines 87-146. */
    method Transform(input: nat, ghost numIn: nat)
      requires Prepared() && Apart() && Tables() && at < filter.up
      requires at + Position(filter.up, numIn) >= filter.size && input + numIn <= fifo.data.Length
      modifies dftOut, ip, w
      ensures Tables()
      ensures BlockOk(filter, Queue(fifo.data, input, numIn), at, dftOut[..])
    {
      hide Pow2, Position, Spread, HalfSpectrum, Queue, Head, TablesReady, IsTurn, Wrapped, PowerOfTwo, Weigh, Start,
          BlockOk, RoomFor;
      ghost var n, s := filter.size, Queue(fifo.data, input, numIn);
      ghost var x, g := Spread(s, filter.up, Start(filter, at), n), Wrapped(filter.taps, scale, n);
      Analyse(input, numIn);
      RoomServes(n, n, ip, w);
      ghost var nw, nc := ip[0], ip[1];
      MultiplyBack(filter.size, dftOut, coefs, x, g, ip, w, turn, q);
      RoomKept(n, n, nw, nc, ip[0], ip[1], w.Length);
      FilteredBlock(filter, scale, s, at, dftOut[..n]);
      BlockPart(filter, s, at, dftOut[..], n);
    }

    /** Lines 84 and 147-161: the kept values go to the output queue. */
    method Deliver(output: Fifo<real>, ghost s: seq<real>)
      requires filter.Sound() && filter.size <= dftOut.Length && remM < filter.down
      requires BlockOk(filter, s, at, dftOut[..])
      requires output.Valid() && output.itemSize == 1 && output.data != dftOut
      modifies this`remM, output, output.data
      ensures output.Valid() && (output.data == old(output.data) || fresh(output.data))
      ensures output.Contents() == old(output.Contents()) + Produced(filter, s, at, old(remM))
      ensures remM == NextRem(filter, old(remM))
    {
      ghost var a, y := dftOut[..], Produced(filter, s, at, remM);
      hide BlockOk, Produced, NextRem, Value, Kept;
      var p := output.Reserve(filter.size);
      assert dftOut[..] == a;
      var j := KeepValues(output.data, p, s);
      SplitCells(output.data[..], output.begin, p, j, filter.size, y);
      output.TrimBy(filter.size - j);
    }

    method KeepValues(out: array<real>, p: nat, ghost s: seq<real>) returns (j: nat)
      requires filter.Sound() && filter.size <= dftOut.Length && remM < filter.down
      requires BlockOk(filter, s, at, dftOut[..]) && p + filter.size <= out.Length && out != dftOut
      modifies this`remM, out
      ensures j <= filter.size && out[..p] == old(out[..p])
      ensures out[p..p + j] == Produced(filter, s, at, old(remM)) && remM == NextRem(filter, old(remM))
    {
      hide BlockOk, Produced, NextRem;
      if filter.down != 1 {
        j := KeepSome(out, p, filter.size - (|filter.taps| - 1), s);
      } else {
        j := KeepWhole(out, p, |filter.taps| - 1, s);
      }
    }

    /** Lines 147-148 and 161. */
    method KeepWhole(out: array<real>, p: nat, overlap: nat, ghost s: seq<real>) returns (j: nat)
      requires filter.Sound() && filter.size <= dftOut.Length && filter.down == 1 && remM == 0
      requires overlap == |filter.taps| - 1
      requires BlockOk(filter, s, at, dftOut[..]) && p + filter.size <= out.Length && out != dftOut
      modifies out
      ensures j <= filter.size && out[..p] == old(out[..p])
      ensures out[p..p + j] == Produced(filter, s, at, 0) && remM == NextRem(filter, 0)
    {
      hide BlockOk, Produced, NextRem, Position, Count, Kept;
      ghost var a := dftOut[..];
      KeptAll(filter, s, at, a);
      forall k | 0 <= k < filter.size {
        out[p + k] := dftOut[k];
      }
      j := filter.size - overlap;
      assert out[p..p + j] == a[..j];
    }

    /** Lines 149-160. */
    method KeepSome(out: array<real>, p: nat, block: nat, ghost s: seq<real>) returns (j: nat)
      requires filter.Sound() && filter.size <= dftOut.Length && remM < filter.down && block == filter.Block()
      requires BlockOk(filter, s, at, dftOut[..]) && p + block <= out.Length && out != dftOut
      modifies this`remM, out
      ensures j <= block && out[..p] == old(out[..p])
      ensures out[p..p + j] == Produced(filter, s, at, old(remM)) && remM == NextRem(filter, old(remM))
    {
      hide BlockOk, Produced, Position, Count;
      var i;
      j, i := Decimate(filter.down, remM, block, dftOut, out, p);
      KeptIs(filter, remM);
      KeptValues(filter, s, at, remM, dftOut[..], out[p..p + j]);
      remM := i - block;
    }

    lemma PreparedSizes()
      requires Prepared()
      ensures filter.size <= dftOut.Length && filter.spectral == PowerOfTwo(filter.up)
      ensures filter.Sound() && (step <= 0 ==> 0 < Edge(filter) < filter.size / 2)
    {
    }

    /** Lines 87-124 or 125-141, and 163-166. */
    method Thin(input: nat, ghost numIn: nat)
      requires Prepared() && Apart() && Tables() && at < filter.up && step <= 0
      requires at + Position(filter.up, numIn) >= filter.size && input + numIn <= fifo.data.Length
      modifies dftOut, ip, w
      ensures Tables() && ThinOk(Queue(fifo.data, input, numIn), dftOut[..])
    {
      hide *;
      ThinSizes();
      ghost var s := Queue(fifo.data, input, numIn);
      var n := filter.size;
      Analyse(input, numIn);
      BlockSpectrumIs(filter, scale, s, at, turn);
      var portion := n / Pow2(-step);
      OrderedPartialConvolve(portion, dftOut, coefs, n);
      TablesKnown();
      assert portion / 2 == Edge(filter);
      ghost var z := Head(dftOut, portion);
      assert z == Lower(BlockSpectrum(filter, scale, s, at, turn), Edge(filter));
      ShortBackward(n, portion, dftOut, ip, w, turn, q + step);
      TablesFrom();
      forall i: nat | i < portion ensures dftOut[..][i] == ThinnedAt(filter, scale, s, at, turn, i) {
        ThinnedIs(filter, scale, s, at, turn, i);
      }
      ThinOkIs(s, dftOut[..]);
    }

    lemma ThinSizes()
      requires Prepared() && Apart() && step <= 0
      ensures filter.Sound() && Thinnable(filter, q, -step) && 0 < Edge(filter) < filter.size / 2
      ensures filter.size % 2 == 0 && filter.size <= coefs.Length && filter.size <= dftOut.Length
      ensures dftOut != coefs && dftOut != w && coefs != w && fifo.data != dftOut && fifo.data != w
      ensures IsTurn(turn) && filter.up > 0
      ensures Head(coefs, filter.size) == HalfSpectrum(Wrapped(filter.taps, scale, filter.size), turn(filter.size))
      ensures -2 <= step < 0 && filter.down == Pow2(-step) && q + step >= 0
      ensures filter.size / Pow2(-step) == 2 * Edge(filter) == 2 * Pow2(q + step) < filter.size <= Pow2(23)
      ensures turn(2 * Pow2(q + step)) == Pow(turn(filter.size), filter.down)
    {
      hide Edge, IsTurn, Pow, Head, HalfSpectrum, Wrapped, Thinnable, Pow2, PowerOfTwo;
      ThinnableStep(filter, q, -step);
      EdgeIs(filter, q, -step);
      BlockIs(filter);
      Pow2Two(q + step + 1);
      Pow2Two(q + 1);
      TurnNest(turn, q + step + 1, -step);
      assert q + step + 1 + -step == q + 1;
    }

    lemma TablesKnown()
      requires Tables()
      ensures ip.Length >= 2 && TablesReady(ip, w, turn) && Room(filter.size, ip, w)
    {
    }

    lemma TablesFrom()
      requires ip.Length >= 2 && TablesReady(ip, w, turn) && Room(filter.size, ip, w)
      ensures Tables()
    {
    }

    lemma ThinOkIs(s: seq<real>, a: seq<real>)
      requires filter.Sound() && 0 < Edge(filter) < filter.size / 2 && 2 * Edge(filter) <= |a|
      requires forall i: nat | i < 2 * Edge(filter) :: a[i] == ThinnedAt(filter, scale, s, at, turn, i)
      ensures ThinOk(s, a)
    {
    }

    /** Lines 84 and 167-169: the head of what the short transform leaves goes to the output queue. */
    method DeliverThin(output: Fifo<real>, ghost s: seq<real>)
      requires Prepared() && Apart() && step <= 0 && ThinOk(s, dftOut[..])
      requires output.Valid() && output.itemSize == 1 && output.data != dftOut
      modifies output, output.data
      ensures output.Valid() && (output.data == old(output.data) || fresh(output.data))
      ensures filter.Sound() && 0 < Edge(filter) < filter.size / 2
      ensures output.Contents() == old(output.Contents()) + Thinned(filter, scale, s, at, turn)
    {
      hide Prepared, Apart, ThinOk, Thinned, ThinnedAt, Kept, Edge, Pow2, Trimmed;
      ThinCounts(s);
      ghost var a, y := dftOut[..], Thinned(filter, scale, s, at, turn);
      ThinPrefix(s, a);
      var p := output.Reserve(filter.size);
      assert dftOut[..] == a;
      var portion := filter.size / Pow2(-step);
      var excess := Trimmed(filter.size, |filter.taps|, -step);
      ghost var j := filter.size - excess;
      CopyHead(portion, output.data, p, j);
      SplitCells(output.data[..], output.begin, p, j, filter.size, y);
      output.TrimBy(excess);
    }

    method CopyHead(portion: nat, out: array<real>, p: nat, ghost j: nat)
      requires j <= portion <= dftOut.Length && p + portion <= out.Length && out != dftOut
      modifies out
      ensures out[..p] == old(out[..p]) && out[p..p + j] == dftOut[..j]
    {
      forall k | 0 <= k < portion {
        out[p + k] := dftOut[k];
      }
    }

    lemma ThinCounts(s: seq<real>)
      requires Prepared() && Apart() && step <= 0
      ensures filter.Sound() && 0 < Edge(filter) < filter.size / 2 && filter.size <= dftOut.Length
      ensures 1 <= |filter.taps| <= filter.size
      ensures var excess := Trimmed(filter.size, |filter.taps|, -step);
              0 <= excess <= filter.size && filter.size - excess == Kept(filter, 0) <= 2 * Edge(filter)
      ensures filter.size / Pow2(-step) == 2 * Edge(filter) <= filter.size
    {
      hide *;
      ThinSizes();
      BlockIs(filter);
      EdgeIs(filter, q, -step);
      EmittedIsKept(filter, -step);
    }

    lemma ThinPrefix(s: seq<real>, a: seq<real>)
      requires ThinOk(s, a) && Kept(filter, 0) <= 2 * Edge(filter)
      ensures filter.Sound() && 0 < Edge(filter) < filter.size / 2
      ensures a[..Kept(filter, 0)] == Thinned(filter, scale, s, at, turn)
    {
      hide ThinnedAt, Kept, Edge;
    }

    /** The first cells hold what is emitted. */
    ghost predicate ThinOk(s: seq<real>, a: seq<real>)
      reads this
    {
      && filter.Sound() && 0 < Edge(filter) < filter.size / 2 && 2 * Edge(filter) <= |a|
      && forall i: nat | i < 2 * Edge(filter) :: a[i] == ThinnedAt(filter, scale, s, at, turn, i)
    }

    /** Lines 79-170: what a block that fires does. */
    method FireBlock(output: Fifo<real>, numIn: nat)
      requires Valid() && output.Valid() && output.itemSize == 1 && output != fifo
      requires output.data != fifo.data && output.data != dftOut && output.data != coefs && output.data != w
      requires numIn == |fifo.Contents()| && Fires(filter, at, numIn)
      modifies this`at, this`remM, fifo, dftOut, ip, w, output, output.data
      ensures filter.Sound() && (step <= 0 ==> 0 < Edge(filter) < filter.size / 2)
      ensures Prepared() && Apart() && Tables() && fifo.Valid() && output.Valid()
      ensures fifo.data == old(fifo.data) && (output.data == old(output.data) || fresh(output.data))
      ensures at == NextAt(filter, old(at)) < filter.up
      ensures remM == (if step > 0 then NextRem(filter, old(remM)) else old(remM)) < filter.down
      ensures Consumed(filter, old(at)) <= numIn && fifo.Contents() == old(fifo.Contents())[Consumed(filter, old(at))..]
      ensures output.Contents() == old(output.Contents()) +
              (if step > 0 then Produced(filter, old(fifo.Contents()), old(at), old(remM))
               else Thinned(filter, scale, old(fifo.Contents()), old(at), turn))
    {
      hide Prepared, Thinned, ThinOk, Edge, Tables, Produced, InputSize, NextRem, Consumed, BlockOk, NextAt, Queue,
          PowerOfTwo, Fires;
      ghost var s := fifo.Contents();
      PreparedSizes();
      StepFacts(filter, at, remM, numIn);
      var input, rem := TakeInput(numIn);
      if step > 0 {
        MakeWhole(output, input, s);
      } else {
        MakeThin(output, input, s);
      }
      if !PowerOfTwo(filter.up) {
        at := filter.up - 1 - rem;
      }
    }

    /** Lines 79-82: where the block begins, and the remainder of the division. */
    method TakeInput(numIn: nat) returns (input: nat, rem: nat)
      requires Prepared() && filter.Sound() && at < filter.up && remM < filter.down
      requires fifo.Valid() && fifo.itemSize == 1 && numIn == |fifo.Contents()| && Fires(filter, at, numIn)
      modifies fifo`begin
      ensures fifo.Valid() && fifo.data == old(fifo.data) && Consumed(filter, at) <= numIn
      ensures fifo.Contents() == old(fifo.Contents())[Consumed(filter, at)..]
      ensures input + numIn <= fifo.data.Length && Queue(fifo.data, input, numIn) == old(fifo.Contents())
      ensures if PowerOfTwo(filter.up) then at == NextAt(filter, at) else
                rem < filter.up && filter.up - 1 - rem == NextAt(filter, at)
    {
      hide Prepared, Consumed, NextAt, Queue, PowerOfTwo, Position;
      PreparedSizes();
      StepFacts(filter, at, remM, numIn);
      var quot;
      quot, rem := Divided(filter.size - (|filter.taps| - 1), at);
      input := fifo.begin;
      QueueIs(fifo.data, input, numIn);
      var r := fifo.Read(quot, null);
    }

    method Divided(block: nat, at: nat) returns (quot: nat, rem: nat)
      requires filter.Sound() && at < filter.up && block == filter.Block()
      ensures quot == Consumed(filter, at) && rem < filter.up
      ensures !filter.spectral ==> filter.up - 1 - rem == NextAt(filter, at)
      ensures filter.spectral ==> at == NextAt(filter, at)
    {
      QuotIs(filter, at);
      hide Consumed, NextAt;
      var total := block - at + filter.up - 1;
      quot, rem := total / filter.up, total % filter.up;
    }

    lemma ApartIs()
      ensures Apart() <==>
              (dftOut != coefs && dftOut != w && coefs != w && fifo.data != dftOut && fifo.data != coefs &&
               fifo.data != w)
    {
    }

    /** Lines 84-161, with a positive step. */
    method MakeWhole(output: Fifo<real>, input: nat, ghost s: seq<real>)
      requires Prepared() && Apart() && Tables() && filter.Sound() && at < filter.up && remM < filter.down
      requires Fires(filter, at, |s|) && input + |s| <= fifo.data.Length && Queue(fifo.data, input, |s|) == s
      requires output.Valid() && output.itemSize == 1 && output != fifo
      requires output.data != fifo.data && output.data != dftOut && output.data != coefs && output.data != w
      modifies this`remM, dftOut, ip, w, output, output.data
      ensures Prepared() && Tables() && output.Valid() && (output.data == old(output.data) || fresh(output.data))
      ensures remM == NextRem(filter, old(remM))
      ensures output.Contents() == old(output.Contents()) + Produced(filter, s, at, old(remM))
    {
      hide *;
      FiresIs(filter, at, |s|);
      PreparedSizes();
      ApartIs();
      Transform(input, |s|);
      Deliver(output, s);
    }

    /** Lines 84-141 and 163-170, with a step that is not positive. */
    method MakeThin(output: Fifo<real>, input: nat, ghost s: seq<real>)
      requires Prepared() && Apart() && Tables() && filter.Sound() && at < filter.up && step <= 0
      requires Fires(filter, at, |s|) && input + |s| <= fifo.data.Length && Queue(fifo.data, input, |s|) == s
      requires output.Valid() && output.itemSize == 1 && output != fifo
      requires output.data != fifo.data && output.data != dftOut && output.data != coefs && output.data != w
      modifies dftOut, ip, w, output, output.data
      ensures 0 < Edge(filter) < filter.size / 2
      ensures Prepared() && Tables() && output.Valid() && (output.data == old(output.data) || fresh(output.data))
      ensures output.Contents() == old(output.Contents()) + Thinned(filter, scale, s, at, turn)
    {
      hide *;
      FiresIs(filter, at, |s|);
      PreparedSizes();
      ApartIs();
      Thin(input, |s|);
      DeliverThin(output, s);
    }

    /** Lines 68-174. */
    method Call(output: Fifo<real>)
      requires Valid() && output.Valid() && output.itemSize == 1 && output != fifo
      requires output.data != fifo.data && output.data != dftOut && output.data != coefs && output.data != w
      modifies this`at, this`remM, this`inputSize, fifo, dftOut, ip, w, output, output.data
      ensures Valid() && output.Valid() && (output.data == old(output.data) || fresh(output.data))
      ensures fifo.data == old(fifo.data)
      ensures filter.Sound() && (step <= 0 ==> 0 < Edge(filter) < filter.size / 2)
      ensures State(fifo.Contents(), at, remM, inputSize, output.Contents()) ==
              Called(filter, step, scale, turn, old(State(fifo.Contents(), at, remM, inputSize, output.Contents())))
    {
      PreparedSizes();
      hide Thinned, Edge, Position, Prepared, Produced, InputSize, NextRem, NextAt, Consumed;
      ghost var s := fifo.Contents();
      var numIn := fifo.Occupancy();
      if at + Position(filter.up, numIn) >= filter.size {
        FireBlock(output, numIn);
      }
      inputSize := InputSize(filter, at);
    }
  }

  /** What line 169 trims. */
  function Trimmed(size: nat, taps: nat, m: nat): int
    requires taps > 0
  {
    ((Pow2(m) - 1) * size + (taps - 1)) / Pow2(m)
  }

  /** It leaves as many values as decimation of the block keeps. */
  lemma EmittedIsKept(f: Filter, m: nat)
    requires f.Sound() && f.down == Pow2(m) && f.size / 2 == Edge(f) * f.down && f.size % 2 == 0
    ensures 0 <= Trimmed(f.size, |f.taps|, m) <= f.size
    ensures f.size - Trimmed(f.size, |f.taps|, m) == Kept(f, 0) <= 2 * Edge(f)
  {
    hide *;
    BlockIs(f);
    var e := DftFilter.Emitted(f.size, |f.taps|, m);
    KeptIs(f, 0);
    TrimmedIs(f.size, |f.taps|, m);
    DftFilter.EmittedIs(f.size, |f.taps|, m);
    CountUnique(f.down, 0, f.Block(), e);
    CountAtMost(f.down, 0, f.Block());
    CountIs(f.down, 0, f.Block(), 2 * Edge(f));
    PositionIs(f.down, 2 * Edge(f));
    MulAssoc3(f.down, 2, Edge(f));
  }

  lemma TrimmedIs(size: nat, taps: nat, m: nat)
    requires taps > 0
    ensures DftFilter.Emitted(size, taps, m) == size - Trimmed(size, taps, m)
  {
  }

  /** Line 244. */
  function StageStep(down: nat, fDomain: bool): int {
    if fDomain then 0 - down / 2 else down
  }

  lemma Pow2Reflects(m: nat, q: nat)
    requires Pow2(m) <= Pow2(q)
    ensures m <= q
  {
    if q < m {
      Pow2Two(q + 1);
      Pow2Monotone(q + 1, m);
    }
  }

  lemma StageStepFits(f: Filter, q: nat, fDomain: bool)
    requires f.Sound() && f.size == 2 * Pow2(q)
    requires fDomain ==> (f.down == 2 || f.down == 4) && f.down <= Pow2(q)
    ensures var step := StageStep(f.down, fDomain);
            if step > 0 then step == f.down && !fDomain
            else
              && fDomain && -2 <= step < 0 && f.down == Pow2(-step) && Thinnable(f, q, -step)
              && 0 < Edge(f) < f.size / 2
  {
    if fDomain {
      var m := if f.down == 2 then 1 else 2;
      Pow2Small();
      Pow2Reflects(m, q);
      EdgeIs(f, q, m);
    }
    hide Edge, Thinnable, Pow2;
  }

  /** Line 206, where the transforms' multiplier is 2. */
  function Scaling(size: nat, up: nat, multiplier: real): real
    requires size > 0
  {
    (1.0 / size as real) * 2.0 * up as real * multiplier
  }

  lemma GainIs(size: nat, up: nat, multiplier: real)
    requires size > 0 && size % 2 == 0
    ensures Weigh((size / 2) as real, Scaling(size, up, multiplier)) == up as real * multiplier
  {
    var half, r := (size / 2) as real, 1.0 / size as real;
    assert half * 2.0 == size as real;
    assert r * size as real == 1.0;
    Regroup4(half, r, up as real, multiplier);
    OneTimes(r * size as real, up as real, multiplier);
  }

  lemma Regroup4(a: real, r: real, u: real, m: real)
    ensures a * (r * 2.0 * u * m) == (r * (a * 2.0)) * u * m
  {
    assert r * 2.0 * u * m == (2.0 * r) * (u * m);
    assert a * ((2.0 * r) * (u * m)) == (a * (2.0 * r)) * (u * m);
  }

  lemma OneTimes(e: real, u: real, m: real)
    requires e == 1.0
    ensures e * u * m == u * m
  {
  }

  lemma FiresIs(f: Filter, at: nat, queued: nat)
    ensures Fires(f, at, queued) <==> at + Position(f.up, queued) >= f.size
  {
  }

  lemma QuotIs(f: Filter, at: nat)
    requires f.Sound() && at < f.up
    ensures var total := f.size - (|f.taps| - 1) - at + f.up - 1;
            && total / f.up == Consumed(f, at)
            && (!f.spectral ==> f.up - 1 - total % f.up == NextAt(f, at))
            && (f.spectral ==> at == NextAt(f, at))
  {
  }

  lemma BlockPart(f: Filter, s: seq<real>, at: nat, a: seq<real>, n: nat)
    requires f.Sound() && n == f.size <= |a| && BlockOk(f, s, at, a[..n])
    ensures BlockOk(f, s, at, a)
  {
    hide Value;
    forall k: nat | k < f.Block() ensures a[k] == Value(f, s, Start(f, at), k) {
      assert a[..n][k] == a[k];
    }
  }

  /** A block that fires has the samples that the shorter transform reads. */
  lemma PortionQueued(size: nat, up: nat, portion: nat, p: nat, at: nat, numIn: nat)
    requires up == Pow2(p) && Times(portion, Pow2(p)) == size && at < up && at + Position(up, numIn) >= size
    ensures portion <= numIn
  {
    if numIn < portion {
      MulLe(up, numIn + 1, portion);
      MulDistrib(up, numIn, 1);
    }
  }
}
