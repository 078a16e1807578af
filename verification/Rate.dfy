/** The pipeline that has the cubic stage alone (soxr-sys/src/cr.c, lines 390-397 and 498-547):
    feeding, processing, reading and flushing, and how many samples come out. */
module Rate {
  import opened Arith
  import opened Options
  import opened Streams
  import opened Fifos
  import opened CubicStage
  import opened Accounts

  const INPUT_SIZE: nat := 8192

  /** The conversion ratios that soxr accepts. */
  type Ratio = r: real | r > 0.0 witness 1.0

  /** The step: the ratio rounded to a multiple of 2^-32, line 393. */
  function StepOf(ratio: Ratio): (step: nat) {
    (ratio * ONE32 as real + 0.5).Floor
  }

  // ---- one call of the driver on the single stage ----

  /** stage_process tops the input queue up with zeros when flushing: lines 503-506. */
  function Padded(st: State, flushing: bool): State {
    if flushing && |st.queue| < INPUT_SIZE then st.(queue := st.queue + Zeros(INPUT_SIZE - |st.queue|)) else st
  }

  /** A call of the stage function changes something just when the queue is longer than the
      samples it must keep. */
  lemma StuckIff(step: nat, mult: real, inputSize: nat, st: State)
    requires step > 0 && inputSize > 0 && st.at < ONE32
    ensures Fired(step, mult, inputSize, st) == st <==> |st.queue| <= Max(3, Integer(step))
    ensures |st.queue| > Max(3, Integer(step)) ==>
              && |Fired(step, mult, inputSize, st).produced| > |st.produced|
              && |Fired(step, mult, inputSize, st).queue| < |st.queue|
  {
    hide Produced, Position, Count, Integer, Fraction, NumOut;
    var queued := |st.queue|;
    var n := NumIn(step, queued, inputSize);
    WholeAndPart(st.at);
    NumInIs(step, queued, inputSize);
    NumInZero(step, queued, inputSize);
    FirstPlace(step, st.at, queued, inputSize);
    AdvanceInside(step, st.at, queued, inputSize);
    NumOutStops(step, st.at, queued, inputSize);
    WholeAndPart(EndOf(step, st.at, queued, inputSize));
    if n == 0 {
      assert Produced(step, mult, st.at, inputSize, st.queue) == [];
    }
  }

  lemma FiredAt(step: nat, mult: real, inputSize: nat, st: State)
    requires step > 0
    ensures Fired(step, mult, inputSize, st).at < ONE32
    ensures st.produced <= Fired(step, mult, inputSize, st).produced
  {
    hide Produced, EndOf;
  }

  /** _soxr_process, lines 515-523, for the one stage: it is called until n samples wait in the
      output queue or the input runs short.  None when it is called for ever. */
  function Processed(step: nat, mult: real, st: State, n: int, flushing: bool): (r: Option<State>)
    requires 0 < step && st.at < ONE32
    ensures r.Some? ==> r.value.at < ONE32 && st.produced <= r.value.produced
    ensures r.Some? && flushing ==> |r.value.produced| >= n
    decreases n - |st.produced|
  {
    if |st.produced| >= n then Some(st)
    else
      var ready := Padded(st, flushing);
      var next := Fired(step, mult, INPUT_SIZE, ready);
      FiredAt(step, mult, INPUT_SIZE, ready);
      if |ready.queue| < INPUT_SIZE then Some(next)
      else if |ready.queue| <= Max(3, Integer(step)) then None
      else
        StuckIff(step, mult, INPUT_SIZE, ready);
        Processed(step, mult, next, n, flushing)
  }

  // ---- turn by turn ----

  /** One turn of the driver's loop. */
  function Turn(step: nat, mult: real, st: State, flushing: bool): State
    requires step > 0
  {
    Fired(step, mult, INPUT_SIZE, Padded(st, flushing))
  }

  function Turns(step: nat, mult: real, st: State, flushing: bool, k: nat): State
    requires step > 0
    decreases k
  {
    if k == 0 then st else Turns(step, mult, Turn(step, mult, st, flushing), flushing, k - 1)
  }

  lemma {:induction false} TurnsNext(step: nat, mult: real, st: State, flushing: bool, k: nat)
    requires step > 0
    ensures Turns(step, mult, st, flushing, k + 1) == Turn(step, mult, Turns(step, mult, st, flushing, k), flushing)
    decreases k
  {
    hide Turn;
    if k > 0 {
      TurnsNext(step, mult, Turn(step, mult, st, flushing), flushing, k - 1);
    }
  }

  /** The same for any step: with a step of zero the stage's own loop does not end once it has more
      than three samples. */
  function Called(step: nat, mult: real, st: State, n: int, flushing: bool): (r: Option<State>)
    requires st.at < ONE32
    ensures r.Some? ==> r.value.at < ONE32 && st.produced <= r.value.produced
    ensures r.Some? && flushing ==> |r.value.produced| >= n
  {
    if step > 0 then Processed(step, mult, st, n, flushing)
    else if |st.produced| >= n || (!flushing && |st.queue| <= 3) then Some(st)
    else None
  }

  /** With a step below 8192 samples a full queue always has something to give. */
  lemma {:induction false} SmallStepReturns(step: nat, mult: real, st: State, n: int, flushing: bool)
    requires 0 < step && Integer(step) < INPUT_SIZE && st.at < ONE32
    ensures Processed(step, mult, st, n, flushing).Some?
    decreases n - |st.produced|
  {
    if |st.produced| < n {
      var ready := Padded(st, flushing);
      var next := Fired(step, mult, INPUT_SIZE, ready);
      FiredAt(step, mult, INPUT_SIZE, ready);
      if |ready.queue| >= INPUT_SIZE {
        StuckIff(step, mult, INPUT_SIZE, ready);
        hide Fired, Padded, Integer;
        SmallStepReturns(step, mult, next, n, flushing);
      }
    }
  }

  // ---- the pipeline ----

  /** The stage's queue and position, the output queue, and the accounts of rate_t. */
  datatype Pipe = Pipe(queue: seq<real>, at: nat, waiting: seq<real>, samplesIn: int, samplesOut: int, flushing: bool)

  datatype Call = Input(samples: seq<real>) | Process(olen: nat) | Output(n0: nat) | Flush

  function Wanted(p: Pipe, n0: nat): int {
    Asked(p.flushing, p.samplesOut, n0)
  }

  function AfterInput(p: Pipe, samples: seq<real>): Pipe {
    if p.flushing then p else p.(samplesIn := p.samplesIn + |samples|, queue := p.queue + samples)
  }

  function AfterProcess(step: nat, mult: real, p: Pipe, olen: nat): (r: Option<Pipe>)
    requires p.at < ONE32
    ensures r.Some? ==> r.value.at < ONE32
  {
    match Called(step, mult, State(p.queue, p.at, p.waiting), Wanted(p, olen), p.flushing)
    case None => None
    case Some(st) => Some(p.(queue := st.queue, at := st.at, waiting := st.produced))
  }

  /** What _soxr_output hands over; a negative count makes a read that fails. */
  function Handed(p: Pipe, n0: nat): seq<real> {
    var n := Min(Wanted(p, n0), |p.waiting|);
    if n < 0 then [] else p.waiting[..n]
  }

  function AfterOutput(p: Pipe, n0: nat): Pipe {
    var n := Min(Wanted(p, n0), |p.waiting|);
    p.(samplesOut := p.samplesOut + n, waiting := p.waiting[|Handed(p, n0)|..])
  }

  function AfterFlush(ratio: Ratio, p: Pipe): Pipe {
    if p.flushing then p
    else p.(samplesOut := p.samplesOut - Due(ratio, p.samplesIn), samplesIn := 0, flushing := true)
  }

  // ---- any sequence of calls ----

  /** A pipeline with the samples it took in and those it handed out. */
  datatype History = History(pipe: Pipe, taken: seq<real>, given: seq<real>)

  const Start: History := History(Pipe([0.0], 0, [], 0, 0, false), [], [])

  /** None when one of the calls does not return. */
  function Served(ratio: Ratio, mult: real, calls: seq<Call>): (h: Option<History>)
    ensures h.Some? ==> h.value.pipe.at < ONE32
  {
    if calls == [] then Some(Start)
    else
      match Served(ratio, mult, calls[..|calls| - 1])
      case None => None
      case Some(h) => Next(ratio, mult, h, calls[|calls| - 1])
  }

  function Next(ratio: Ratio, mult: real, h: History, call: Call): (r: Option<History>)
    requires h.pipe.at < ONE32
    ensures r.Some? ==> r.value.pipe.at < ONE32
  {
    var p := h.pipe;
    match call
    case Input(samples) =>
      Some(History(AfterInput(p, samples), if p.flushing then h.taken else h.taken + samples, h.given))
    case Process(olen) =>
      (match AfterProcess(StepOf(ratio), mult, p, olen)
       case None => None
       case Some(q) => Some(h.(pipe := q)))
    case Output(n0) => Some(h.(pipe := AfterOutput(p, n0), given := h.given + Handed(p, n0)))
    case Flush => Some(h.(pipe := AfterFlush(ratio, p)))
  }

  function Stream(taken: seq<real>, pad: nat): (x: seq<real>)
    ensures |x| == 1 + |taken| + pad
  {
    [0.0] + taken + Zeros(pad)
  }

  /** How many outputs a stream allows. */
  function Makes(step: nat, length: nat): nat {
    if step == 0 then 0 else Allowed(step, length)
  }

  /** The outputs so far are the stage's on the stream x; with a step of zero there are none. */
  ghost predicate Follows(step: nat, mult: real, x: seq<real>, st: State) {
    if step == 0 then st == State(x, 0, []) else Tracks(step, mult, x, st)
  }

  lemma FollowsArrival(step: nat, mult: real, x: seq<real>, st: State, samples: seq<real>)
    requires Follows(step, mult, x, st)
    ensures Follows(step, mult, x + samples, st.(queue := st.queue + samples))
    ensures |st.produced| <= Makes(step, |x|)
  {
    if step > 0 {
      hide Allowed, Position, OutputOk;
      TracksArrival(step, mult, x, st, samples);
    }
  }

  /** The stage makes no more of n input samples than they are worth. */
  predicate Tight(ratio: Ratio, n: nat) {
    Makes(StepOf(ratio), 1 + n) <= Due(ratio, n)
  }

  /** The accounts agree with the history, and the outputs so far are those of the stage on the
      input followed by pad zeros. */
  ghost predicate Good(ratio: Ratio, mult: real, h: History, pad: nat) {
    var p, owed := h.pipe, Due(ratio, |h.taken|) - |h.given|;
    && Follows(StepOf(ratio), mult, Stream(h.taken, pad), State(p.queue, p.at, h.given + p.waiting))
    && (if p.flushing then
          && (if owed >= 0 then -p.samplesOut == owed else p.samplesOut >= 0)
          && (Tight(ratio, |h.taken|) ==> owed >= 0)
        else
          pad == 0 && p.samplesIn == |h.taken| && p.samplesOut == |h.given|)
  }

  // ---- counting ----

  lemma DueIs(ratio: Ratio, n: nat, k: nat)
    ensures k <= Due(ratio, n) <==> k as real * ratio <= n as real + 0.5 * ratio
  {
    var r := n as real / ratio + 0.5;
    FloorIs(r, k);
    assert n as real / ratio * ratio == n as real;
    hide *;
    ScaleIff(k as real, r, ratio);
    MulDistribReal(n as real / ratio, 0.5, ratio);
  }

  lemma FloorIs(r: real, k: int)
    ensures k <= r.Floor <==> k as real <= r
  {
  }

  lemma PositionReal(step: nat, k: nat)
    ensures Position(step, k) as real == k as real * step as real
  {
  }

  /** Unless the step was rounded down the stage is never ahead of what is owed: it keeps at least
      a whole step and three samples back. */
  lemma NeverAhead(ratio: Ratio, n: nat, k: nat)
    requires ratio * ONE32 as real <= StepOf(ratio) as real
    requires k <= Makes(StepOf(ratio), 1 + n)
    ensures k <= Due(ratio, n)
  {
    hide Due, Allowed, Position, StepOf;
    var step := StepOf(ratio);
    DueIs(ratio, n, k);
    if k > 0 {
      AllowedIs(step, 1 + n, k - 1);
      PositionSum(step, k - 1, 1);
      KeptBack(Position(step, k - 1), step, n);
      PositionReal(step, k);
      WorthAtLeast(ratio, step as real, k as real - 0.5, n as real);
    }
  }

  lemma KeptBack(at: nat, step: nat, n: nat)
    requires Integer(at) + Max(3, Integer(step)) < 1 + n
    ensures 2 * (at + step) <= 2 * (n * ONE32) + step
  {
  }

  lemma WorthAtLeast(ratio: real, step: real, k: real, n: real)
    requires k >= 0.0 && ratio * ONE32 as real <= step && k * step <= n * ONE32 as real
    ensures (k + 0.5) * ratio <= n + 0.5 * ratio
  {
    RealMulLe(ratio * ONE32 as real, step, k);
    assert (k * ratio) * ONE32 as real <= n * ONE32 as real;
    MulDistribReal(k, 0.5, ratio);
  }

  // ---- one step keeps the accounts ----

  lemma StreamGrows(taken: seq<real>, samples: seq<real>, pad: nat, more: nat)
    ensures Stream(taken + samples, 0) == Stream(taken, 0) + samples
    ensures Stream(taken, pad + more) == Stream(taken, pad) + Zeros(more)
  {
  }

  lemma InputGood(ratio: Ratio, mult: real, h: History, pad: nat, samples: seq<real>)
    requires h.pipe.at < ONE32 && Good(ratio, mult, h, pad)
    ensures Good(ratio, mult, Next(ratio, mult, h, Input(samples)).value, pad)
  {
    hide Follows, Due, Stream, StepOf, Tight;
    var p := h.pipe;
    if !p.flushing {
      StreamGrows(h.taken, samples, 0, 0);
      FollowsArrival(StepOf(ratio), mult, Stream(h.taken, 0), State(p.queue, p.at, h.given + p.waiting), samples);
    }
  }

  lemma FiredAppends(step: nat, mult: real, inputSize: nat, st: State, before: seq<real>)
    requires step > 0
    ensures var r := Fired(step, mult, inputSize, st);
            var b := Fired(step, mult, inputSize, st.(produced := before + st.produced));
            b == r.(produced := before + r.produced)
  {
    hide Produced, EndOf;
  }

  /** The driver's loop only extends the stage's run, by padding when flushing and by calls. */
  lemma {:induction false} ProcessedTracks(step: nat, mult: real, taken: seq<real>, pad: nat, given: seq<real>,
                                           st: State, n: int, flushing: bool) returns (pad': nat)
    requires 0 < step && st.at < ONE32 && Processed(step, mult, st, n, flushing).Some?
    requires Tracks(step, mult, Stream(taken, pad), st.(produced := given + st.produced))
    ensures !flushing ==> pad' == pad
    ensures var r := Processed(step, mult, st, n, flushing).value;
            Tracks(step, mult, Stream(taken, pad'), r.(produced := given + r.produced))
    decreases n - |st.produced|
  {
    hide Tracks, Fired, Stream;
    pad' := pad;
    if |st.produced| < n {
      var ready := Padded(st, flushing);
      var next := Fired(step, mult, INPUT_SIZE, ready);
      if flushing && |st.queue| < INPUT_SIZE {
        pad' := pad + (INPUT_SIZE - |st.queue|);
        StreamGrows(taken, [], pad, INPUT_SIZE - |st.queue|);
        TracksArrival(step, mult, Stream(taken, pad), st.(produced := given + st.produced),
            Zeros(INPUT_SIZE - |st.queue|));
      }
      FiredAt(step, mult, INPUT_SIZE, ready);
      FiredAppends(step, mult, INPUT_SIZE, ready, given);
      TracksFire(step, mult, INPUT_SIZE, Stream(taken, pad'), ready.(produced := given + ready.produced));
      if |ready.queue| >= INPUT_SIZE {
        StuckIff(step, mult, INPUT_SIZE, ready);
        pad' := ProcessedTracks(step, mult, taken, pad', given, next, n, flushing);
      }
    }
  }

  lemma CalledFollows(step: nat, mult: real, taken: seq<real>, pad: nat, given: seq<real>, st: State, n: int,
                      flushing: bool) returns (pad': nat)
    requires st.at < ONE32 && Called(step, mult, st, n, flushing).Some?
    requires Follows(step, mult, Stream(taken, pad), st.(produced := given + st.produced))
    ensures !flushing ==> pad' == pad
    ensures var r := Called(step, mult, st, n, flushing).value;
            Follows(step, mult, Stream(taken, pad'), r.(produced := given + r.produced))
  {
    hide Processed, Tracks, Stream;
    pad' := pad;
    if step > 0 {
      pad' := ProcessedTracks(step, mult, taken, pad, given, st, n, flushing);
    }
  }

  lemma ProcessGood(ratio: Ratio, mult: real, h: History, pad: nat, olen: nat) returns (pad': nat)
    requires h.pipe.at < ONE32 && Good(ratio, mult, h, pad) && Next(ratio, mult, h, Process(olen)).Some?
    ensures Good(ratio, mult, Next(ratio, mult, h, Process(olen)).value, pad')
  {
    hide Follows, Due, Stream, Called, StepOf, Tight;
    var p := h.pipe;
    pad' := CalledFollows(StepOf(ratio), mult, h.taken, pad, h.given, State(p.queue, p.at, p.waiting),
        Wanted(p, olen), p.flushing);
  }

  lemma OutputGood(ratio: Ratio, mult: real, h: History, pad: nat, n0: nat)
    requires h.pipe.at < ONE32 && Good(ratio, mult, h, pad)
    ensures Good(ratio, mult, Next(ratio, mult, h, Output(n0)).value, pad)
  {
    hide Follows, Due, Stream, StepOf, Tight;
    var p := h.pipe;
    assert Handed(p, n0) + p.waiting[|Handed(p, n0)|..] == p.waiting;
    assert (h.given + Handed(p, n0)) + p.waiting[|Handed(p, n0)|..] == h.given + p.waiting;
  }

  lemma FlushGood(ratio: Ratio, mult: real, h: History, pad: nat)
    requires h.pipe.at < ONE32 && Good(ratio, mult, h, pad)
    ensures Good(ratio, mult, Next(ratio, mult, h, Flush).value, pad)
  {
    hide Follows, Due, Stream, StepOf, Makes;
    if !h.pipe.flushing {
      GivenAllowed(ratio, mult, h);
    }
  }

  lemma GivenAllowed(ratio: Ratio, mult: real, h: History)
    requires Good(ratio, mult, h, 0) && !h.pipe.flushing
    ensures |h.given| <= Makes(StepOf(ratio), 1 + |h.taken|)
  {
    hide Follows, Due, Makes, StepOf;
    var p := h.pipe;
    FollowsArrival(StepOf(ratio), mult, Stream(h.taken, 0), State(p.queue, p.at, h.given + p.waiting), []);
  }

  lemma {:induction false} ServedGood(ratio: Ratio, mult: real, calls: seq<Call>) returns (pad: nat)
    requires Served(ratio, mult, calls).Some?
    ensures Good(ratio, mult, Served(ratio, mult, calls).value, pad)
  {
    if calls == [] {
      pad := 0;
      StartGood(ratio, mult);
    } else {
      var before := calls[..|calls| - 1];
      pad := ServedGood(ratio, mult, before);
      var h := Served(ratio, mult, before).value;
      hide Good, Next, Served;
      ServedUnfold(ratio, mult, calls);
      match calls[|calls| - 1]
      case Input(samples) => InputGood(ratio, mult, h, pad, samples);
      case Process(olen) => pad := ProcessGood(ratio, mult, h, pad, olen);
      case Output(n0) => OutputGood(ratio, mult, h, pad, n0);
      case Flush => FlushGood(ratio, mult, h, pad);
    }
  }

  lemma ServedUnfold(ratio: Ratio, mult: real, calls: seq<Call>)
    requires calls != [] && Served(ratio, mult, calls[..|calls| - 1]).Some?
    ensures Served(ratio, mult, calls) ==
            Next(ratio, mult, Served(ratio, mult, calls[..|calls| - 1]).value, calls[|calls| - 1])
  {
    hide Next;
  }

  lemma StartGood(ratio: Ratio, mult: real)
    ensures Good(ratio, mult, Start, 0)
  {
    PositionSum(StepOf(ratio), 0, 0);
    hide Position, Count, OutputOk, StepOf;
    assert Stream([], 0) == [0.0];
  }

  // ---- how many samples come out ----

  /** Under every sequence of calls: before the flush no more has been handed out than the input
      so far is worth; after it, the account holds exactly what is still owed, and is never
      overdrawn. */
  lemma ExactAccount(ratio: Ratio, mult: real, calls: seq<Call>)
    requires Served(ratio, mult, calls).Some?
    requires Tight(ratio, |Served(ratio, mult, calls).value.taken|)
    ensures var h := Served(ratio, mult, calls).value;
            && |h.given| <= (|h.taken| as real / ratio + 0.5).Floor
            && (h.pipe.flushing ==> -h.pipe.samplesOut == (|h.taken| as real / ratio + 0.5).Floor - |h.given|)
  {
    hide Follows, Served;
    var pad := ServedGood(ratio, mult, calls);
    var h := Served(ratio, mult, calls).value;
    if !h.pipe.flushing {
      GivenAllowed(ratio, mult, h);
    }
    assert Due(ratio, |h.taken|) == (|h.taken| as real / ratio + 0.5).Floor;
  }

  /** Every sample handed out, in order, is the stage's interpolation of the input, with silence
      before and after it, at its own place. */
  lemma GivenSamples(ratio: Ratio, mult: real, calls: seq<Call>) returns (pad: nat)
    requires Served(ratio, mult, calls).Some?
    ensures !Served(ratio, mult, calls).value.pipe.flushing ==> pad == 0
    ensures var h := Served(ratio, mult, calls).value;
            var x := [0.0] + h.taken + seq(pad, _ => 0.0);
            forall k: nat | k < |h.given| :: Integer(Position(StepOf(ratio), k)) + 3 < |x|
                && h.given[k] == OutputAt(x, mult, Position(StepOf(ratio), k))
  {
    hide OutputAt, Served, Position, StepOf;
    pad := ServedGood(ratio, mult, calls);
    var h, step := Served(ratio, mult, calls).value, StepOf(ratio);
    var x := Stream(h.taken, pad);
    assert x == [0.0] + h.taken + seq(pad, _ => 0.0);
    var made := h.given + h.pipe.waiting;
    assert step == 0 ==> made == [];
    forall k: nat | k < |h.given| ensures Integer(Position(step, k)) + 3 < |x|
        && h.given[k] == OutputAt(x, mult, Position(step, k)) {
      assert OutputOk(step, mult, x, made, k);
    }
  }

  /** Once flushing, asking for n samples hands over n, or all that are still owed if those are
      fewer; so asking for enough delivers exactly the total, or what was handed out before the
      flush if that was more already. */
  lemma DrainIsExact(ratio: Ratio, mult: real, calls: seq<Call>, n: nat)
    requires Served(ratio, mult, calls + [Process(n)]).Some?
    requires Served(ratio, mult, calls).Some? && Served(ratio, mult, calls).value.pipe.flushing
    ensures var h, after := Served(ratio, mult, calls).value, Served(ratio, mult, calls + [Process(n)] + [Output(n)]);
            && after.Some? && after.value.taken == h.taken && after.value.pipe.flushing
            && |after.value.given| == Max(|h.given|, Min(|h.given| + n, Due(ratio, |h.taken|)))
  {
    hide Follows, Due, Called, Tight, StepOf;
    var pad := ServedGood(ratio, mult, calls);
    var h := Served(ratio, mult, calls).value;
    var mid := calls + [Process(n)];
    var all := mid + [Output(n)];
    assert mid[..|calls|] == calls && all[..|mid|] == mid;
    ServedUnfold(ratio, mult, mid);
    ServedUnfold(ratio, mult, all);
    hide Served;
    var p := Next(ratio, mult, h, Process(n)).value.pipe;
    assert |p.waiting| >= Wanted(h.pipe, n);
  }

  // ---- the pipeline in place ----

  /** rate_t (soxr-sys/src/cr.h, lines 147-153) with one stage. */
  class Channel {
    const stage: Stage
    const output: Fifo<real>
    var samplesIn: int
    var samplesOut: int
    var flushing: bool
    const ioRatio: Ratio

    ghost predicate Valid()
      reads this, stage, stage.fifo, output
    {
      && stage.Valid() && output.Valid() && output.itemSize == 1
      && stage.fifo != output && stage.fifo.data != output.data
      && stage.inputSize == INPUT_SIZE && 0 < stage.step == StepOf(ioRatio)
    }

    ghost function Pipeline(): Pipe
      reads this, stage, stage.fifo, stage.fifo.data, output, output.data
      requires Valid()
    {
      Pipe(stage.fifo.Contents(), stage.at, output.Contents(), samplesIn, samplesOut, flushing)
    }

    constructor (ioRatio: Ratio, mult: real)
      requires StepOf(ioRatio) > 0
      ensures Valid() && fresh(stage) && fresh(stage.fifo) && fresh(stage.fifo.data) && fresh(output)
          && fresh(output.data)
      ensures this.ioRatio == ioRatio && stage.mult == mult
      ensures Pipeline() == Start.pipe
    {
      stage := new Stage(StepOf(ioRatio), mult, INPUT_SIZE);
      output := new Fifo<real>(1);
      samplesIn, samplesOut, flushing := 0, 0, false;
      this.ioRatio := ioRatio;
    }

    /** _soxr_input, lines 525-531. */
    method Input(samples: array<real>)
      requires Valid() && samples != stage.fifo.data
      modifies this`samplesIn, stage.fifo, stage.fifo.data
      ensures Valid() && (stage.fifo.data == old(stage.fifo.data) || fresh(stage.fifo.data))
      ensures Pipeline() == AfterInput(old(Pipeline()), old(samples[..]))
    {
      if flushing {
        return;
      }
      samplesIn := samplesIn + samples.Length;
      var p := stage.fifo.Write(samples.Length, samples);
      assert samples[..samples.Length * 1] == samples[..];
    }

    /** _soxr_flush, lines 541-547. */
    method Flush()
      requires Valid()
      modifies this`samplesIn, this`samplesOut, this`flushing
      ensures Valid() && Pipeline() == AfterFlush(ioRatio, old(Pipeline()))
    {
      hide Integer, Fraction;
      if flushing {
        return;
      }
      samplesOut := samplesOut - (samplesIn as real / ioRatio + 0.5).Floor;
      samplesIn := 0;
      flushing := true;
    }

    /** _soxr_output, lines 533-539: the first n cells of samples are the answer. */
    method Output(samples: array<real>, n0: nat) returns (n: int)
      requires Valid() && samples != output.data && samples != stage.fifo.data && n0 <= samples.Length
      modifies this`samplesOut, output`begin, samples
      ensures Valid() && Pipeline() == AfterOutput(old(Pipeline()), n0)
      ensures n == Min(if flushing then Min(-old(samplesOut), n0) else n0, |old(output.Contents())|)
      ensures samplesOut == old(samplesOut) + n && flushing == old(flushing)
      ensures var m := Max(0, n);
              && samples[..m] == old(output.Contents())[..m] && output.Contents() == old(output.Contents())[m..]
      ensures samples[..Max(0, n)] == Handed(old(Pipeline()), n0)
    {
      hide Integer, StepOf;
      n := if flushing then Min(-samplesOut, n0) else n0;
      var occupancy := output.Occupancy();
      n := Min(n, occupancy);
      samplesOut := samplesOut + n;
      if n >= 0 {
        TakeOutput(samples, n);
      }
    }

    method TakeOutput(samples: array<real>, n: nat)
      requires output.Valid() && output.itemSize == 1
      requires samples != output.data && n <= samples.Length && n <= |output.Contents()|
      modifies output`begin, samples
      ensures output.Valid() && samples[..n] == old(output.Contents()[..n])
      ensures output.Contents() == old(output.Contents()[n..])
    {
      var r := output.Read(n, samples);
    }

    /** _soxr_process, lines 515-523, watched for so many turns of its loop: either it is over by
        then, or it stands where those turns lead; and it is over in time if it ever is. */
    method Process(olen: nat, turns: nat) returns (over: bool)
      requires Valid()
      modifies stage`at, stage.fifo, stage.fifo.data, output, output.data
      ensures Valid() && (stage.fifo.data == old(stage.fifo.data) || fresh(stage.fifo.data))
      ensures output.data == old(output.data) || fresh(output.data)
      ensures over ==> Some(Pipeline()) == AfterProcess(stage.step, stage.mult, old(Pipeline()), olen)
      ensures !over ==> StageState() == Turns(stage.step, stage.mult, old(StageState()), flushing, turns)
                        && |output.Contents()| < Wanted(old(Pipeline()), olen)
      ensures turns > Wanted(old(Pipeline()), olen) - |old(output.Contents())| ==>
                (over <==> AfterProcess(stage.step, stage.mult, old(Pipeline()), olen).Some?)
    {
      hide Processed, Turns, StepOf;
      var n: int := if flushing then Min(-samplesOut, olen) else olen;
      over := ProcessLoop(n, turns);
    }

    method ProcessLoop(n: int, turns: nat) returns (over: bool)
      requires Valid()
      modifies stage`at, stage.fifo, stage.fifo.data, output, output.data
      ensures Valid() && (stage.fifo.data == old(stage.fifo.data) || fresh(stage.fifo.data))
      ensures output.data == old(output.data) || fresh(output.data)
      ensures over ==> Processed(stage.step, stage.mult, old(StageState()), n, flushing) == Some(StageState())
      ensures !over ==> StageState() == Turns(stage.step, stage.mult, old(StageState()), flushing, turns)
                        && |output.Contents()| < n
      ensures turns > n - |old(output.Contents())| ==>
                (over <==> Processed(stage.step, stage.mult, old(StageState()), n, flushing).Some?)
    {
      hide Fired, Processed, Integer, Turn, Turns, Padded, StepOf;
      ghost var first := StageState();
      ghost var goal := Processed(stage.step, stage.mult, first, n, flushing);
      var done := false;
      var waiting := output.Occupancy();
      var k := 0;
      TurnsNone(stage.step, stage.mult, first, flushing);
      while !done && waiting < n && k < turns
        invariant Valid() && waiting == |output.Contents()| && k <= turns
        invariant stage.fifo.data == old(stage.fifo.data) || fresh(stage.fifo.data)
        invariant output.data == old(output.data) || fresh(output.data)
        invariant done ==> goal == Some(StageState())
        invariant !done ==> goal == Processed(stage.step, stage.mult, StageState(), n, flushing)
        invariant !done ==> StageState() == Turns(stage.step, stage.mult, first, flushing, k)
        invariant !done && goal.Some? ==> waiting >= |first.produced| + k
        decreases !done, turns - k
      {
        ghost var st := StageState();
        done := StageProcess();
        waiting := output.Occupancy();
        LoopStep(stage.step, stage.mult, first, st, n, flushing, k);
        k := k + 1;
      }
      if !done && waiting >= n {
        ProcessedStep(stage.step, stage.mult, StageState(), n, flushing);
      }
      over := done || waiting >= n;
    }

    ghost function StageState(): State
      reads this, stage, stage.fifo, stage.fifo.data, output, output.data
      requires Valid()
    {
      State(stage.fifo.Contents(), stage.at, output.Contents())
    }

    /** stage_process, lines 498-513, for the stage that is the input. */
    method StageProcess() returns (done: bool)
      requires Valid()
      modifies stage`at, stage.fifo, stage.fifo.data, output, output.data
      ensures Valid() && (stage.fifo.data == old(stage.fifo.data) || fresh(stage.fifo.data))
      ensures output.data == old(output.data) || fresh(output.data)
      ensures StageState() == Fired(stage.step, stage.mult, INPUT_SIZE, Padded(old(StageState()), flushing))
      ensures done == (!flushing && |old(stage.fifo.Contents())| < INPUT_SIZE)
    {
      hide Fired, Padded, Integer, Max;
      done := TopUp();
      ghost var ready := StageState();
      FiredQueue(stage.step, stage.mult, INPUT_SIZE, ready);
      stage.Call(output);
      var left := stage.fifo.Occupancy();
      done := done && left < stage.inputSize;
    }

    /** Lines 503-510. */
    method TopUp() returns (done: bool)
      requires Valid()
      modifies stage.fifo, stage.fifo.data
      ensures Valid() && (stage.fifo.data == old(stage.fifo.data) || fresh(stage.fifo.data))
      ensures StageState() == Padded(old(StageState()), flushing)
      ensures done == (!flushing && |old(stage.fifo.Contents())| < INPUT_SIZE)
      ensures done ==> |stage.fifo.Contents()| < INPUT_SIZE
    {
      hide Integer, Max, StepOf, Zeros;
      ghost var s := stage.fifo.Contents();
      done := false;
      var want: int := stage.inputSize - stage.fifo.Occupancy();
      while !done && want > 0
        invariant Valid() && want == INPUT_SIZE - |stage.fifo.Contents()|
        invariant stage.fifo.data == old(stage.fifo.data) || fresh(stage.fifo.data)
        invariant output.Contents() == old(output.Contents())
        invariant stage.fifo.Contents() == if flushing && want <= 0
            && |s| < INPUT_SIZE then s + Zeros(INPUT_SIZE - |s|) else s
        invariant done ==> !flushing && want > 0
        decreases !done, want
      {
        if flushing {
          PadInput(want);
        } else {
          done := true;
        }
        want := stage.inputSize - stage.fifo.Occupancy();
      }
    }

    /** Line 506. */
    method PadInput(want: nat)
      requires Valid()
      modifies stage.fifo, stage.fifo.data
      ensures Valid() && (stage.fifo.data == old(stage.fifo.data) || fresh(stage.fifo.data))
      ensures stage.fifo.Contents() == old(stage.fifo.Contents()) + Zeros(want)
    {
      hide Integer, StepOf, Zeros;
      var p := stage.fifo.Reserve(want);
      Silence(stage.fifo.data, p, want);
      assert stage.fifo.Contents() == stage.fifo.data[stage.fifo.begin..p] + stage.fifo.data[p..p + want];
    }

    method Silence(data: array<real>, p: nat, want: nat)
      requires p + want <= data.Length
      modifies data
      ensures data[..p] == old(data[..p]) && data[p..p + want] == Zeros(want)
    {
      forall i | p <= i < p + want {
        data[i] := 0.0;
      }
    }
  }

  lemma TurnsNone(step: nat, mult: real, st: State, flushing: bool)
    requires step > 0
    ensures Turns(step, mult, st, flushing, 0) == st
  {
  }

  lemma TurnIs(step: nat, mult: real, st: State, flushing: bool)
    requires step > 0
    ensures Turn(step, mult, st, flushing) == Fired(step, mult, INPUT_SIZE, Padded(st, flushing))
    ensures |Padded(st, flushing).queue| >= INPUT_SIZE <==> flushing || |st.queue| >= INPUT_SIZE
  {
    hide Fired;
  }

  /** What one turn does to the loop's invariants. */
  lemma LoopStep(step: nat, mult: real, first: State, st: State, n: int, flushing: bool, k: nat)
    requires step > 0 && st.at < ONE32 && |st.produced| < n && st == Turns(step, mult, first, flushing, k)
    ensures var next := Fired(step, mult, INPUT_SIZE, Padded(st, flushing));
            && (if flushing || |st.queue| >= INPUT_SIZE then
                  && Processed(step, mult, st, n, flushing) == Processed(step, mult, next, n, flushing)
                  && (Processed(step, mult, st, n, flushing).Some? ==> |next.produced| > |st.produced|)
                else Processed(step, mult, st, n, flushing) == Some(next))
            && next == Turns(step, mult, first, flushing, k + 1)
  {
    hide Fired, Processed, Turn, Turns, Padded;
    ProcessedStep(step, mult, st, n, flushing);
    TurnsNext(step, mult, first, flushing, k);
    TurnIs(step, mult, st, flushing);
  }

  lemma ProcessedStep(step: nat, mult: real, st: State, n: int, flushing: bool)
    requires 0 < step && st.at < ONE32
    ensures |st.produced| >= n ==> Processed(step, mult, st, n, flushing) == Some(st)
    ensures |st.produced| < n ==>
              var ready := Padded(st, flushing);
              var next := Fired(step, mult, INPUT_SIZE, ready);
              && next.at < ONE32
              && |next.queue| <= |ready.queue|
              && (if |ready.queue| < INPUT_SIZE then Processed(step, mult, st, n, flushing) == Some(next)
                  else
                    && Processed(step, mult, st, n, flushing) == Processed(step, mult, next, n, flushing)
                    && (Processed(step, mult, st, n, flushing).Some? ==> |next.produced| > |st.produced|))
  {
    if |st.produced| < n {
      var ready := Padded(st, flushing);
      FiredAt(step, mult, INPUT_SIZE, ready);
      if |ready.queue| >= INPUT_SIZE {
        StuckIff(step, mult, INPUT_SIZE, ready);
      }
      hide Fired, Integer;
      FiredQueue(step, mult, INPUT_SIZE, ready);
    }
  }

  lemma FiredQueue(step: nat, mult: real, inputSize: nat, st: State)
    requires step > 0
    ensures |Fired(step, mult, inputSize, st).queue| <= |st.queue|
  {
    hide EndOf, Produced, Integer;
  }
}
