/** Where the pipeline of Rate falls short: ratios of 8192 and more, for which a call may never
    return, and ratios that are rounded down to a step, for which the account is overdrawn. */
module RateLimits {
  import opened Arith
  import opened Options
  import opened Streams
  import opened CubicStage
  import opened Accounts
  import opened Rate

  // ---- calls that never return ----

  /** The loop goes on after the next turn: too little waits, and the queue was full. */
  predicate GoesOn(st: State, n: int, flushing: bool) {
    |st.produced| < n && |Padded(st, flushing).queue| >= INPUT_SIZE
  }

  /** It goes on after k more turns. */
  predicate GoesOnAfter(step: nat, mult: real, st: State, n: int, flushing: bool, k: nat)
    requires step > 0
  {
    GoesOn(Turns(step, mult, st, flushing, k), n, flushing)
  }

  /** Processed has no value just when the loop goes on after any number of turns. */
  lemma {:induction false} EndlessIff(step: nat, mult: real, st: State, n: int, flushing: bool)
    requires step > 0 && st.at < ONE32
    ensures Processed(step, mult, st, n, flushing) == None <==>
            forall k: nat :: GoesOnAfter(step, mult, st, n, flushing, k)
    decreases n - |st.produced|
  {
    hide Fired, Integer;
    var ready := Padded(st, flushing);
    var next := Turn(step, mult, st, flushing);
    assert GoesOnAfter(step, mult, st, n, flushing, 0) == GoesOn(st, n, flushing);
    if GoesOn(st, n, flushing) {
      FiredAt(step, mult, INPUT_SIZE, ready);
      StuckIff(step, mult, INPUT_SIZE, ready);
      if |ready.queue| <= Max(3, Integer(step)) {
        forall k: nat ensures GoesOnAfter(step, mult, st, n, flushing, k) {
          StandsStill(step, mult, st, flushing, k);
        }
      } else {
        EndlessIff(step, mult, next, n, flushing);
        FirstTurn(step, mult, st, n, flushing);
      }
    }
  }

  lemma FirstTurn(step: nat, mult: real, st: State, n: int, flushing: bool)
    requires step > 0 && GoesOn(st, n, flushing)
    ensures (forall k: nat :: GoesOnAfter(step, mult, st, n, flushing, k)) <==>
            forall k: nat :: GoesOnAfter(step, mult, Turn(step, mult, st, flushing), n, flushing, k)
  {
    hide Turn, GoesOn, GoesOnAfter;
    var next := Turn(step, mult, st, flushing);
    forall k: nat ensures GoesOnAfter(step, mult, st, n, flushing, k) == (k == 0
        || GoesOnAfter(step, mult, next, n, flushing, k - 1)) {
      OneTurnLess(step, mult, st, n, flushing, k);
    }
    if forall k: nat :: GoesOnAfter(step, mult, st, n, flushing, k) {
      forall k: nat ensures GoesOnAfter(step, mult, next, n, flushing, k) {
        assert GoesOnAfter(step, mult, st, n, flushing, k + 1);
      }
    }
  }

  lemma OneTurnLess(step: nat, mult: real, st: State, n: int, flushing: bool, k: nat)
    requires step > 0 && GoesOn(st, n, flushing)
    ensures GoesOnAfter(step, mult, st, n, flushing, k) ==
            (k == 0 || GoesOnAfter(step, mult, Turn(step, mult, st, flushing), n, flushing, k - 1))
  {
    hide Turn, GoesOn;
  }

  /** A queue of at least the input size and at most the step is left as it is by every turn. */
  lemma {:induction false} StandsStill(step: nat, mult: real, st: State, flushing: bool, k: nat)
    requires step > 0 && st.at < ONE32
    requires INPUT_SIZE <= |Padded(st, flushing).queue| <= Max(3, Integer(step))
    ensures Turns(step, mult, st, flushing, k) == if k == 0 then st else Padded(st, flushing)
    decreases k
  {
    hide Fired, Integer;
    StuckIff(step, mult, INPUT_SIZE, Padded(st, flushing));
    if k > 0 {
      StandsStill(step, mult, Padded(st, flushing), flushing, k - 1);
    }
  }

  /** With a step of 8192 samples or more, asking for anything once a full input queue holds no
      more than a step never returns. */
  lemma InputNeverReturns(ratio: Ratio, mult: real, samples: seq<real>, olen: nat)
    requires INPUT_SIZE <= 1 + |samples| <= Integer(StepOf(ratio)) && olen > 0
    ensures Served(ratio, mult, [Input(samples), Process(olen)]) == None
  {
    hide StepOf, Integer, Fired;
    var calls := [Input(samples), Process(olen)];
    assert calls[..1] == [Input(samples)] && [Input(samples)][..0] == [];
    assert Served(ratio, mult, []) == Some(Start);
  }

  /** Neither does asking for what is owed after a flush, for any input not longer than a step. */
  lemma FlushNeverReturns(ratio: Ratio, mult: real, samples: seq<real>, olen: nat)
    requires INPUT_SIZE <= Integer(StepOf(ratio)) && 1 + |samples| <= Integer(StepOf(ratio))
    requires olen > 0 && Due(ratio, |samples|) > 0
    ensures Served(ratio, mult, [Input(samples), Flush, Process(olen)]) == None
  {
    hide StepOf, Integer, Fired, Due;
    var calls := [Input(samples), Flush, Process(olen)];
    assert calls[..2] == [Input(samples), Flush] && calls[..2][..1] == [Input(samples)] && calls[..1][..0] == [];
    assert Served(ratio, mult, []) == Some(Start);
    var h := Next(ratio, mult, Start, Input(samples)).value;
    ServedUnfold(ratio, mult, [Input(samples)]);
    ServedUnfold(ratio, mult, [Input(samples), Flush]);
    ServedUnfold(ratio, mult, calls);
  }

  /** With a step of zero, that is, a ratio below 2^-33, asking for anything once there are three
      samples, or once flushing, never returns either: the stage's own loop has no end. */
  lemma ZeroNeverReturns(ratio: Ratio, mult: real, samples: seq<real>, olen: nat)
    requires StepOf(ratio) == 0 && |samples| >= 3 && olen > 0
    ensures Served(ratio, mult, [Input(samples), Process(olen)]) == None
  {
    hide StepOf;
    var calls := [Input(samples), Process(olen)];
    assert calls[..1] == [Input(samples)] && [Input(samples)][..0] == [];
    assert Served(ratio, mult, []) == Some(Start);
  }

  /** Every call returns, whatever the calls before it, just when the step is not zero and below 8192
      samples. */
  lemma AlwaysReturnsIff(ratio: Ratio, mult: real)
    ensures (forall calls: seq<Call> :: Served(ratio, mult, calls).Some?) <==>
            0 < StepOf(ratio) < 8192 * 4294967296
  {
    StepBelow(StepOf(ratio));
    if StepOf(ratio) == 0 {
      ZeroNeverReturns(ratio, mult, Zeros(3), 1);
    } else if Integer(StepOf(ratio)) < INPUT_SIZE {
      forall calls: seq<Call> ensures Served(ratio, mult, calls).Some? {
        SmallStepServes(ratio, mult, calls);
      }
    } else {
      InputNeverReturns(ratio, mult, Zeros(INPUT_SIZE - 1), 1);
    }
  }

  lemma StepBelow(step: nat)
    ensures Integer(step) < INPUT_SIZE <==> step < 8192 * 4294967296
  {
  }

  lemma {:induction false} SmallStepServes(ratio: Ratio, mult: real, calls: seq<Call>)
    requires 0 < StepOf(ratio) && Integer(StepOf(ratio)) < INPUT_SIZE
    ensures Served(ratio, mult, calls).Some?
  {
    hide StepOf, Processed, Integer, Due;
    if calls != [] {
      SmallStepServes(ratio, mult, calls[..|calls| - 1]);
      var h := Served(ratio, mult, calls[..|calls| - 1]).value;
      match calls[|calls| - 1]
      case Process(olen) =>
        var p := h.pipe;
        SmallStepReturns(StepOf(ratio), mult, State(p.queue, p.at, p.waiting), Wanted(p, olen), p.flushing);
      case _ =>
    }
  }

  /** The smallest such ratio, with 8191 samples. */
  lemma RatioOf8192(mult: real, olen: nat)
    requires olen > 0
    ensures Served(8192.0, mult, [Input(Zeros(8191)), Process(olen)]) == None
  {
    InputNeverReturns(8192.0, mult, Zeros(8191), olen);
  }

  // ---- accounts that are overdrawn ----

  /** As many outputs as the stage can make of its input are made when they are asked for, beside
      those given before. */
  lemma {:induction false} Reaches(step: nat, mult: real, x: seq<real>, given: seq<real>, st: State, n: nat)
    requires step > 0 && st.at < ONE32 && |given| + n <= Allowed(step, |x|)
    requires Tracks(step, mult, x, st.(produced := given + st.produced))
    ensures var r := Processed(step, mult, st, n, false); r.Some? && |r.value.produced| >= n
    decreases n - |st.produced|
  {
    hide Fired, Integer, Position, Allowed, Tracks;
    if |st.produced| < n {
      FiredAt(step, mult, INPUT_SIZE, st);
      FiredAppends(step, mult, INPUT_SIZE, st, given);
      TracksFire(step, mult, INPUT_SIZE, x, st.(produced := given + st.produced));
      LongQueue(step, mult, x, st.(produced := given + st.produced));
      if |st.queue| >= INPUT_SIZE {
        StuckIff(step, mult, INPUT_SIZE, st);
        Reaches(step, mult, x, given, Fired(step, mult, INPUT_SIZE, st), n);
      }
    }
  }

  lemma LongQueue(step: nat, mult: real, x: seq<real>, st: State)
    requires step > 0 && Tracks(step, mult, x, st) && |st.produced| < Allowed(step, |x|)
    ensures |st.queue| > Max(3, Integer(step))
  {
    hide Integer, Position, Allowed, OutputOk;
    AllowedIs(step, |x|, |st.produced|);
  }

  /** A call for no more than limit samples. */
  predicate Within(limit: nat, call: Call) {
    match call
    case Input(samples) => |samples| <= limit
    case Process(olen) => olen <= limit
    case Output(n0) => n0 <= limit
    case Flush => true
  }

  /** The samples can be fed in calls of any size. */
  lemma {:induction false} Fed(ratio: Ratio, mult: real, samples: seq<real>, limit: nat) returns (calls: seq<Call>)
    requires limit > 0
    ensures forall c <- calls :: Within(limit, c)
    ensures Served(ratio, mult, calls) ==
            Some(History(Pipe([0.0] + samples, 0, [], |samples|, 0, false), samples, []))
    decreases |samples|
  {
    hide Served;
    if samples == [] {
      calls := [];
      ServedNone(ratio, mult);
      assert [0.0] + samples == [0.0];
    } else {
      var cut := Max(0, |samples| - limit);
      var rest := samples[cut..];
      var before := Fed(ratio, mult, samples[..cut], limit);
      calls := before + [Input(rest)];
      FedMore(ratio, mult, before, samples[..cut], rest);
      assert samples[..cut] + rest == samples;
    }
  }

  lemma FedMore(ratio: Ratio, mult: real, before: seq<Call>, taken: seq<real>, samples: seq<real>)
    requires Served(ratio, mult, before) == Some(History(Pipe([0.0] + taken, 0, [], |taken|, 0, false), taken, []))
    ensures Served(ratio, mult, before + [Input(samples)]) ==
            Some(History(Pipe([0.0] + (taken + samples), 0, [], |taken + samples|, 0, false), taken + samples, []))
  {
    hide Served;
    var calls := before + [Input(samples)];
    assert calls[..|before|] == before;
    ServedUnfold(ratio, mult, calls);
    assert ([0.0] + taken) + samples == [0.0] + (taken + samples);
  }

  lemma ServedNone(ratio: Ratio, mult: real)
    ensures Served(ratio, mult, []) == Some(Start)
  {
  }

  /** Any number of outputs that the stage can make of the input can be had before the flush, in
      calls of any size. */
  lemma {:induction false} Attained(ratio: Ratio, mult: real, samples: seq<real>, k: nat, limit: nat)
    returns (calls: seq<Call>)
    requires limit > 0 && k <= Makes(StepOf(ratio), 1 + |samples|)
    ensures forall c <- calls :: Within(limit, c)
    ensures var h := Served(ratio, mult, calls);
            h.Some? && h.value.taken == samples && |h.value.given| == k && !h.value.pipe.flushing
    decreases k
  {
    hide StepOf, Makes, Served;
    if k == 0 {
      calls := Fed(ratio, mult, samples, limit);
    } else {
      var n := Min(k, limit);
      var before := Attained(ratio, mult, samples, k - n, limit);
      OneMorePiece(ratio, mult, before, n);
      calls := before + [Process(n)] + [Output(n)];
    }
  }

  lemma OneMorePiece(ratio: Ratio, mult: real, calls: seq<Call>, n: nat)
    requires Served(ratio, mult, calls).Some? && !Served(ratio, mult, calls).value.pipe.flushing
    requires var h := Served(ratio, mult, calls).value;
             |h.given| + n <= Makes(StepOf(ratio), 1 + |h.taken|)
    ensures var h, r := Served(ratio, mult, calls).value, Served(ratio, mult, calls + [Process(n)] + [Output(n)]);
            && r.Some? && r.value.taken == h.taken && !r.value.pipe.flushing
            && |r.value.given| == |h.given| + n
  {
    hide StepOf, Allowed, Tracks, Processed, Due, Tight;
    var h := Served(ratio, mult, calls).value;
    var pad := ServedGood(ratio, mult, calls);
    if StepOf(ratio) > 0 {
      Reaches(StepOf(ratio), mult, Stream(h.taken, 0), h.given, State(h.pipe.queue, h.pipe.at, h.pipe.waiting), n);
    }
    var mid := calls + [Process(n)];
    var all := mid + [Output(n)];
    assert mid[..|calls|] == calls && all[..|mid|] == mid;
    ServedUnfold(ratio, mult, mid);
    ServedUnfold(ratio, mult, all);
    hide Served;
  }

  /** For inputs of n samples: no more than their worth is handed out, whatever the calls, just
      when the stage can make no more of them. */
  lemma TightIff(ratio: Ratio, mult: real, n: nat)
    ensures Tight(ratio, n) <==>
            forall calls: seq<Call> :: Served(ratio, mult, calls).Some? && |Served(ratio, mult, calls).value.taken| == n
                ==> |Served(ratio, mult, calls).value.given| <= Due(ratio, n)
  {
    hide StepOf, Makes, Due, Served;
    if Tight(ratio, n) {
      forall calls: seq<Call> | Served(ratio, mult, calls).Some? && |Served(ratio, mult, calls).value.taken| == n
        ensures |Served(ratio, mult, calls).value.given| <= Due(ratio, n)
      {
        ExactAccount(ratio, mult, calls);
        DueDef(ratio, n);
      }
    } else {
      var calls := Attained(ratio, mult, Zeros(n), Makes(StepOf(ratio), 1 + n), 1);
    }
  }

  lemma DueDef(ratio: Ratio, n: nat)
    ensures Due(ratio, n) == (n as real / ratio + 0.5).Floor
  {
  }

  /** The accounts are safe for inputs of any length just when the step was not rounded down, unless
      to zero. */
  lemma AlwaysTightIff(ratio: Ratio)
    ensures (forall n: nat :: Tight(ratio, n)) <==>
            ratio * ONE32 as real <= StepOf(ratio) as real || StepOf(ratio) == 0
  {
    hide StepOf, Makes, Due;
    if StepOf(ratio) == 0 {
      forall n: nat ensures Tight(ratio, n) {
        MakesNone(n);
        DueIs(ratio, n, 0);
      }
    } else if ratio * ONE32 as real <= StepOf(ratio) as real {
      forall n: nat ensures Tight(ratio, n) {
        NeverAhead(ratio, n, Makes(StepOf(ratio), 1 + n));
      }
    } else {
      var n := Overdrawn(ratio);
    }
  }

  lemma MakesNone(n: nat)
    ensures Makes(0, 1 + n) == 0
  {
  }

  /** A step that was rounded down makes too many samples of a long enough input. */
  lemma Overdrawn(ratio: Ratio) returns (n: nat)
    requires ratio * ONE32 as real > StepOf(ratio) as real > 0.0
    ensures !Tight(ratio, n)
  {
    hide StepOf, Allowed, Due, Position, Integer;
    var step := StepOf(ratio);
    var m := Max(3, Integer(step));
    var gap := ratio * ONE32 as real - step as real;
    var k: nat := (m as real * ONE32 as real / gap).Floor + 1;
    BeyondGap(m, gap, k);
    n := Integer(Position(step, k)) + m;
    AllowedIs(step, 1 + n, k);
    DueIs(ratio, n, k + 1);
    WholeAndPart(Position(step, k));
    PositionReal(step, k);
    WorthLess(ratio, step, k, n, m, gap);
  }

  lemma BeyondGap(m: nat, gap: real, k: nat)
    requires gap > 0.0 && k == (m as real * ONE32 as real / gap).Floor + 1
    ensures k as real * gap > m as real * ONE32 as real
  {
    var q := m as real * ONE32 as real / gap;
    assert q * gap == m as real * ONE32 as real;
    hide *;
    ScaleIff(k as real, q, gap);
  }

  lemma WorthLess(ratio: real, step: nat, k: nat, n: nat, m: nat, gap: real)
    requires ratio > 0.0 && gap == ratio * ONE32 as real - step as real
    requires k as real * gap > m as real * ONE32 as real
    requires (n - m) as real * ONE32 as real <= k as real * step as real
    ensures (k + 1) as real * ratio > n as real + 0.5 * ratio
  {
    assert k as real * (ratio * ONE32 as real) == k as real * step as real + k as real * gap;
    assert (k as real * ratio) * ONE32 as real > n as real * ONE32 as real;
    assert (k + 1) as real * ratio == k as real * ratio + ratio;
  }

  /** The account that such an input leaves at the flush is overdrawn, and the next request is a
      read that fails; calls of any size can bring this about. */
  lemma OverdrawnRun(ratio: Ratio, mult: real, limit: nat, n0: nat) returns (calls: seq<Call>)
    requires ratio * ONE32 as real > StepOf(ratio) as real > 0.0 && limit > 0
    ensures forall c <- calls :: Within(limit, c)
    ensures var h := Served(ratio, mult, calls);
            && h.Some? && h.value.pipe.flushing && h.value.pipe.samplesOut > 0
            && |h.value.given| > Due(ratio, |h.value.taken|)
            && Min(Wanted(h.value.pipe, n0), |h.value.pipe.waiting|) < 0
  {
    hide StepOf, Makes, Due, Served;
    var n := Overdrawn(ratio);
    var before := Attained(ratio, mult, Zeros(n), Makes(StepOf(ratio), 1 + n), limit);
    calls := before + [Flush];
    assert calls[..|before|] == before;
    ServedUnfold(ratio, mult, calls);
    var pad := ServedGood(ratio, mult, before);
    hide Tight, Tracks;
  }

  /** From 44100 to 48000 samples a second the step is rounded down. */
  lemma CommonRatio(mult: real) returns (calls: seq<Call>)
    ensures forall c <- calls :: Within(0x7fff_ffff, c)
    ensures var h := Served(44100.0 / 48000.0, mult, calls); h.Some? && h.value.pipe.samplesOut > 0
  {
    calls := OverdrawnRun(44100.0 / 48000.0, mult, 0x7fff_ffff, 1);
  }
}
