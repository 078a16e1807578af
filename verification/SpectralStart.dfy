/** What becomes of at when the zeros are stuffed in the frequency domain (soxr-sys/src/cr.c, lines
    87-124 and 240-241): the buffer is filled as if at were 0. */
module SpectralStart {
  import opened Arith
  import opened Streams
  import opened OverlapSave

  /** One sample after k silent ones. */
  function Impulse(k: nat): (x: seq<real>)
    ensures |x| == k + 1
  {
    Zeros(k) + [1.0]
  }

  lemma ImpulseStuffed(up: nat, first: nat, k: nat, i: nat)
    requires up > 0
    ensures Stuffed(Impulse(k), up, first, i) == if i == first + Position(up, k) then 1.0 else 0.0
  {
    PositionIs(up, k);
    if i >= first {
      var d := i - first;
      assert d == d % up + up * (d / up);
      if d % up == 0 && d / up != k {
        hide Position;
        DigitsDivMod(up, 0, k);
      }
    }
    if i == first + Position(up, k) {
      DigitsDivMod(up, 0, k);
    }
  }

  /** The filter's answer to it is one tap, or nothing. */
  lemma {:induction false} ImpulseResponse(h: seq<real>, up: nat, first: nat, k: nat, v: nat, t: nat)
    requires up > 0 && t <= |h|
    ensures var p := first + Position(up, k);
            FirSum(h, Impulse(k), up, first, v, t) == if v <= p < v + t then h[|h| - 1 - (p - v)] else 0.0
  {
    hide Position, Impulse, Stuffed, Weigh;
    if t > 0 {
      ImpulseResponse(h, up, first, k, v, t - 1);
      ImpulseStuffed(up, first, k, v + (t - 1));
      WeighUnit(h[|h| - t]);
    }
  }

  lemma WeighUnit(a: real)
    ensures Weigh(a, 1.0) == a && Weigh(a, 0.0) == 0.0
  {
  }

  /** Beginning at places later only moves the filter's values at places on. */
  lemma {:induction false} ValueShifts(h: seq<real>, x: seq<real>, up: nat, at: nat, v: nat, t: nat)
    requires up > 0 && t <= |h|
    ensures FirSum(h, x, up, at, v + at, t) == FirSum(h, x, up, 0, v, t)
  {
    hide Weigh;
    if t > 0 {
      ValueShifts(h, x, up, at, v, t - 1);
      assert (v + at) + (t - 1) == (v + (t - 1)) + at;
    }
  }

  /** So the values made in the frequency domain are those that the time domain would make at
      places later. */
  lemma EarlyBy(f: Filter, x: seq<real>, at: nat, v: nat)
    requires f.Sound()
    ensures Value(f, x, 0, v) == Value(f, x, at, v + at)
  {
    ValueShifts(f.taps, x, f.up, at, v, |f.taps|);
    hide FirSum;
  }

  ghost predicate Silent(f: Filter) {
    f.gain == 0.0 || forall i: nat | i < |f.taps| :: f.taps[i] == 0.0
  }

  ghost predicate SameValues(f: Filter, at: nat)
    requires f.Sound()
  {
    forall x: seq<real>, v: nat :: Value(f, x, 0, v) == Value(f, x, at, v)
  }

  /** The two agree on every stream and at every place just when at is 0 or nothing is heard. */
  lemma SameValuesIff(f: Filter, at: nat)
    requires f.Sound() && at < f.up
    ensures SameValues(f, at) <==> at == 0 || Silent(f)
  {
    if Silent(f) {
      forall x: seq<real>, v: nat ensures Value(f, x, 0, v) == Value(f, x, at, v) {
        SilentValue(f, x, 0, v);
        SilentValue(f, x, at, v);
      }
    } else if at > 0 {
      var i := FirstTap(f.taps);
      var m := |f.taps| - 1 - i;
      PositionIs(f.up, m);
      MulLe(m, 1, f.up);
      hide Position, Silent, FirSum;
      var p := Position(f.up, m);
      ImpulseResponse(f.taps, f.up, 0, m, p - m, |f.taps|);
      ImpulseResponse(f.taps, f.up, at, m, p - m, |f.taps|);
      NotZero(f.gain, f.taps[i]);
      assert Value(f, Impulse(m), 0, p - m) != Value(f, Impulse(m), at, p - m);
    }
  }

  lemma NotZero(a: real, b: real)
    requires a != 0.0 && b != 0.0
    ensures Weigh(a, b) != 0.0 && Weigh(a, 0.0) == 0.0
  {
  }

  lemma FirstTap(h: seq<real>) returns (i: nat)
    requires exists j: nat :: j < |h| && h[j] != 0.0
    ensures i < |h| && h[i] != 0.0 && forall j: nat | j < i :: h[j] == 0.0
  {
    i := 0;
    while h[i] == 0.0
      invariant i < |h| && (forall j: nat | j < i :: h[j] == 0.0)
      invariant exists j: nat :: i <= j < |h| && h[j] != 0.0
      decreases |h| - i
    {
      i := i + 1;
    }
  }

  lemma SilentValue(f: Filter, x: seq<real>, first: nat, v: nat)
    requires f.Sound() && Silent(f)
    ensures Value(f, x, first, v) == 0.0
  {
    if f.gain != 0.0 {
      SilentSum(f.taps, x, f.up, first, v, |f.taps|);
    }
  }

  lemma {:induction false} SilentSum(h: seq<real>, x: seq<real>, up: nat, first: nat, v: nat, t: nat)
    requires up > 0 && t <= |h| && forall i: nat | i < |h| :: h[i] == 0.0
    ensures FirSum(h, x, up, first, v, t) == 0.0
  {
    hide Stuffed;
    if t > 0 {
      SilentSum(h, x, up, first, v, t - 1);
    }
  }

  /** A run that shows it: of a click the stage's first output is the last tap, whatever at is;
      filtering from at on it would be the tap at places before. */
  lemma ClickIsEarly(f: Filter, at: nat, k: nat)
    requires f.Sound() && f.spectral && Whole(f) && at < f.up && at < |f.taps| && Fires(f, at, k + 1)
    ensures var events := [Arrive([1.0] + Zeros(k)), Fire];
            var x, st := Received([], events), Run(f, at, [], events);
            && |st.produced| > 0
            && st.produced[0] == Weigh(f.gain, f.taps[|f.taps| - 1])
            && Value(f, x, at, 0) == Weigh(f.gain, f.taps[|f.taps| - 1 - at])
  {
    var s := [1.0] + Zeros(k);
    var events := [Arrive(s), Fire];
    ReceivedOnce(s);
    OneFire(f, at, s);
    ClickValue(f, 0, k);
    ClickValue(f, at, k);
  }

  lemma ReceivedOnce(s: seq<real>)
    ensures Received([], [Arrive(s)]) == s && Received([], [Arrive(s), Fire]) == s
  {
    var e1, e2 := [Arrive(s)], [Arrive(s), Fire];
    assert e1[..|e1| - 1] == [] && e2[..|e2| - 1] == e1;
    assert Received([], e1) == [] + s;
  }

  lemma Arrived(f: Filter, at: nat, s: seq<real>)
    requires f.Sound() && at < f.up
    ensures Run(f, at, [], [Arrive(s)]) == State(s, at, 0, InputSize(f, at), [])
  {
    var e1 := [Arrive(s)];
    hide InputSize, Fired;
    assert e1[..|e1| - 1] == [] && e1[|e1| - 1] == Arrive(s);
    assert Run(f, at, [], []) == State([], at, 0, InputSize(f, at), []);
    assert [] + s == s;
  }

  lemma OneFire(f: Filter, at: nat, s: seq<real>)
    requires f.Sound() && f.spectral && at < f.up && Fires(f, at, |s|)
    ensures var st := Run(f, at, [], [Arrive(s), Fire]);
            |st.produced| > 0 && st.produced[0] == Value(f, s, 0, 0)
  {
    var e1, e2 := [Arrive(s)], [Arrive(s), Fire];
    assert e2[..|e2| - 1] == e1;
    Arrived(f, at, s);
    CountIs(f.down, 0, f.Block(), 0);
    PositionSum(f.down, 0, 0);
    hide Position, Value, Count, InputSize;
    var st := Fired(f, Run(f, at, [], e1));
    assert Run(f, at, [], e2) == st;
    assert st.produced == Produced(f, s, at, 0);
  }

  lemma ClickValue(f: Filter, first: nat, k: nat)
    requires f.Sound() && first < |f.taps| && first < f.up
    ensures Value(f, [1.0] + Zeros(k), first, 0) == Weigh(f.gain, f.taps[|f.taps| - 1 - first])
  {
    PositionSum(f.up, 0, 0);
    ImpulseResponse(f.taps, f.up, first, 0, 0, |f.taps|);
    ClickSum(f.taps, f.up, first, k, |f.taps|);
  }

  /** Silence after the click changes nothing. */
  lemma {:induction false} ClickSum(h: seq<real>, up: nat, first: nat, k: nat, t: nat)
    requires up > 0 && t <= |h|
    ensures FirSum(h, [1.0] + Zeros(k), up, first, 0, t) == FirSum(h, Impulse(0), up, first, 0, t)
  {
    if t > 0 {
      ClickSum(h, up, first, k, t - 1);
      var i := t - 1;
      if i >= first && (i - first) % up == 0 {
        SamplesAgree(k, (i - first) / up);
      }
    }
  }

  lemma SamplesAgree(k: nat, j: nat)
    ensures (if j < k + 1 then ([1.0] + Zeros(k))[j] else 0.0) == if j < 1 then Impulse(0)[j] else 0.0
  {
  }
}
