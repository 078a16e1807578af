/** The driver of a chain of stages (soxr-sys/src/cr.c, lines 498-547), for any number of stages of
    any kind: it always comes back, what its answer means, how many samples it hands out, and that
    these are the composition of what the stages do.  Queues are sequences here; Fifos shows that
    the real ones behave so. */
module Driver {
  import opened Streams
  import opened Accounts

  // ---- the lexicographic order, input stage first ----

  ghost predicate LexLess(a: seq<nat>, b: seq<nat>) {
    |a| == |b| && |a| > 0 && (a[0] < b[0] || (a[0] == b[0] && LexLess(a[1..], b[1..])))
  }

  /** No descending chain starts at v. */
  least predicate Grounded(v: seq<nat>) {
    forall w | LexLess(w, v) :: Grounded(w)
  }

  ghost predicate GroundedBelow(x: nat, n: nat) {
    forall y: nat, u: seq<nat> | y < x && |u| == n :: Grounded([y] + u)
  }

  lemma GroundedHead(x: nat, t: seq<nat>, o: ORDINAL)
    requires Grounded#[o](t) && GroundedBelow(x, |t|)
    ensures Grounded([x] + t)
    decreases o
  {
    forall w | LexLess(w, [x] + t) ensures Grounded(w) {
      assert w == [w[0]] + w[1..];
      assert ([x] + t)[1..] == t;
      if w[0] == x {
        var o' := Descend(t, w[1..], o);
        GroundedHead(x, w[1..], o');
      } else {
        assert |w[1..]| == |t|;
      }
    }
  }

  /** The order is well-founded on tuples of any length. */
  lemma AllGrounded(v: seq<nat>)
    ensures Grounded(v)
    decreases |v|, if |v| > 0 then v[0] else 0
  {
    if |v| > 0 {
      AllGrounded(v[1..]);
      forall y: nat, u: seq<nat> | y < v[0] && |u| == |v| - 1 ensures Grounded([y] + u) {
        AllGrounded([y] + u);
      }
      var o: ORDINAL :| Grounded#[o](v[1..]);
      GroundedHead(v[0], v[1..], o);
      assert v == [v[0]] + v[1..];
    }
  }

  lemma Descend(v: seq<nat>, w: seq<nat>, o: ORDINAL) returns (o': ORDINAL)
    requires Grounded#[o](v) && LexLess(w, v)
    ensures o' < o && Grounded#[o'](w)
  {
    if o.IsLimit {
      var p: ORDINAL :| p < o && Grounded#[p](v);
      o' := Descend(v, w, p);
    } else {
      o' := o - 1;
    }
  }

  lemma {:induction false} LexAppend(a: seq<nat>, b: seq<nat>, x: nat, y: nat)
    requires |a| == |b|
    requires LexLess(a, b) || (a == b && x < y)
    ensures LexLess(a + [x], b + [y])
  {
    if a == [] {
    } else {
      assert (a + [x])[1..] == a[1..] + [x] && (b + [y])[1..] == b[1..] + [y];
      if a[0] == b[0] {
        assert a == b ==> a[1..] == b[1..];
        LexAppend(a[1..], b[1..], x, y);
      }
    }
  }

  lemma {:induction false} LexTransitive(a: seq<nat>, b: seq<nat>, c: seq<nat>)
    requires LexLess(a, b) && LexLess(b, c)
    ensures LexLess(a, c)
  {
    if a[0] == b[0] == c[0] {
      LexTransitive(a[1..], b[1..], c[1..]);
    }
  }

  // ---- stages ----

  /** A stage with what waits in its queue, everything that ever came into it, and everything the
      stage ever put out. */
  datatype Stage<S> = Stage(queue: seq<real>, inputSize: nat, own: S, heard: seq<real>, made: seq<real>) {
    function Given(more: seq<real>): Stage<S> {
      this.(queue := queue + more, heard := heard + more)
    }

    function After(o: Outcome<S>): Stage<S> {
      Stage(if o.consumed <= |queue| then queue[o.consumed..] else [], o.inputSize, o.own, heard, made + o.out)
    }

    function Consumed(): int {
      |heard| - |queue|
    }
  }

  /** What one call of a stage function does. */
  datatype Outcome<S> = Outcome(consumed: nat, out: seq<real>, inputSize: nat, own: S)

  ghost predicate Progresses<S>(st: Stage<S>, r: Outcome<S>) {
    && r.consumed <= |st.queue|
    && (|st.queue| >= st.inputSize ==> r.consumed > 0)
    && (r.consumed == 0 ==> r.out == [] && (|st.queue| < st.inputSize ==> |st.queue| < r.inputSize))
  }

  /** Stages in an acceptable state consume something when they hold input_size items, a call that
      consumes nothing is without effect, and calls and arrivals leave the state acceptable. */
  ghost predicate Lively<S(!new)>(fn: (nat, Stage<S>) -> Outcome<S>, ok: (nat, Stage<S>) -> bool) {
    && (forall i: nat, st: Stage<S> {:trigger fn(i, st)} | ok(i, st) ::
          Progresses(st, fn(i, st)) && ok(i, st.After(fn(i, st))))
    && (forall i: nat, st: Stage<S>, more: seq<real> {:trigger ok(i, st.Given(more))} | ok(i, st) ::
          ok(i, st.Given(more)))
  }

  /** They also make something when they hold input_size items; needed for flushing only. */
  ghost predicate Productive<S(!new)>(fn: (nat, Stage<S>) -> Outcome<S>, ok: (nat, Stage<S>) -> bool) {
    forall i: nat, st: Stage<S> {:trigger fn(i, st)} | ok(i, st) && |st.queue| >= st.inputSize :: fn(i, st).out != []
  }

  function Occupancies<S>(stages: seq<Stage<S>>, k: nat): (v: seq<nat>)
    requires k <= |stages|
    ensures |v| == k
  {
    if k == 0 then [] else Occupancies(stages, k - 1) + [|stages[k - 1].queue|]
  }

  lemma {:induction false} OccupanciesSame<S>(a: seq<Stage<S>>, b: seq<Stage<S>>, k: nat)
    requires k <= |a| == |b| && forall i: nat | i < k :: a[i] == b[i]
    ensures Occupancies(a, k) == Occupancies(b, k)
  {
    if k > 0 {
      OccupanciesSame(a, b, k - 1);
    }
  }

  // ---- what a turn of stages 0..k does to the chain ----

  /** Something may have come into the queue, and nothing else has changed. */
  ghost predicate Fed<S>(a: Stage<S>, b: Stage<S>) {
    a.queue <= b.queue && b == a.Given(b.queue[|a.queue|..])
  }

  lemma FedTwice<S>(a: Stage<S>, b: Stage<S>, c: Stage<S>)
    requires Fed(a, b) && Fed(b, c)
    ensures Fed(a, c)
  {
    var x, y := b.queue[|a.queue|..], c.queue[|b.queue|..];
    assert c.queue[|a.queue|..] == x + y;
    assert (a.heard + x) + y == a.heard + (x + y);
  }

  lemma FedBy<S>(a: Stage<S>, more: seq<real>)
    ensures Fed(a, a.Given(more))
  {
  }

  lemma FedNothing<S>(a: Stage<S>)
    ensures Fed(a, a)
  {
    assert a.Given([]) == a;
    assert a.queue[|a.queue|..] == [];
  }

  /** Stages above k+1 are left alone, stage k+1 only has its queue extended. */
  ghost predicate Frame<S>(a: seq<Stage<S>>, b: seq<Stage<S>>, k: nat)
    requires k + 1 < |a|
  {
    && |a| == |b|
    && (forall i: nat | k + 1 < i < |a| :: b[i] == a[i])
    && Fed(a[k + 1], b[k + 1])
  }

  /** The occupancies of the first k stages have fallen, or nothing has happened to them and
      nothing has reached stage k. */
  ghost predicate Falls<S>(a: seq<Stage<S>>, b: seq<Stage<S>>, k: nat)
    requires k < |a| == |b|
  {
    || LexLess(Occupancies(b, k), Occupancies(a, k))
    || (Occupancies(b, k) == Occupancies(a, k) && b[k].queue == a[k].queue)
  }

  ghost predicate Starved<S>(stages: seq<Stage<S>>, k: nat)
    requires k <= |stages|
  {
    forall i: nat | i < k :: |stages[i].queue| < stages[i].inputSize
  }

  /** One call of stage i leaves it nothing that another would take. */
  ghost predicate Finishes<S>(fn: (nat, Stage<S>) -> Outcome<S>, i: nat, st: Stage<S>) {
    fn(i, st.After(fn(i, st))).consumed == 0
  }

  /** The last thing that happened to each of the first k stages was its call, in the states last;
      the input stage then held less than input_size items. */
  ghost predicate LastCalled<S(!new)>(fn: (nat, Stage<S>) -> Outcome<S>, ok: (nat, Stage<S>) -> bool,
                                      stages: seq<Stage<S>>, last: seq<Stage<S>>, k: nat)
    requires k <= |stages|
  {
    && |last| == k
    && (forall i: nat | i < k :: ok(i, last[i]) && stages[i] == last[i].After(fn(i, last[i])))
    && (k > 0 ==> |last[0].queue| < last[0].inputSize)
  }

  function Called<S>(fn: (nat, Stage<S>) -> Outcome<S>, stages: seq<Stage<S>>, k: nat): (r: seq<Stage<S>>)
    requires k + 1 < |stages|
    ensures |r| == |stages|
  {
    var o := fn(k, stages[k]);
    stages[k := stages[k].After(o)][k + 1 := stages[k + 1].Given(o.out)]
  }

  lemma CalledFrame<S>(fn: (nat, Stage<S>) -> Outcome<S>, stages: seq<Stage<S>>, k: nat)
    requires k + 1 < |stages|
    ensures Frame(stages, Called(fn, stages, k), k)
    ensures forall i: nat | i < k :: Called(fn, stages, k)[i] == stages[i]
  {
  }

  /** Falling below stage k, then a call of stage k. */
  lemma FallsOn<S>(fn: (nat, Stage<S>) -> Outcome<S>, a: seq<Stage<S>>, b: seq<Stage<S>>, k: nat)
    requires k + 1 < |a| == |b| && Falls(a, b, k) && b[k + 1].queue == a[k + 1].queue
    requires Progresses(b[k], fn(k, b[k]))
    ensures Falls(a, Called(fn, b, k), k + 1)
    ensures fn(k, b[k]).consumed > 0 ==> LexLess(Occupancies(Called(fn, b, k), k + 1), Occupancies(a, k + 1))
  {
    var c := Called(fn, b, k);
    CalledFrame(fn, b, k);
    OccupanciesSame(b, c, k);
    hide LexLess;
    if LexLess(Occupancies(b, k), Occupancies(a, k)) || fn(k, b[k]).consumed > 0 {
      LexAppend(Occupancies(c, k), Occupancies(a, k), |c[k].queue|, |a[k].queue|);
    }
  }

  lemma LastExtends<S(!new)>(fn: (nat, Stage<S>) -> Outcome<S>, ok: (nat, Stage<S>) -> bool, stages: seq<Stage<S>>,
                             last: seq<Stage<S>>, k: nat)
    requires k + 1 < |stages| && LastCalled(fn, ok, stages, last, k) && ok(k, stages[k])
    requires k == 0 ==> |stages[0].queue| < stages[0].inputSize
    ensures LastCalled(fn, ok, Called(fn, stages, k), last + [stages[k]], k + 1)
  {
  }

  lemma FallsTwice<S>(a: seq<Stage<S>>, b: seq<Stage<S>>, c: seq<Stage<S>>, k: nat)
    requires k < |a| == |b| == |c| && Falls(a, b, k) && Falls(b, c, k)
    ensures Falls(a, c, k)
  {
    hide LexLess;
    if LexLess(Occupancies(b, k), Occupancies(a, k)) && LexLess(Occupancies(c, k), Occupancies(b, k)) {
      LexTransitive(Occupancies(c, k), Occupancies(b, k), Occupancies(a, k));
    }
  }

  // ---- the composition of the stages ----

  /** Every stage is in an acceptable state, and has heard what its queue held at first and what the
      stage before it made. */
  ghost predicate Joined<S>(stages: seq<Stage<S>>, first: seq<seq<real>>, ok: (nat, Stage<S>) -> bool) {
    && |stages| == |first|
    && (forall i: nat | i + 1 < |stages| :: ok(i, stages[i]))
    && (forall i: nat | i + 1 < |stages| :: stages[i + 1].heard == first[i + 1] + stages[i].made)
  }

  lemma CalledJoined<S(!new)>(fn: (nat, Stage<S>) -> Outcome<S>, ok: (nat, Stage<S>) -> bool, stages: seq<Stage<S>>,
                              first: seq<seq<real>>, k: nat)
    requires Joined(stages, first, ok) && Lively(fn, ok) && k + 1 < |stages|
    ensures Joined(Called(fn, stages, k), first, ok)
  {
    var o, r := fn(k, stages[k]), Called(fn, stages, k);
    forall i: nat | i + 1 < |r| ensures ok(i, r[i]) && r[i + 1].heard == first[i + 1] + r[i].made {
      assert ok(i, stages[i]) && ok(k, stages[k]);
      if i == k {
        assert (first[k + 1] + stages[k].made) + o.out == first[k + 1] + (stages[k].made + o.out);
      } else if i == k + 1 {
        assert ok(i, stages[i].Given(o.out));
      }
    }
  }

  lemma FirstGiven<S(!new)>(fn: (nat, Stage<S>) -> Outcome<S>, ok: (nat, Stage<S>) -> bool, stages: seq<Stage<S>>,
                            first: seq<seq<real>>, more: seq<real>)
    requires Joined(stages, first, ok) && Lively(fn, ok) && |stages| > 0
    ensures Joined(stages[0 := stages[0].Given(more)], first, ok)
  {
    var r := stages[0 := stages[0].Given(more)];
    forall i: nat | i + 1 < |r| ensures ok(i, r[i]) && r[i + 1].heard == first[i + 1] + r[i].made {
      assert ok(i, stages[i]);
    }
  }

  /** What stage i makes in one go of all that it hears. */
  ghost predicate Realizes<S(!new)>(ok: (nat, Stage<S>) -> bool, one: (nat, seq<real>) -> seq<real>) {
    forall i: nat, st: Stage<S> | ok(i, st) :: st.made <= one(i, st.heard)
  }

  /** Hearing more only adds to it. */
  ghost predicate Steady(one: (nat, seq<real>) -> seq<real>) {
    forall i: nat, x: seq<real>, y: seq<real> | x <= y :: one(i, x) <= one(i, y)
  }

  /** The first k stages in one go. */
  ghost function Through(one: (nat, seq<real>) -> seq<real>, first: seq<seq<real>>, x: seq<real>, k: nat): seq<real>
    requires k < |first|
  {
    if k == 0 then x else first[k] + one(k - 1, Through(one, first, x, k - 1))
  }

  /** Whatever was done to the chain, what stage k has heard begins the composition of the stages
      before it, applied to all that the first one heard. */
  lemma {:induction false} HeardIsThrough<S(!new)>(ok: (nat, Stage<S>) -> bool, one: (nat, seq<real>) -> seq<real>,
                                                   stages: seq<Stage<S>>, first: seq<seq<real>>, k: nat)
    requires Joined(stages, first, ok) && Realizes(ok, one) && Steady(one) && k < |stages|
    ensures stages[k].heard <= Through(one, first, stages[0].heard, k)
  {
    if k > 0 {
      HeardIsThrough(ok, one, stages, first, k - 1);
      var x, y := stages[k - 1].heard, Through(one, first, stages[0].heard, k - 1);
      assert ok(k - 1, stages[k - 1]);
      assert stages[k - 1].made <= one(k - 1, x) <= one(k - 1, y);
      assert stages[k].heard == first[k] + stages[k - 1].made;
    }
  }

  /** A stage whose call would take nothing has made all that it can of what it has heard. */
  ghost predicate Exhausts<S(!new)>(fn: (nat, Stage<S>) -> Outcome<S>, ok: (nat, Stage<S>) -> bool,
                                    one: (nat, seq<real>) -> seq<real>) {
    forall i: nat, st: Stage<S> {:trigger fn(i, st)} | ok(i, st) && fn(i, st).consumed == 0 ::
      st.made == one(i, st.heard)
  }

  /** When no call would take anything, nothing of the composition is missing. */
  lemma {:induction false} IdleIsThrough<S(!new)>(fn: (nat, Stage<S>) -> Outcome<S>, ok: (nat, Stage<S>) -> bool,
                                                  one: (nat, seq<real>) -> seq<real>, stages: seq<Stage<S>>,
                                                  first: seq<seq<real>>, k: nat)
    requires Joined(stages, first, ok) && Exhausts(fn, ok, one) && k < |stages|
    requires forall i: nat | i < k :: fn(i, stages[i]).consumed == 0
    ensures stages[k].heard == Through(one, first, stages[0].heard, k)
  {
    if k > 0 {
      IdleIsThrough(fn, ok, one, stages, first, k - 1);
      assert ok(k - 1, stages[k - 1]) && fn(k - 1, stages[k - 1]).consumed == 0;
      assert stages[k].heard == first[k] + stages[k - 1].made;
    }
  }

  // ---- the chain ----

  class Pipeline<S(!new)> {
    /** All the stages and, after them, the output queue. */
    var stages: seq<Stage<S>>
    var samplesIn: int
    var samplesOut: int
    var flushing: bool
    const ioRatio: real
    const fn: (nat, Stage<S>) -> Outcome<S>
    ghost const ok: (nat, Stage<S>) -> bool
    /** What the queues held at first, the samples taken in, the zeros put behind them, and the
        samples handed out. */
    ghost const first: seq<seq<real>>
    ghost var taken: seq<real>
    ghost var pad: nat
    ghost var given: seq<real>

    ghost predicate Valid()
      reads this
    {
      && |stages| >= 1 && ioRatio > 0.0
      && Lively(fn, ok) && (flushing ==> Productive(fn, ok)) && Joined(stages, first, ok)
      && stages[0].heard == first[0] + taken + Zeros(pad)
      && stages[|stages| - 1].heard == given + stages[|stages| - 1].queue
      && (if flushing then
            if Owed() >= 0 then -samplesOut == Owed() else samplesOut >= 0
          else
            pad == 0 && samplesIn == |taken| && samplesOut == |given|)
    }

    /** What the input is worth, less what was handed out. */
    ghost function Owed(): int
      reads this
      requires ioRatio > 0.0
    {
      Due(ioRatio, |taken|) - |given|
    }

    constructor (stages: seq<Stage<S>>, ioRatio: real, fn: (nat, Stage<S>) -> Outcome<S>,
                 ghost ok: (nat, Stage<S>) -> bool)
      requires |stages| >= 1 && ioRatio > 0.0 && Lively(fn, ok)
      requires forall i: nat | i < |stages| :: stages[i].heard == stages[i].queue && stages[i].made == []
      requires forall i: nat | i + 1 < |stages| :: ok(i, stages[i])
      ensures Valid() && this.stages == stages && this.fn == fn && this.ok == ok && this.ioRatio == ioRatio
      ensures !flushing && taken == given == []
      ensures |first| == |stages| && forall i: nat | i < |stages| :: first[i] == stages[i].queue
    {
      this.stages, this.ioRatio, this.fn, this.ok := stages, ioRatio, fn, ok;
      samplesIn, samplesOut, flushing := 0, 0, false;
      first := seq(|stages|, i requires 0 <= i < |stages| => stages[i].queue);
      taken, pad, given := [], 0, [];
      new;
      assert first[0] + [] + Zeros(0) == first[0];
      assert [] + stages[|stages| - 1].queue == stages[|stages| - 1].queue;
    }

    /** stage->fn(stage, &stage[1].fifo). */
    method CallStage(k: nat)
      requires Valid() && k + 1 < |stages|
      modifies this`stages
      ensures Valid() && stages == Called(fn, old(stages), k)
    {
      CalledJoined(fn, ok, stages, first, k);
      var st := stages[k];
      var o := fn(k, st);
      assert ok(k, st);
      var next := stages[k + 1];
      stages := stages[k := Stage(st.queue[o.consumed..], o.inputSize, o.own, st.heard, st.made + o.out)];
      stages := stages[k + 1 := next.(queue := next.queue + o.out, heard := next.heard + o.out)];
      assert given + (next.queue + o.out) == (given + next.queue) + o.out;
    }

    /** Line 506. */
    method PadInput(want: nat)
      requires Valid() && flushing && |stages| > 1
      modifies this`stages, this`pad
      ensures Valid() && stages == old(stages)[0 := old(stages)[0].Given(Zeros(want))]
    {
      FirstGiven(fn, ok, stages, first, Zeros(want));
      stages := stages[0 := stages[0].Given(Zeros(want))];
      ZerosSum(pad, want);
      assert (first[0] + taken + Zeros(pad)) + Zeros(want) == first[0] + taken + (Zeros(pad) + Zeros(want));
      pad := pad + want;
    }

    /** stage_process for stage k, lines 498-513; stage 0 is the input.  The stage is called once, on
        what it held and what has come into its queue, whether or not its input has run short. */
    method StageProcess(k: nat) returns (done: bool, ghost held: Stage<S>, ghost last: seq<Stage<S>>)
      requires Valid() && k + 1 < |stages|
      modifies this`stages, this`pad
      ensures Valid() && Frame(old(stages), stages, k)
      ensures Fed(old(stages)[k], held) && stages[k] == held.After(fn(k, held))
      ensures stages[k + 1] == old(stages)[k + 1].Given(fn(k, held).out)
      ensures done ==> LastCalled(fn, ok, stages, last, k + 1)
      ensures !done ==> stages[k].Consumed() > old(stages)[k].Consumed()
      ensures done ==> !flushing && Starved(stages, k + 1)
      ensures !flushing ==> Falls(old(stages), stages, k + 1)
      ensures !flushing && !done ==> LexLess(Occupancies(stages, k + 1), Occupancies(old(stages), k + 1))
      ensures flushing ==> |stages[k + 1].queue| > |old(stages)[k + 1].queue|
      decreases k, 2
    {
      hide LexLess, Occupancies, LastCalled;
      done, last := FillQueue(k);
      ghost var mid := stages;
      held := mid[k];
      if done {
        LastExtends(fn, ok, mid, last, k);
      }
      last := last + [held];
      CalledFrame(fn, mid, k);
      assert Progresses(mid[k], fn(k, mid[k]));
      if !flushing {
        FallsOn(fn, old(stages), mid, k);
      }
      CallStage(k);
      done := done && |stages[k].queue| < stages[k].inputSize;
    }

    /** The loop of lines 503-510. */
    method FillQueue(k: nat) returns (done: bool, ghost last: seq<Stage<S>>)
      requires Valid() && k + 1 < |stages|
      modifies this`stages, this`pad
      ensures Valid() && |stages| == |old(stages)|
      ensures forall i: nat | k < i < |stages| :: stages[i] == old(stages)[i]
      ensures Fed(old(stages)[k], stages[k])
      ensures !done ==> |stages[k].queue| >= stages[k].inputSize
      ensures done ==> !flushing && Starved(stages, k) && LastCalled(fn, ok, stages, last, k)
      ensures done && k == 0 ==> |stages[0].queue| < stages[0].inputSize
      ensures flushing && k == 0 ==> |stages[0].queue| == Max(|old(stages)[0].queue|, stages[0].inputSize)
      ensures !flushing ==> Falls(old(stages), stages, k)
      decreases k, 1
    {
      hide LexLess, Occupancies;
      done, last := false, [];
      FedNothing(stages[k]);
      AllGrounded(Occupancies(stages, k));
      ghost var o: ORDINAL :| Grounded#[o](Occupancies(stages, k));
      while !done && |stages[k].queue| < stages[k].inputSize
        invariant Valid() && |stages| == |old(stages)|
        invariant forall i: nat | k < i < |stages| :: stages[i] == old(stages)[i]
        invariant Fed(old(stages)[k], stages[k])
        invariant done ==> !flushing && Starved(stages, k) && LastCalled(fn, ok, stages, last, k)
        invariant done && k == 0 ==> |stages[0].queue| < stages[0].inputSize
        invariant flushing && k == 0 ==>
                    stages == old(stages) || |stages[0].queue| == stages[0].inputSize > |old(stages)[0].queue|
        invariant !flushing ==> Falls(old(stages), stages, k)
        invariant !flushing && !done ==> Grounded#[o](Occupancies(stages, k))
        decreases !done, o, stages[k].inputSize - |stages[k].queue|
      {
        ghost var before := stages;
        done, last, o := FillOnce(k, o);
        FedTwice(old(stages)[k], before[k], stages[k]);
        if !flushing {
          FallsTwice(old(stages), before, stages, k);
        }
      }
    }

    method FillOnce(k: nat, ghost o: ORDINAL) returns (done: bool, ghost last: seq<Stage<S>>, ghost o': ORDINAL)
      requires Valid() && k + 1 < |stages| && |stages[k].queue| < stages[k].inputSize
      requires !flushing ==> Grounded#[o](Occupancies(stages, k))
      modifies this`stages, this`pad
      ensures Valid() && |stages| == |old(stages)|
      ensures forall i: nat | k < i < |stages| :: stages[i] == old(stages)[i]
      ensures Fed(old(stages)[k], stages[k])
      ensures done ==> !flushing && Starved(stages, k) && LastCalled(fn, ok, stages, last, k)
      ensures done && k == 0 ==> stages == old(stages)
      ensures flushing && k == 0 ==> |stages[0].queue| == stages[0].inputSize
      ensures !flushing ==> Falls(old(stages), stages, k)
      ensures !flushing && !done ==> o' < o && Grounded#[o'](Occupancies(stages, k))
      ensures flushing ==> o' == o && |stages[k].queue| > |old(stages)[k].queue|
      decreases k, 0
    {
      hide LexLess;
      o', last := o, [];
      FedNothing(stages[k]);
      if k == 0 {
        if flushing {
          FedBy(stages[0], Zeros(stages[0].inputSize - |stages[0].queue|));
          PadInput(stages[0].inputSize - |stages[0].queue|);
          done := false;
        } else {
          done := true;
        }
      } else {
        ghost var held;
        done, held, last := StageProcess(k - 1);
        if !flushing && !done {
          o' := Descend(Occupancies(old(stages), k), Occupancies(stages, k), o);
        }
      }
    }

    /** _soxr_process, lines 515-523: until enough samples are out or the input runs short.  Only a
        chain without stages has the output queue as its input. */
    method Process(olen: nat) returns (ghost last: seq<Stage<S>>)
      requires Valid()
      modifies this`stages, this`pad
      ensures Valid() && |stages| == |old(stages)|
      ensures Fed(old(stages)[|stages| - 1], stages[|stages| - 1])
      ensures var n := Asked(flushing, samplesOut, olen);
              && (|stages[|stages| - 1].queue| >= n || |stages| == 1 || (!flushing && Starved(stages, |stages| - 1)))
              && (|stages| == 1 || |old(stages)[|stages| - 1].queue| >= n ==> stages == old(stages))
              && (|stages| > 1 && |stages[|stages| - 1].queue| < n ==>
                    LastCalled(fn, ok, stages, last, |stages| - 1))
    {
      hide LexLess, Occupancies, LastCalled, Fed, Falls;
      var num, n := |stages| - 1, Asked(flushing, samplesOut, olen);
      var done := false;
      last := [];
      AllGrounded(Occupancies(stages, num));
      ghost var o: ORDINAL :| Grounded#[o](Occupancies(stages, num));
      FedNothing(stages[num]);
      while !done && |stages[num].queue| < n
        invariant Valid() && |stages| == num + 1
        invariant Fed(old(stages)[num], stages[num])
        invariant done ==> num == 0 || (!flushing && Starved(stages, num) && LastCalled(fn, ok, stages, last, num))
        invariant num == 0 || |old(stages)[num].queue| >= n ==> stages == old(stages)
        invariant !flushing && !done ==> Grounded#[o](Occupancies(stages, num))
        decreases !done, o, n - |stages[num].queue|
      {
        if num == 0 {
          done := true;
        } else {
          ghost var before := stages;
          ghost var held;
          done, held, last := StageProcess(num - 1);
          FedTwice(old(stages)[num], before[num], stages[num]);
          if !flushing && !done {
            o := Descend(Occupancies(before, num), Occupancies(stages, num), o);
          }
        }
      }
    }

    // ---- feeding and reading ----

    /** _soxr_input, lines 525-531. */
    method Input(samples: seq<real>)
      requires Valid()
      modifies this`stages, this`samplesIn, this`taken, this`given
      ensures Valid() && given == old(given)
      ensures flushing ==> stages == old(stages) && taken == old(taken)
      ensures !flushing ==> stages == old(stages)[0 := old(stages)[0].Given(samples)] && taken == old(taken) + samples
    {
      if flushing {
        return;
      }
      FirstGiven(fn, ok, stages, first, samples);
      samplesIn := samplesIn + |samples|;
      assert (first[0] + taken + Zeros(0)) + samples == first[0] + (taken + samples) + Zeros(0);
      assert given + (stages[0].queue + samples) == (given + stages[0].queue) + samples;
      stages := stages[0 := stages[0].Given(samples)];
      taken := taken + samples;
    }

    /** _soxr_flush, lines 541-547. */
    method Flush()
      requires Valid() && Productive(fn, ok)
      modifies this`samplesIn, this`samplesOut, this`flushing
      ensures Valid() && flushing
      ensures old(flushing) ==> samplesOut == old(samplesOut) && samplesIn == old(samplesIn)
      ensures !old(flushing) ==> samplesOut == old(samplesOut) - Due(ioRatio, |taken|) && samplesIn == 0
    {
      if flushing {
        return;
      }
      samplesOut := samplesOut - Due(ioRatio, samplesIn);
      samplesIn := 0;
      flushing := true;
    }

    /** _soxr_output, lines 533-539; with a negative count the read fails. */
    method Output(n0: nat) returns (n: int, samples: seq<real>)
      requires Valid()
      modifies this`stages, this`samplesOut, this`given
      ensures Valid()
      ensures n == Min(Asked(flushing, old(samplesOut), n0), |old(stages)[|old(stages)| - 1].queue|)
      ensures |samples| == Max(0, n) && given == old(given) + samples && samplesOut == old(samplesOut) + n
      ensures var last := old(stages)[|old(stages)| - 1];
              && samples + last.queue[|samples|..] == last.queue
              && stages == old(stages)[|old(stages)| - 1 := last.(queue := last.queue[|samples|..])]
    {
      var num := |stages| - 1;
      var last := stages[num];
      n := Min(Asked(flushing, samplesOut, n0), |last.queue|);
      samplesOut := samplesOut + n;
      samples := [];
      if n >= 0 {
        samples := last.queue[..n];
      }
      LastRead(stages, last.queue[|samples|..]);
      assert (given + samples) + last.queue[|samples|..] == given + last.queue;
      stages := stages[num := last.(queue := last.queue[|samples|..])];
      given := given + samples;
    }

    lemma LastRead(stages: seq<Stage<S>>, rest: seq<real>)
      requires Joined(stages, first, ok) && |stages| > 0
      ensures Joined(stages[|stages| - 1 := stages[|stages| - 1].(queue := rest)], first, ok)
    {
      var r := stages[|stages| - 1 := stages[|stages| - 1].(queue := rest)];
      forall i: nat | i + 1 < |r| ensures ok(i, r[i]) && r[i + 1].heard == first[i + 1] + r[i].made {
        assert ok(i, stages[i]);
      }
    }

    /** soxr_output_1ch (soxr-sys/src/soxr.c, lines 656-668).  Once flushing, it hands over all that
        is asked for, or all that is still owed if that is less; before, as much as is asked for
        unless every stage has run short of input, and has been called since. */
    method Deliver(flush: bool, len: nat) returns (n: int, samples: seq<real>, ghost last: seq<Stage<S>>)
      requires Valid() && (flush ==> Productive(fn, ok))
      modifies this`stages, this`pad, this`samplesIn, this`samplesOut, this`flushing, this`given
      ensures Valid() && flushing == (old(flushing) || flush) && given == old(given) + samples
      ensures |stages| == |old(stages)| > 1 && flushing ==>
                |given| == Max(|old(given)|, Min(|old(given)| + len, Due(ioRatio, |taken|)))
      ensures !flushing && |stages| == 1 ==> |given| == |old(given)| + Min(len, |old(stages)[0].queue|)
      ensures !flushing && |stages| > 1 ==>
                || |given| == |old(given)| + len
                || (|given| < |old(given)| + len && stages[|stages| - 1].queue == [] && Starved(stages, |stages| - 1)
                    && LastCalled(fn, ok, stages, last, |stages| - 1))
    {
      if flush {
        Flush();
      }
      last := Process(len);
      n, samples := Output(len);
    }

    // ---- what comes out ----

    /** Whatever calls were made, with whatever amounts: what was handed out begins the composition
        of the stages' filters, applied in one go to all the input and the zeros behind it. */
    lemma GivenIsThrough(one: (nat, seq<real>) -> seq<real>)
      requires Valid() && Realizes(ok, one) && Steady(one)
      ensures given <= Through(one, first, first[0] + taken + Zeros(pad), |first| - 1)
      ensures !flushing ==> pad == 0
    {
      HeardIsThrough(ok, one, stages, first, |first| - 1);
    }

    /** And when no stage has anything left to do, that and what still waits are all of it. */
    lemma AllIsThrough(one: (nat, seq<real>) -> seq<real>)
      requires Valid() && Exhausts(fn, ok, one)
      requires forall i: nat | i + 1 < |stages| :: fn(i, stages[i]).consumed == 0
      ensures given + stages[|stages| - 1].queue ==
              Through(one, first, first[0] + taken + Zeros(pad), |first| - 1)
    {
      IdleIsThrough(fn, ok, one, stages, first, |first| - 1);
    }

    /** So it is when a request came back short and each of the last calls left nothing behind. */
    lemma ShortIsThrough(one: (nat, seq<real>) -> seq<real>, last: seq<Stage<S>>)
      requires Valid() && Exhausts(fn, ok, one) && LastCalled(fn, ok, stages, last, |stages| - 1)
      requires forall i: nat | i < |last| :: Finishes(fn, i, last[i])
      ensures given + stages[|stages| - 1].queue ==
              Through(one, first, first[0] + taken + Zeros(pad), |first| - 1)
    {
      forall i: nat | i + 1 < |stages| ensures fn(i, stages[i]).consumed == 0 {
        assert Finishes(fn, i, last[i]);
      }
      AllIsThrough(one);
    }
  }
}
