/** The three kinds of stage as Driver sees them: each meets the conditions under which the driver
    comes back, and a chain of them makes the composition of their filters. */
module StageKinds {
  import opened Arith
  import opened BitReversal
  import opened Streams
  import opened Driver
  import HalfBand
  import CubicStage
  import OverlapSave
  import opened OneShots
  import DftFilter

  /** A stage's filter and what it carries from call to call. */
  datatype Kind =
    | Half(coefs: seq<real>)
    | Cubic(step: nat, mult: real, at: nat)
    | Block(filter: OverlapSave.Filter, at: nat, remM: nat)

  /** The set-ups of lines 366-397 and 184-249 of cr.c, with a queue that can hold more than the
      stage must keep, and for a block filter a block of at least L places. */
  ghost predicate Suitable(k: Kind, inputSize: nat) {
    match k
    case Half(c) => 0 < |c| && 4 * |c| < inputSize
    case Cubic(step, _, at) => 0 < step && at < CubicStage.ONE32 && Max(3, CubicStage.Integer(step)) < inputSize
    case Block(f, at, remM) =>
      && f.Sound() && OverlapSave.Whole(f) && at < f.up <= f.Block() && remM < f.down
      && inputSize == OverlapSave.InputSize(f, at)
  }

  /** The same, and every block keeps a value. */
  ghost predicate Fruitful(k: Kind, inputSize: nat) {
    Suitable(k, inputSize) && (k.Block? ==> k.filter.Sound() && k.filter.down <= k.filter.Block())
  }

  /** The stage was set up as k, and its state and outputs are those of the one-shot filter of k on
      what it has heard. */
  ghost predicate Follows(k: Kind, st: Stage<Kind>) {
    match k
    case Half(c) => st.own == k && HalfBand.Tracks(c, st.heard, HalfBand.State(st.queue, st.made))
    case Cubic(step, mult, _) =>
      && st.own.Cubic? && st.own.step == step && st.own.mult == mult && step > 0
      && CubicStage.Tracks(step, mult, st.heard, CubicStage.State(st.queue, st.own.at, st.made))
    case Block(f, at, _) =>
      && st.own.Block? && st.own.filter == f && f.Sound() && at < f.up
      && exists n: nat, c: nat :: OverlapSave.Tracks(f, at, st.heard, BlockState(st), n, c)
  }

  function BlockState(st: Stage<Kind>): OverlapSave.State
    requires st.own.Block?
  {
    OverlapSave.State(st.queue, st.own.at, st.own.remM, st.inputSize, st.made)
  }

  /** Stage i of the chain set up as designs. */
  ghost predicate Kept(designs: seq<Kind>, i: nat, st: Stage<Kind>) {
    i < |designs| && Suitable(st.own, st.inputSize) && Follows(designs[i], st)
  }

  ghost predicate KeptFruitful(designs: seq<Kind>, i: nat, st: Stage<Kind>) {
    Kept(designs, i, st) && Fruitful(st.own, st.inputSize)
  }

  ghost function Keeper(designs: seq<Kind>): (nat, Stage<Kind>) -> bool {
    (i: nat, st: Stage<Kind>) => Kept(designs, i, st)
  }

  ghost function FruitfulKeeper(designs: seq<Kind>): (nat, Stage<Kind>) -> bool {
    (i: nat, st: Stage<Kind>) => KeptFruitful(designs, i, st)
  }

  /** What a stage set up as k makes of the whole stream x; nothing if it could not be set up so. */
  ghost function Shot(k: Kind, x: seq<real>): seq<real> {
    match k
    case Half(c) => if c == [] then [] else Halved(c, x)
    case Cubic(step, mult, _) => if step == 0 then [] else Interpolated(step, mult, x)
    case Block(f, at, _) =>
      if f.Sound() && at < f.up <= f.Block() && OverlapSave.Whole(f) then Filtered(f, at, x) else []
  }

  ghost function Shots(designs: seq<Kind>): (nat, seq<real>) -> seq<real> {
    (i: nat, x: seq<real>) => if i < |designs| then Shot(designs[i], x) else []
  }

  function Call(i: nat, st: Stage<Kind>): Outcome<Kind> {
    match st.own
    case Half(c) =>
      Outcome(2 * HalfBand.NumOut(c, |st.queue|, st.inputSize), HalfBand.Produced(c, st.inputSize, st.queue),
              st.inputSize, st.own)
    case Cubic(step, mult, at) =>
      if step == 0 then Outcome(0, [], st.inputSize, st.own)
      else
        var next := CubicStage.Fired(step, mult, st.inputSize, CubicStage.State(st.queue, at, []));
        Outcome(CubicStage.Integer(CubicStage.EndOf(step, at, |st.queue|, st.inputSize)), next.produced, st.inputSize,
                Cubic(step, mult, next.at))
    case Block(f, at, remM) =>
      if !f.Sound() || at >= f.up || remM >= f.down then Outcome(0, [], st.inputSize, st.own)
      else
        var next := OverlapSave.Fired(f, OverlapSave.State(st.queue, at, remM, st.inputSize, []));
        Outcome(if OverlapSave.Fires(f, at, |st.queue|) then OverlapSave.Consumed(f, at) else 0, next.produced,
                next.inputSize, Block(f, next.at, next.remM))
  }

  lemma HalfProgresses(i: nat, st: Stage<Kind>)
    requires Suitable(st.own, st.inputSize) && st.own.Half?
    ensures Progresses(st, Call(i, st)) && Suitable(Call(i, st).own, Call(i, st).inputSize)
    ensures |st.queue| >= st.inputSize ==> Call(i, st).out != []
  {
    hide HalfBand.FoldedSum, HalfBand.Produced;
    var c, k := st.own.coefs, HalfBand.NumOut(st.own.coefs, |st.queue|, st.inputSize);
    if |st.queue| >= st.inputSize {
      assert k > 0;
    }
    if k == 0 {
      assert HalfBand.Produced(c, st.inputSize, st.queue) == [];
    }
  }

  lemma CubicProgresses(i: nat, st: Stage<Kind>)
    requires Suitable(st.own, st.inputSize) && st.own.Cubic?
    ensures Progresses(st, Call(i, st)) && Suitable(Call(i, st).own, Call(i, st).inputSize)
    ensures |st.queue| >= st.inputSize ==> Call(i, st).out != []
  {
    hide CubicStage.Produced, CubicStage.NumOut, CubicStage.EndOf, CubicStage.Integer, CubicStage.Fraction,
        CubicStage.NumIn;
    var step, at, n := st.own.step, st.own.at, |st.queue|;
    CubicStage.NumInZero(step, n, st.inputSize);
    CubicStage.FirstPlace(step, at, n, st.inputSize);
    CubicStage.AdvanceInside(step, at, n, st.inputSize);
    CubicStage.NumOutStops(step, at, n, st.inputSize);
    CubicStage.WholeAndPart(CubicStage.EndOf(step, at, n, st.inputSize));
    if CubicStage.NumOut(step, at, n, st.inputSize) == 0 {
      assert Call(i, st).out == [];
    }
  }

  lemma BlockProgresses(i: nat, st: Stage<Kind>)
    requires Suitable(st.own, st.inputSize) && st.own.Block?
    ensures Progresses(st, Call(i, st)) && Suitable(Call(i, st).own, Call(i, st).inputSize)
    ensures Fruitful(st.own, st.inputSize) && |st.queue| >= st.inputSize ==> Call(i, st).out != []
  {
    hide OverlapSave.Produced, OverlapSave.Consumed, OverlapSave.NextAt, OverlapSave.NextRem, OverlapSave.InputSize,
      OverlapSave.Fires, OverlapSave.Kept;
    var f, at, remM, n := st.own.filter, st.own.at, st.own.remM, |st.queue|;
    OverlapSave.StepFacts(f, at, remM, n);
    OverlapSave.InputSizeIsLeast(f, at, n);
    TakesSomething(f, at);
    KeepsSomething(f, remM);
  }

  /** A block that fires takes something just when it is longer than the gap before its first
      sample. */
  lemma TakesSomething(f: OverlapSave.Filter, at: nat)
    requires f.Sound() && at < f.up
    ensures OverlapSave.Consumed(f, at) > 0 <==> at < f.Block()
  {
    OverlapSave.CeilLeast(f.Block() - at, f.up, 0);
    PositionSum(f.up, 0, 0);
    hide Position;
  }

  /** It keeps something just when it reaches the next value that decimation keeps. */
  lemma KeepsSomething(f: OverlapSave.Filter, remM: nat)
    requires f.Sound()
    ensures OverlapSave.Kept(f, remM) > 0 <==> remM < f.Block()
  {
    CountIs(f.down, remM, f.Block(), 0);
    PositionSum(f.down, 0, 0);
    hide Position, Count;
  }

  // ---- the state follows the one-shot filter ----

  lemma HalfFollows(i: nat, k: Kind, st: Stage<Kind>)
    requires k.Half? && Follows(k, st) && Suitable(st.own, st.inputSize)
    ensures Follows(k, st.After(Call(i, st)))
  {
    hide HalfBand.Tracks, HalfBand.Produced;
    HalfBand.TracksFire(k.coefs, st.inputSize, st.heard, HalfBand.State(st.queue, st.made));
  }

  lemma CubicFollows(i: nat, k: Kind, st: Stage<Kind>)
    requires k.Cubic? && Follows(k, st) && Suitable(st.own, st.inputSize)
    ensures Follows(k, st.After(Call(i, st)))
  {
    hide CubicStage.Tracks, CubicStage.Produced, CubicStage.EndOf, CubicStage.Integer, CubicStage.Fraction;
    var step, mult, at := k.step, k.mult, st.own.at;
    CubicStage.TracksFire(step, mult, st.inputSize, st.heard, CubicStage.State(st.queue, at, st.made));
    CubicStage.AdvanceInside(step, at, |st.queue|, st.inputSize);
    var out := CubicStage.Produced(step, mult, at, st.inputSize, st.queue);
    assert [] + out == out;
  }

  lemma BlockFollows(i: nat, k: Kind, st: Stage<Kind>)
    requires k.Block? && Follows(k, st) && Suitable(st.own, st.inputSize)
    ensures Follows(k, st.After(Call(i, st)))
  {
    hide OverlapSave.Tracks, OverlapSave.Produced, OverlapSave.Consumed, OverlapSave.NextAt, OverlapSave.NextRem,
      OverlapSave.InputSize, OverlapSave.Fires;
    var f, at, s := k.filter, k.at, BlockState(st);
    var n: nat, c: nat :| OverlapSave.Tracks(f, at, st.heard, s, n, c);
    OverlapSave.StepFacts(f, s.at, s.remM, |s.queue|);
    OverlapSave.TracksFire(f, at, st.heard, s, n, c);
    AfterBlock(i, st);
    if OverlapSave.Fires(f, s.at, |s.queue|) {
      assert OverlapSave.Tracks(f, at, st.heard, OverlapSave.Fired(f, s), n + 1, c + OverlapSave.Consumed(f, s.at));
    }
  }

  lemma AfterBlock(i: nat, st: Stage<Kind>)
    requires st.own.Block? && Suitable(st.own, st.inputSize)
    ensures var r := st.After(Call(i, st));
            && r.own.Block? && r.own.filter == st.own.filter && r.heard == st.heard
            && BlockState(r) == OverlapSave.Fired(st.own.filter, BlockState(st))
  {
    hide OverlapSave.Produced, OverlapSave.Consumed, OverlapSave.NextAt, OverlapSave.NextRem,
      OverlapSave.InputSize, OverlapSave.Fires;
    var f, s := st.own.filter, BlockState(st);
    OverlapSave.StepFacts(f, s.at, s.remM, |s.queue|);
    var out := OverlapSave.Produced(f, s.queue, s.at, s.remM);
    assert [] + out == out && s.produced + [] == s.produced;
    assert s.queue[0..] == s.queue;
  }

  lemma MoreFollows(k: Kind, st: Stage<Kind>, more: seq<real>)
    requires Follows(k, st)
    ensures Follows(k, st.Given(more))
  {
    hide HalfBand.Tracks, CubicStage.Tracks, OverlapSave.Tracks;
    match k
    case Half(c) => HalfBand.TracksArrival(c, st.heard, HalfBand.State(st.queue, st.made), more);
    case Cubic(step, mult, _) =>
      CubicStage.TracksArrival(step, mult, st.heard, CubicStage.State(st.queue, st.own.at, st.made), more);
    case Block(f, at, _) =>
      var n: nat, c: nat :| OverlapSave.Tracks(f, at, st.heard, BlockState(st), n, c);
      OverlapSave.TracksArrival(f, at, st.heard, BlockState(st), n, c, more);
      assert OverlapSave.Tracks(f, at, st.heard + more, BlockState(st.Given(more)), n, c);
  }

  lemma CallFollows(i: nat, k: Kind, st: Stage<Kind>)
    requires Follows(k, st) && Suitable(st.own, st.inputSize)
    ensures Follows(k, st.After(Call(i, st)))
  {
    match k
    case Half(_) => HalfFollows(i, k, st);
    case Cubic(_, _, _) => CubicFollows(i, k, st);
    case Block(_, _, _) => BlockFollows(i, k, st);
  }

  // ---- chains ----

  lemma CallProgresses(i: nat, st: Stage<Kind>)
    requires Suitable(st.own, st.inputSize)
    ensures Progresses(st, Call(i, st)) && Suitable(Call(i, st).own, Call(i, st).inputSize)
    ensures SameFilter(st.own, Call(i, st).own)
    ensures Fruitful(st.own, st.inputSize) && |st.queue| >= st.inputSize ==> Call(i, st).out != []
  {
    hide Call, Suitable, Progresses;
    CallKeepsFilter(i, st);
    match st.own
    case Half(_) => HalfProgresses(i, st);
    case Cubic(_, _, _) => CubicProgresses(i, st);
    case Block(_, _, _) => BlockProgresses(i, st);
  }

  /** A chain of such stages can be driven, and flushed if every block keeps a value. */
  lemma ChainsRun(designs: seq<Kind>)
    ensures Lively(Call, Keeper(designs))
    ensures Lively(Call, FruitfulKeeper(designs))
    ensures Productive(Call, FruitfulKeeper(designs))
  {
    hide Call, Suitable, Progresses, Follows;
    forall i: nat, st: Stage<Kind> | Kept(designs, i, st)
      ensures Progresses(st, Call(i, st)) && Kept(designs, i, st.After(Call(i, st)))
      ensures KeptFruitful(designs, i, st) ==> KeptFruitful(designs, i, st.After(Call(i, st)))
      ensures KeptFruitful(designs, i, st) && |st.queue| >= st.inputSize ==> Call(i, st).out != []
    {
      CallProgresses(i, st);
      CallFollows(i, designs[i], st);
    }
    forall i: nat, st: Stage<Kind>, more: seq<real> | Kept(designs, i, st) ensures Kept(designs, i, st.Given(more)) {
      MoreFollows(designs[i], st, more);
    }
  }

  /** Stages as _soxr_init sets them up, with anything in their queues. */
  lemma StartKept(designs: seq<Kind>, i: nat, st: Stage<Kind>)
    requires i < |designs| && st.own == designs[i] && Suitable(st.own, st.inputSize)
    requires st.heard == st.queue && st.made == []
    requires (st.own.Cubic? ==> st.own.at == 0) && (st.own.Block? ==> st.own.remM == 0)
    ensures Kept(designs, i, st)
  {
    hide OverlapSave.InputSize, OverlapSave.Stride;
    match st.own
    case Half(_) =>
    case Cubic(step, _, _) => PositionSum(step, 0, 0);
    case Block(f, at, _) =>
      PositionSum(f.up, 0, 0);
      PositionSum(f.down, 0, 0);
      PositionSum(f.Block(), 0, 0);
      PositionSum(OverlapSave.Stride(f, at), 0, 0);
      assert OverlapSave.Tracks(f, at, st.heard, BlockState(st), 0, 0);
  }

  lemma ShotMade(k: Kind, st: Stage<Kind>)
    requires Follows(k, st) && Suitable(st.own, st.inputSize)
    ensures st.made <= Shot(k, st.heard)
  {
    hide HalfBand.Tracks, CubicStage.Tracks, OverlapSave.Tracks, Halved, Interpolated, Filtered, OverlapSave.Stride;
    match k
    case Half(c) => HalvedMade(c, st.heard, HalfBand.State(st.queue, st.made));
    case Cubic(step, mult, _) =>
      InterpolatedMade(step, mult, st.heard, CubicStage.State(st.queue, st.own.at, st.made));
    case Block(f, at, _) =>
      var n: nat, c: nat :| OverlapSave.Tracks(f, at, st.heard, BlockState(st), n, c);
      TakesSomething(f, at);
      StridePositive(f, at);
      FilteredMade(f, at, st.heard, BlockState(st), n, c);
  }

  lemma StridePositive(f: OverlapSave.Filter, at: nat)
    requires f.Sound() && at < f.up && OverlapSave.Consumed(f, at) > 0
    ensures OverlapSave.Stride(f, at) > 0
  {
    var d := OverlapSave.Consumed(f, at);
    hide OverlapSave.Consumed;
    OverlapSave.StrideIs(f, at);
    OverlapSave.PositionIs(f.up, d);
    MulLe(f.up, 1, d);
  }

  lemma ShotGrows(k: Kind, x: seq<real>, y: seq<real>)
    requires x <= y
    ensures Shot(k, x) <= Shot(k, y)
  {
    hide Halved, Interpolated, Filtered, OverlapSave.Stride;
    match k
    case Half(c) =>
      if c != [] {
        HalvedGrows(c, x, y);
      }
    case Cubic(step, mult, _) =>
      if step > 0 {
        InterpolatedGrows(step, mult, x, y);
      }
    case Block(f, at, _) =>
      if f.Sound() && at < f.up <= f.Block() && OverlapSave.Whole(f) {
        TakesSomething(f, at);
        StridePositive(f, at);
        FilteredGrows(f, at, x, y);
      }
  }

  /** The stages of a chain realize their one-shot filters. */
  lemma ChainsCompose(designs: seq<Kind>)
    ensures Realizes(Keeper(designs), Shots(designs))
    ensures Realizes(FruitfulKeeper(designs), Shots(designs))
    ensures Steady(Shots(designs))
  {
    hide Follows, Suitable, Shot;
    forall i: nat, st: Stage<Kind> | Kept(designs, i, st) ensures st.made <= Shots(designs)(i, st.heard) {
      ShotMade(designs[i], st);
    }
    forall i: nat, x: seq<real>, y: seq<real> | x <= y ensures Shots(designs)(i, x) <= Shots(designs)(i, y) {
      if i < |designs| {
        ShotGrows(designs[i], x, y);
      }
    }
  }

  /** A stage whose call takes nothing has made all of its one-shot filter. */
  lemma ShotAll(i: nat, k: Kind, st: Stage<Kind>)
    requires Follows(k, st) && Suitable(st.own, st.inputSize) && Call(i, st).consumed == 0
    ensures st.made == Shot(k, st.heard)
  {
    hide HalfBand.Tracks, CubicStage.Tracks, OverlapSave.Tracks, Halved, Interpolated, Filtered, OverlapSave.Stride;
    match k
    case Half(c) => HalvedAll(c, st.inputSize, st.heard, HalfBand.State(st.queue, st.made));
    case Cubic(step, mult, _) => CubicAll(i, step, mult, st);
    case Block(f, at, _) =>
      var n: nat, c: nat :| OverlapSave.Tracks(f, at, st.heard, BlockState(st), n, c);
      TakesSomething(f, at);
      StridePositive(f, at);
      TakesSomething(f, st.own.at);
      hide OverlapSave.Consumed, OverlapSave.Fires;
      FilteredAll(f, at, st.heard, BlockState(st), n, c);
  }

  lemma CubicAll(i: nat, step: nat, mult: real, st: Stage<Kind>)
    requires st.own.Cubic? && st.own.step == step > 0 && st.own.mult == mult
    requires CubicStage.Tracks(step, mult, st.heard, CubicStage.State(st.queue, st.own.at, st.made))
    requires Suitable(st.own, st.inputSize) && Call(i, st).consumed == 0
    ensures st.made == Interpolated(step, mult, st.heard)
  {
    var s := CubicStage.State(st.queue, st.own.at, st.made);
    CubicProgresses(i, st);
    hide CubicStage.Tracks, Interpolated, CubicStage.NumIn, CubicStage.NumOut, CubicStage.Integer, CubicStage.EndOf,
      CubicStage.Produced, CubicStage.Fraction;
    CubicStage.NumInZero(step, |s.queue|, st.inputSize);
    CubicStage.FirstPlace(step, s.at, |s.queue|, st.inputSize);
    CubicStage.NumOutStops(step, s.at, |s.queue|, st.inputSize);
    assert s.queue[0..] == s.queue;
    assert s.produced + CubicStage.Produced(step, mult, s.at, st.inputSize, s.queue) == s.produced;
    InterpolatedAll(step, mult, st.inputSize, st.heard, s);
  }

  lemma ChainsExhaust(designs: seq<Kind>)
    ensures Exhausts(Call, Keeper(designs), Shots(designs))
    ensures Exhausts(Call, FruitfulKeeper(designs), Shots(designs))
  {
    hide Follows, Suitable, Shot, Call;
    forall i: nat, st: Stage<Kind> | Kept(designs, i, st) && Call(i, st).consumed == 0
      ensures st.made == Shots(designs)(i, st.heard)
    {
      ShotAll(i, designs[i], st);
    }
  }

  ghost predicate SameFilter(a: Kind, b: Kind) {
    a.Block? == b.Block? && (a.Block? ==> a.filter == b.filter)
  }

  lemma CallKeepsFilter(i: nat, st: Stage<Kind>)
    ensures SameFilter(st.own, Call(i, st).own)
  {
    hide OverlapSave.Fired, CubicStage.Fired, HalfBand.Produced;
  }

  /** So for any number of half-band, cubic and block-filter stages in any order, and whatever was
      fed, asked for and flushed: the samples handed out begin the composition of the stages'
      filters, each applied in one go to the zeros it was preloaded with and all that the one before
      it makes of the whole input; and once no stage's call would take anything more, nothing of it
      is missing. */
  lemma ChainOutput(p: Pipeline<Kind>, designs: seq<Kind>)
    requires p.Valid() && (p.ok == Keeper(designs) || p.ok == FruitfulKeeper(designs))
    ensures p.given <= Through(Shots(designs), p.first, p.first[0] + p.taken + Zeros(p.pad), |p.first| - 1)
    ensures !p.flushing ==> p.pad == 0
    ensures p.fn == Call && (forall i: nat | i + 1 < |p.stages| :: Call(i, p.stages[i]).consumed == 0) ==>
              p.given + p.stages[|p.stages| - 1].queue ==
              Through(Shots(designs), p.first, p.first[0] + p.taken + Zeros(p.pad), |p.first| - 1)
  {
    ChainsCompose(designs);
    ChainsExhaust(designs);
    hide Keeper, FruitfulKeeper, Shots, Through, Call;
    p.GivenIsThrough(Shots(designs));
    if p.fn == Call && (forall i: nat | i + 1 < |p.stages| :: Call(i, p.stages[i]).consumed == 0) {
      p.AllIsThrough(Shots(designs));
    }
  }

  // ---- as much as the input allows ----

  /** What a stage never takes off its queue. */
  function KeepsBack(k: Kind): nat {
    match k
    case Half(c) => 4 * |c|
    case Cubic(step, _, _) => Max(3, CubicStage.Integer(step))
    case Block(_, _, _) => 0
  }

  /** A call that is not cut short by input_size; a block filter makes one block at a time. */
  predicate InOneCall(st: Stage<Kind>) {
    st.own.Block? || |st.queue| <= st.inputSize + KeepsBack(st.own)
  }

  /** After such a call, with less than input_size items left, another would take nothing. */
  lemma OneCallFinishes(designs: seq<Kind>, i: nat, st: Stage<Kind>)
    requires Kept(designs, i, st) && InOneCall(st)
    requires |st.After(Call(i, st)).queue| < st.After(Call(i, st)).inputSize
    ensures Finishes(Call, i, st)
  {
    hide Call, Follows;
    CallProgresses(i, st);
    CallKeepsFilter(i, st);
    match st.own
    case Half(_) => HalfFinishes(i, st);
    case Cubic(_, _, _) => CubicFinishes(i, st);
    case Block(_, _, _) => BlockFinishes(i, st.After(Call(i, st)));
  }

  lemma HalfFinishes(i: nat, st: Stage<Kind>)
    requires Suitable(st.own, st.inputSize) && st.own.Half? && InOneCall(st)
    ensures Call(i, st.After(Call(i, st))).consumed == 0
  {
    hide HalfBand.Produced;
  }

  /** And a longer queue does leave something to a half-band stage. */
  lemma CutShort(i: nat, st: Stage<Kind>)
    requires Suitable(st.own, st.inputSize) && st.own.Half?
    requires |st.queue| > st.inputSize + 4 * |st.own.coefs| + 1
    ensures !InOneCall(st) && !Finishes(Call, i, st)
  {
    hide HalfBand.Produced;
  }

  lemma CubicFinishes(i: nat, st: Stage<Kind>)
    requires Suitable(st.own, st.inputSize) && st.own.Cubic? && InOneCall(st)
    ensures Call(i, st.After(Call(i, st))).consumed == 0
  {
    hide CubicStage.Produced, CubicStage.NumOut, CubicStage.EndOf, CubicStage.Integer, CubicStage.Fraction;
    var step, at, n := st.own.step, st.own.at, |st.queue|;
    var end := CubicStage.EndOf(step, at, n, st.inputSize);
    CubicStage.AdvanceInside(step, at, n, st.inputSize);
    CubicStage.NumOutStops(step, at, n, st.inputSize);
    CubicStage.WholeAndPart(end);
    var left := n - CubicStage.Integer(end);
    CubicStage.NumInZero(step, left, st.inputSize);
    CubicStage.FirstPlace(step, CubicStage.Fraction(end), left, st.inputSize);
  }

  lemma BlockFinishes(i: nat, st: Stage<Kind>)
    requires Suitable(st.own, st.inputSize) && st.own.Block? && |st.queue| < st.inputSize
    ensures Call(i, st).consumed == 0
  {
    hide OverlapSave.Fired, OverlapSave.InputSize, OverlapSave.Fires, OverlapSave.Consumed;
    OverlapSave.InputSizeIsLeast(st.own.filter, st.own.at, |st.queue|);
  }

  /** No last call was cut short by input_size; so it always is with a single stage, or with block
      filters behind the first. */
  ghost predicate NoneCut(designs: seq<Kind>, last: seq<Stage<Kind>>) {
    (forall st <- last :: InOneCall(st)) || (forall i: nat | 0 < i < |designs| :: designs[i].Block?)
  }

  /** Before the flush: what was handed out is as much of the composition of the filters as was asked
      for and the input allows, when no stage held more than input_size beyond what it keeps back at
      its last call. */
  method Request(p: Pipeline<Kind>, designs: seq<Kind>, len: nat)
    returns (n: int, samples: seq<real>, ghost last: seq<Stage<Kind>>)
    requires p.Valid() && p.fn == Call && (p.ok == Keeper(designs) || p.ok == FruitfulKeeper(designs))
    requires !p.flushing && |p.stages| > 1
    modifies p`stages, p`pad, p`samplesIn, p`samplesOut, p`flushing, p`given
    ensures p.Valid() && !p.flushing && p.given == old(p.given) + samples && p.taken == old(p.taken)
    ensures var whole := Through(Shots(designs), p.first, p.first[0] + p.taken, |p.first| - 1);
            && p.given <= whole
            && (NoneCut(designs, last) ==> |p.given| == Min(|old(p.given)| + len, |whole|))
  {
    hide Through, Shots, Keeper, FruitfulKeeper, Call, NoneCut;
    n, samples, last := p.Deliver(false, len);
    ChainOutput(p, designs);
    WithoutPad(p);
    if |p.given| < |old(p.given)| + len && NoneCut(designs, last) {
      LastFinish(p, designs, last);
      ChainsExhaust(designs);
      p.ShortIsThrough(Shots(designs), last);
    }
  }

  lemma WithoutPad(p: Pipeline<Kind>)
    requires p.Valid() && !p.flushing
    ensures |p.first| > 0 && p.first[0] + p.taken + Zeros(p.pad) == p.first[0] + p.taken
  {
    assert p.pad == 0 && Zeros(0) == [];
  }

  lemma LastFinish(p: Pipeline<Kind>, designs: seq<Kind>, last: seq<Stage<Kind>>)
    requires p.Valid() && p.fn == Call && (p.ok == Keeper(designs) || p.ok == FruitfulKeeper(designs))
    requires LastCalled(p.fn, p.ok, p.stages, last, |p.stages| - 1) && Starved(p.stages, |p.stages| - 1)
    requires NoneCut(designs, last)
    ensures forall i: nat | i < |last| :: Finishes(Call, i, last[i])
  {
    hide Call, Suitable, Follows, Finishes;
    forall i: nat | i < |last| ensures Finishes(Call, i, last[i]) {
      assert p.ok(i, last[i]);
      assert Kept(designs, i, last[i]);
      if i > 0 && !(forall st <- last :: InOneCall(st)) {
        BlockStays(designs, i, last[i]);
      }
      OneCallFinishes(designs, i, last[i]);
    }
  }

  lemma BlockStays(designs: seq<Kind>, i: nat, st: Stage<Kind>)
    requires Kept(designs, i, st) && designs[i].Block?
    ensures st.own.Block?
  {
  }

  // ---- designed filters ----

  /** Block filters with lengths as set_dft_length chooses them are fruitful: with the limits of
      soxr.h (lines 259-260) a block is never shorter than an L or M up to 96, nor than one up to
      three eighths of the number of taps. */
  lemma DesignedIsFruitful(f: OverlapSave.Filter, at: nat, remM: nat, least: nat, large: nat)
    requires f.taps != [] && f.size == DftFilter.DftLength(|f.taps|, least, large) && least >= 8 && large >= 8
    requires OverlapSave.Whole(f) && at < f.up && remM < f.down
    requires f.up <= 96 || 8 * f.up <= 3 * |f.taps|
    requires f.down <= 96 || 8 * f.down <= 3 * |f.taps|
    ensures f.Sound() && Fruitful(Block(f, at, remM), OverlapSave.InputSize(f, at))
  {
    DftFilter.LongBlock(|f.taps|, least, large);
    DftFilter.BlockHolds(|f.taps|, least, large);
    hide DftFilter.DftLength, OverlapSave.InputSize, OverlapSave.Whole, Suitable, Fruitful;
    FruitfulWhen(f, at, remM);
  }

  lemma FruitfulWhen(f: OverlapSave.Filter, at: nat, remM: nat)
    requires f.Sound() && OverlapSave.Whole(f) && at < f.up <= f.Block() && remM < f.down <= f.Block()
    ensures Fruitful(Block(f, at, remM), OverlapSave.InputSize(f, at))
  {
    hide OverlapSave.InputSize, OverlapSave.Whole;
  }

  /** With linear phase the taps themselves see to it, for every L that is a power of two. */
  lemma LinearPhaseIsFruitful(f: OverlapSave.Filter, n: nat, p: nat, least: nat, large: nat)
    requires n > 1 && p > 0 && f.up == Pow2(p) && 1 <= f.down <= f.up
    requires |f.taps| == DftFilter.RoundTaps(n, DftFilter.Modulus(f.up, true, true, true))
    requires f.size == DftFilter.DftLength(|f.taps|, least, large)
    ensures f.Sound() && Fruitful(Block(f, 0, 0), OverlapSave.InputSize(f, 0))
  {
    var q := DftFilter.LinearPhaseInStep(n, p, f, least, large);
    hide *;
    WholeBlock(f);
    WholeIs(f);
    FruitfulWhen(f, 0, 0);
  }

  lemma WholeBlock(f: OverlapSave.Filter)
    requires f.Sound() && Position(f.up, OverlapSave.Consumed(f, 0)) == f.Block()
    ensures f.up <= f.Block()
  {
    var c := OverlapSave.Consumed(f, 0);
    hide OverlapSave.Consumed;
    assert c > 0;
    MulLe(f.up, 1, c);
  }

  lemma WholeIs(f: OverlapSave.Filter)
    requires f.up > 0 && f.size % f.up == 0
    ensures OverlapSave.Whole(f)
  {
  }
}
