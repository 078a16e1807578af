/** Promise (livekit-protocol/src/promise.rs): interleaved calls of resolve, result and try_result
    by any number of tasks.  A step goes from one await to the next; resolve is one step, and the
    assignment of the result is two, between which a try_result sees the lock taken. */
module Promise {
  import opened Options
  import Executions

  /** What is promised: any type of values. */
  type Value(==, !new)

  /** Where a call of result stands. */
  datatype Place =
    | Start                   // line 41, about to read the result
    | WantRx                  // line 47, waiting for the mutex of rx
    | HasRx                   // line 48
    | Awaiting                // line 49, the receiver is taken
    | Received(value: Value)  // line 50, waiting for the lock of the result
    | Writing(value: Value)   // line 50, inside that lock
    | Rereading               // line 53
    | Done(value: Value)
    | Failed                  // line 53 found nothing to unwrap
    | Dropped                 // the caller gave up its future

  datatype State = State(
    unsent: bool,             // tx still holds the sender
    unread: bool,             // rx still holds the receiver
    alive: bool,              // the receiver exists
    slot: Option<Value>,      // sent and not received
    holder: Option<nat>,      // who holds the mutex of rx
    result: Option<Value>,
    writing: bool,            // the lock of the result is held for writing
    resolved: Option<Value>,  // with what resolve succeeded
    lost: bool,               // a task was dropped with the receiver, or with what it received
    places: seq<Place>)

  datatype Event = Resolve(value: Value) | Advance(t: nat) | Drop(t: nat)

  ghost predicate Initial(s: State) {
    && s.unsent && s.unread && s.alive && s.slot == None && s.holder == None && s.result == None
    && !s.writing && s.resolved == None && !s.lost
    && forall t: nat | t < |s.places| :: s.places[t] == Start
  }

  predicate CanAdvance(s: State, t: nat) {
    && t < |s.places|
    && match s.places[t]
       case Start => !s.writing
       case WantRx => s.holder == None
       case HasRx => true
       case Awaiting => s.slot.Some?
       case Received(_) => !s.writing
       case Writing(_) => true
       case Rereading => !s.writing
       case Done(_) => false
       case Failed => false
       case Dropped => false
  }

  /** A future can be dropped where it awaits. */
  predicate CanDrop(s: State, t: nat) {
    && t < |s.places|
    && var p := s.places[t];
       p.Start? || p.WantRx? || p.Awaiting? || p.Received? || p.Rereading?
  }

  predicate Can(s: State, e: Event) {
    match e
    case Resolve(_) => true
    case Advance(t) => CanAdvance(s, t)
    case Drop(t) => CanDrop(s, t)
  }

  function Next(s: State, e: Event): State
    requires Can(s, e)
  {
    match e
    case Resolve(v) => AfterResolve(s, v)
    case Advance(t) => AfterAdvance(s, t)
    case Drop(t) => AfterDrop(s, t)
  }

  /** Lines 29-37.  The second time it is an error and changes nothing; a send to a receiver that is
      gone is ignored. */
  function AfterResolve(s: State, v: Value): State {
    if s.unsent then s.(unsent := false, resolved := Some(v), slot := if s.alive then Some(v) else None)
    else s
  }

  function AfterAdvance(s: State, t: nat): State
    requires CanAdvance(s, t)
  {
    match s.places[t]
    case Start =>
      s.(places := s.places[t := if s.result.Some? then Done(s.result.value) else WantRx])
    case WantRx => s.(holder := Some(t), places := s.places[t := HasRx])
    case HasRx =>
      s.(unread := false, places := s.places[t := if s.unread then Awaiting else Rereading])
    case Awaiting => s.(slot := None, alive := false, places := s.places[t := Received(s.slot.value)])
    case Received(v) => s.(writing := true, places := s.places[t := Writing(v)])
    case Writing(v) => s.(result := Some(v), writing := false, holder := None, places := s.places[t := Done(v)])
    case Rereading =>
      s.(holder := None, places := s.places[t := if s.result.Some? then Done(s.result.value) else Failed])
    case _ => s
  }

  function AfterDrop(s: State, t: nat): State
    requires CanDrop(s, t)
  {
    var p := s.places[t];
    s.(places := s.places[t := Dropped],
       holder := if s.holder == Some(t) then None else s.holder,
       lost := s.lost || p.Awaiting? || p.Received?,
       alive := s.alive && !p.Awaiting?,
       slot := if p.Awaiting? then None else s.slot)
  }

  /** Lines 57-59. */
  function TryResult(s: State): Option<Value> {
    if s.writing then None else s.result
  }

  ghost predicate Follows(s: State, s': State) {
    exists e: Event :: Can(s, e) && s' == Next(s, e)
  }

  ghost predicate Execution(run: seq<State>) {
    Executions.Linked(Follows, run)
  }

  // ---- what always holds ----

  /** Inside the mutex of rx. */
  predicate Inside(p: Place) {
    p.HasRx? || p.Awaiting? || p.Received? || p.Writing? || p.Rereading?
  }

  /** With the receiver, or what came of it, in hand. */
  predicate Taker(p: Place) {
    p.Awaiting? || p.Received? || p.Writing?
  }

  ghost predicate TaskOk(s: State, t: nat)
    requires t < |s.places|
  {
    var p := s.places[t];
    && (Inside(p) <==> s.holder == Some(t))
    && (p.Received? || p.Writing? || p.Done? ==> s.resolved == Some(p.value))
    && (Taker(p) || p.Rereading? ==> !s.unread)
    && (Taker(p) ==> s.result == None)
    && (p.Awaiting? ==> s.alive && s.slot == s.resolved)
    && (p.Writing? <==> s.writing && s.holder == Some(t))
    && (p.Failed? ==> s.lost)
  }

  ghost predicate Inv(s: State) {
    && (forall t: nat | t < |s.places| :: TaskOk(s, t))
    && (s.holder.Some? ==> s.holder.value < |s.places|)
    && (s.writing ==> s.holder.Some?)
    && (s.unsent <==> s.resolved == None)
    && (s.slot.Some? ==> s.slot == s.resolved)
    && (s.result.Some? ==> s.result == s.resolved)
    && (s.unread ==> s.alive && s.slot == s.resolved && s.result == None && !s.lost)
    && (s.lost ==> s.result == None && !(s.holder.Some? && Taker(s.places[s.holder.value])))
    && (!s.unread && !s.lost && s.result == None ==> s.holder.Some? && Taker(s.places[s.holder.value]))
  }

  lemma InvInitial(s: State)
    requires Initial(s)
    ensures Inv(s)
  {
  }

  lemma InvResolve(s: State, v: Value)
    requires Inv(s)
    ensures Inv(AfterResolve(s, v))
  {
    var s' := AfterResolve(s, v);
    forall t: nat | t < |s'.places| ensures TaskOk(s', t) {
      assert TaskOk(s, t);
    }
  }

  lemma InvAdvance(s: State, t: nat)
    requires Inv(s) && CanAdvance(s, t)
    ensures Inv(AfterAdvance(s, t))
  {
    var s' := AfterAdvance(s, t);
    assert TaskOk(s, t);
    forall u: nat | u < |s'.places| ensures TaskOk(s', u) {
      assert TaskOk(s, u);
    }
  }

  lemma InvDrop(s: State, t: nat)
    requires Inv(s) && CanDrop(s, t)
    ensures Inv(AfterDrop(s, t))
  {
    var s' := AfterDrop(s, t);
    assert TaskOk(s, t);
    forall u: nat | u < |s'.places| ensures TaskOk(s', u) {
      assert TaskOk(s, u);
    }
  }

  lemma InvNext(s: State, e: Event)
    requires Inv(s) && Can(s, e)
    ensures Inv(Next(s, e))
    ensures s.resolved.Some? ==> Next(s, e).resolved == s.resolved
    ensures s.lost ==> Next(s, e).lost
    ensures Next(s, e).lost ==> s.lost || (e.Drop? && (s.places[e.t].Awaiting? || s.places[e.t].Received?))
  {
    match e
    case Resolve(v) => InvResolve(s, v);
    case Advance(t) => InvAdvance(s, t);
    case Drop(t) => InvDrop(s, t);
  }

  lemma {:induction false} InvAlways(run: seq<State>)
    requires Execution(run) && Initial(run[0])
    ensures Inv(run[|run| - 1])
    ensures forall i: nat | i < |run| && run[i].resolved.Some? :: run[|run| - 1].resolved == run[i].resolved
  {
    hide Inv, Can, Next, Initial;
    if |run| == 1 {
      InvInitial(run[0]);
    } else {
      var k := |run| - 2;
      Executions.Prefix(Follows, run, k + 1);
      InvAlways(run[..k + 1]);
      assert run[..k + 1][k] == run[k] && Follows(run[k], run[k + 1]);
      var e: Event :| Can(run[k], e) && run[k + 1] == Next(run[k], e);
      InvNext(run[k], e);
      forall i: nat | i < |run| && run[i].resolved.Some? ensures run[k + 1].resolved == run[i].resolved {
        if i <= k {
          assert run[..k + 1][i] == run[i];
        }
      }
    }
  }

  // ---- the promise kept ----

  /** In every execution, dropped futures or not: all calls that return, at whatever times i <= j,
      return the value of the one successful resolve, and try_result never shows another. */
  lemma ResultsAgree(run: seq<State>, i: nat, j: nat, t: nat, u: nat)
    requires Execution(run) && Initial(run[0]) && i <= j < |run| && t < |run[i].places| && u < |run[j].places|
    ensures run[i].places[t].Done? ==> run[j].resolved == Some(run[i].places[t].value)
    ensures run[i].places[t].Done? && run[j].places[u].Done? ==> run[i].places[t].value == run[j].places[u].value
    ensures TryResult(run[j]).Some? ==> TryResult(run[j]) == run[j].resolved
    ensures run[i].places[t].Done? && TryResult(run[j]).Some? ==> TryResult(run[j]).value == run[i].places[t].value
  {
    Executions.Prefix(Follows, run, i + 1);
    Executions.Prefix(Follows, run, j + 1);
    InvAlways(run[..i + 1]);
    InvAlways(run[..j + 1]);
    hide Execution, Initial;
    assert run[..i + 1][i] == run[i] && run[..j + 1][i] == run[i] && run[..j + 1][j] == run[j];
    assert TaskOk(run[i], t) && TaskOk(run[j], u);
  }

  ghost predicate SomeDone(s: State) {
    exists t: nat :: t < |s.places| && s.places[t].Done?
  }

  lemma StoredNext(s: State, e: Event)
    requires Inv(s) && Can(s, e) && (s.result.Some? <==> SomeDone(s))
    ensures Next(s, e).result.Some? <==> SomeDone(Next(s, e))
    ensures s.result.Some? ==> Next(s, e).result == s.result
  {
    if e.Advance? {
      WritingFindsNone(s, e.t);
    }
    hide Inv;
    var s' := Next(s, e);
    if SomeDone(s) {
      var t: nat :| t < |s.places| && s.places[t].Done?;
      assert s'.places[t].Done?;
    }
    assert e.Advance? && s'.result.Some? && s.result.None? ==> s'.places[e.t].Done?;
  }

  lemma WritingFindsNone(s: State, t: nat)
    requires Inv(s) && CanAdvance(s, t)
    ensures s.places[t].Writing? ==> s.result == None
  {
    assert TaskOk(s, t);
  }

  lemma {:induction false} StoredAlways(run: seq<State>, i: nat)
    requires Execution(run) && Initial(run[0]) && i < |run|
    ensures run[|run| - 1].result.Some? <==> SomeDone(run[|run| - 1])
    ensures run[i].result.Some? ==> run[|run| - 1].result == run[i].result
  {
    hide Inv, Can, Next, SomeDone;
    if |run| == 1 {
      NoneDone(run[0]);
    } else {
      var k := |run| - 2;
      Executions.Prefix(Follows, run, k + 1);
      InvAlways(run[..k + 1]);
      StoredAlways(run[..k + 1], if i <= k then i else k);
      assert run[..k + 1][k] == run[k] && Follows(run[k], run[k + 1]);
      var e: Event :| Can(run[k], e) && run[k + 1] == Next(run[k], e);
      StoredNext(run[k], e);
    }
  }

  lemma NoneDone(s: State)
    requires Initial(s)
    ensures !SomeDone(s)
  {
  }

  /** In every execution: from the moment that a call returns, try_result shows its value; as long
      as none has returned, or while one is writing the result, it shows nothing. */
  lemma TryResultShows(run: seq<State>, i: nat, j: nat, t: nat)
    requires Execution(run) && Initial(run[0]) && i <= j < |run| && t < |run[i].places|
    ensures run[i].places[t].Done? ==> TryResult(run[j]) == Some(run[i].places[t].value)
    ensures (forall u: nat | u < |run[j].places| :: !run[j].places[u].Done?) ==> TryResult(run[j]) == None
    ensures (exists u: nat :: u < |run[j].places| && run[j].places[u].Writing?) ==> TryResult(run[j]) == None
  {
    Executions.Prefix(Follows, run, i + 1);
    Executions.Prefix(Follows, run, j + 1);
    InvAlways(run[..i + 1]);
    InvAlways(run[..j + 1]);
    StoredAlways(run[..i + 1], i);
    StoredAlways(run[..j + 1], i);
    hide Execution, Initial;
    assert run[..i + 1][i] == run[i] && run[..j + 1][i] == run[i] && run[..j + 1][j] == run[j];
    assert TaskOk(run[i], t);
    forall u: nat | u < |run[j].places| && run[j].places[u].Writing? ensures TryResult(run[j]) == None {
      assert TaskOk(run[j], u);
    }
    if run[i].places[t].Done? {
      var v := run[j].holder;
      assert v.Some? ==> TaskOk(run[j], v.value);
    }
  }

  /** And a call that begins then returns in its first step, whoever holds the mutex. */
  lemma LateCallReturns(run: seq<State>, i: nat, j: nat, t: nat, u: nat)
    requires Execution(run) && Initial(run[0]) && i <= j < |run| && t < |run[i].places| && u < |run[j].places|
    requires run[i].places[t].Done? && run[j].places[u].Start?
    ensures CanAdvance(run[j], u) && AfterAdvance(run[j], u) == run[j].(places := run[j].places[u := run[i].places[t]])
  {
    TryResultShows(run, i, j, t);
    hide Execution, Initial;
  }

  /** The future that has the receiver, or what it received, is dropped. */
  predicate DropsTaker(s: State, e: Event) {
    e.Drop? && e.t < |s.places| && (s.places[e.t].Awaiting? || s.places[e.t].Received?)
  }

  /** A step of the run dropped it. */
  ghost predicate Abandoned(run: seq<State>) {
    exists i: nat, e: Event :: i + 1 < |run| && Can(run[i], e) && run[i + 1] == Next(run[i], e) && DropsTaker(run[i], e)
  }

  lemma LostStep(s: State, e: Event)
    requires Inv(s) && Can(s, e)
    ensures Next(s, e).lost <==> s.lost || DropsTaker(s, e)
  {
    if e.Drop? {
      assert TaskOk(s, e.t);
    }
  }

  lemma {:induction false} LostIff(run: seq<State>)
    requires Execution(run) && Initial(run[0])
    ensures run[|run| - 1].lost <==> Abandoned(run)
  {
    hide Can, Next, Inv, DropsTaker;
    if |run| > 1 {
      var k := |run| - 2;
      Executions.Prefix(Follows, run, k + 1);
      var before := run[..k + 1];
      LostIff(before);
      InvAlways(before);
      assert Follows(run[k], run[k + 1]);
      var e: Event :| Can(run[k], e) && run[k + 1] == Next(run[k], e);
      LostStep(run[k], e);
      if Abandoned(before) {
        var i: nat, d: Event :| i + 1 < |before| && Can(before[i], d) && before[i + 1] == Next(before[i], d)
          && DropsTaker(before[i], d);
        assert run[i + 1] == Next(run[i], d);
      }
      if Abandoned(run) {
        StepOfPrefix(run, k);
      }
    }
  }

  lemma StepOfPrefix(run: seq<State>, k: nat)
    requires |run| == k + 2 && Execution(run) && Abandoned(run) && Inv(run[k])
    ensures Abandoned(run[..k + 1]) || run[k + 1].lost
  {
    hide Can, Next, Inv, DropsTaker;
    var i: nat, d: Event :| i + 1 < |run| && Can(run[i], d) && run[i + 1] == Next(run[i], d) && DropsTaker(run[i], d);
    if i == k {
      LostStep(run[k], d);
    } else {
      var before := run[..k + 1];
      assert Can(before[i], d) && before[i + 1] == Next(before[i], d) && DropsTaker(before[i], d);
    }
  }

  /** In every execution, a call that comes to the last unwrap fails there just when a future was
      dropped while it awaited the receiver or held what it received. */
  lemma UnwrapFailsIffLost(run: seq<State>, t: nat)
    requires Execution(run) && Initial(run[0])
    requires CanAdvance(run[|run| - 1], t) && run[|run| - 1].places[t].Rereading?
    ensures AfterAdvance(run[|run| - 1], t).places[t].Failed? <==> Abandoned(run)
  {
    InvAlways(run);
    LostIff(run);
    assert TaskOk(run[|run| - 1], t);
  }

  /** So in an execution in which no such task is dropped, no call ever fails. */
  lemma NeverFails(run: seq<State>, t: nat)
    requires Execution(run) && Initial(run[0]) && !Abandoned(run) && t < |run[|run| - 1].places|
    ensures !run[|run| - 1].places[t].Failed?
  {
    LostIff(run);
    InvAlways(run);
    assert TaskOk(run[|run| - 1], t);
  }

  /** With any two tasks there is one, for each of the two places: the first is dropped while it awaits
      the receiver, or late, with what it received in hand, and the second finds nothing, although the
      promise is resolved. */
  lemma FailingRun(s: State, v: Value, late: bool) returns (run: seq<State>)
    requires Initial(s) && |s.places| >= 2
    ensures Execution(run) && run[0] == s && |run| == if late then 11 else 10
    ensures var last := run[|run| - 1];
            |last.places| == |s.places| && last.places[1].Failed? && last.resolved == Some(v)
  {
    run := [s];
    run := Extended(run, Advance(0));
    run := Extended(run, Advance(0));
    run := Extended(run, Advance(0));
    if late {
      run := Extended(run, Resolve(v));
      run := Extended(run, Advance(0));
      run := Extended(run, Drop(0));
    } else {
      run := Extended(run, Drop(0));
      run := Extended(run, Resolve(v));
    }
    run := Extended(run, Advance(1));
    run := Extended(run, Advance(1));
    run := Extended(run, Advance(1));
    run := Extended(run, Advance(1));
  }

  lemma Extended(run: seq<State>, e: Event) returns (longer: seq<State>)
    requires Execution(run) && Can(run[|run| - 1], e)
    ensures Execution(longer) && longer == run + [Next(run[|run| - 1], e)]
  {
    longer := run + [Next(run[|run| - 1], e)];
    hide Can, Next;
    assert Follows(run[|run| - 1], longer[|run|]);
    forall i: nat | i + 1 < |longer| ensures Follows(longer[i], longer[i + 1]) {
      if i + 1 < |run| {
        assert Follows(run[i], run[i + 1]);
      }
    }
  }

  predicate Finished(p: Place) {
    p.Done? || p.Failed? || p.Dropped?
  }

  /** Once resolved, as long as some call has not finished, one of them can go on. */
  lemma SomeoneCanAdvance(s: State, t: nat) returns (u: nat)
    requires Inv(s) && s.resolved.Some? && t < |s.places| && !Finished(s.places[t])
    ensures CanAdvance(s, u)
  {
    u := if s.holder.Some? then s.holder.value else t;
    assert TaskOk(s, u);
    assert TaskOk(s, t);
  }

  /** How many steps a call has before it at most. */
  function StepsLeft(p: Place): nat {
    match p
    case Start => 6
    case WantRx => 5
    case HasRx => 4
    case Awaiting => 3
    case Received(_) => 2
    case Writing(_) => 1
    case Rereading => 1
    case _ => 0
  }

  function AllLeft(places: seq<Place>): nat {
    if places == [] then 0 else StepsLeft(places[0]) + AllLeft(places[1..])
  }

  lemma {:induction false} AllLeftReplaced(places: seq<Place>, t: nat, p: Place)
    requires t < |places|
    ensures AllLeft(places[t := p]) == AllLeft(places) - StepsLeft(places[t]) + StepsLeft(p)
    ensures AllLeft(places) >= StepsLeft(places[t])
  {
    if t == 0 {
      assert places[0 := p][1..] == places[1..];
    } else {
      assert places[t := p][1..] == places[1..][t - 1 := p];
      AllLeftReplaced(places[1..], t - 1, p);
    }
  }

  lemma AdvanceNears(s: State, t: nat)
    requires CanAdvance(s, t)
    ensures AllLeft(AfterAdvance(s, t).places) < AllLeft(s.places)
    ensures |AfterAdvance(s, t).places| == |s.places| && AfterAdvance(s, t).resolved == s.resolved
  {
    hide *;
    var p := NextPlace(s, t);
    AllLeftReplaced(s.places, t, p);
  }

  lemma NextPlace(s: State, t: nat) returns (p: Place)
    requires CanAdvance(s, t)
    ensures t < |s.places| && AfterAdvance(s, t).places == s.places[t := p] && AfterAdvance(s, t).resolved == s.resolved
    ensures StepsLeft(p) < StepsLeft(s.places[t])
  {
    p := AfterAdvance(s, t).places[t];
  }

  /** From every state of an execution in which the promise is resolved all calls can finish, in at
      most six steps each; nor can they take more, since every step of a call leaves fewer. */
  lemma {:induction false} AllCanFinish(s: State) returns (run: seq<State>)
    requires Inv(s) && s.resolved.Some?
    ensures Execution(run) && run[0] == s && |run| <= 1 + AllLeft(s.places)
    ensures |run[|run| - 1].places| == |s.places|
    ensures forall p <- run[|run| - 1].places :: Finished(p)
    decreases AllLeft(s.places)
  {
    if t: nat :| t < |s.places| && !Finished(s.places[t]) {
      var u := SomeoneCanAdvance(s, t);
      AdvanceNears(s, u);
      InvNext(s, Advance(u));
      var s' := Next(s, Advance(u));
      assert s' == AfterAdvance(s, u);
      hide Inv, CanAdvance, AfterAdvance;
      var rest := AllCanFinish(s');
      run := [s] + rest;
      Prepended(s, Advance(u), rest);
    } else {
      run := [s];
    }
  }

  lemma Prepended(s: State, e: Event, run: seq<State>)
    requires Can(s, e) && Execution(run) && run[0] == Next(s, e)
    ensures Execution([s] + run)
  {
    var longer := [s] + run;
    hide Can, Next;
    assert Follows(s, run[0]);
    forall i: nat | i + 1 < |longer| ensures Follows(longer[i], longer[i + 1]) {
      if i > 0 {
        assert Follows(run[i - 1], run[i]);
      }
    }
  }
}
