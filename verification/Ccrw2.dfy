/** The writers-preference lock (soxr-sys/src/ccrw2.h, lines 17-47), as interleaved steps of any
    number of threads.  Each lock is a binary semaphore: whoever comes may release it.  A count is
    changed and tested in one step, under the mutex that guards it. */
module Ccrw2 {
  import Executions

  /** Where a thread stands.  Idle, Reading and Writing are outside the macros; in the others the
      thread is about to do what the name says. */
  datatype Place =
    | Idle
    // become_reader
    | ReaderSetR | ReaderSetM1 | ReaderCount | ReaderSetW | ReaderFreeM1 | ReaderFreeR | ReaderFreeM3
    | Reading
    // cease_reading
    | CeaseCount | CeaseFreeW | CeaseFreeM1
    // become_writer
    | WriterCount | WriterSetR | WriterFreeM2 | WriterSetW
    | Writing
    // cease_writing
    | DoneSetM2 | DoneCount | DoneFreeR | DoneFreeM2

  datatype Lock = Lock(readcount: int, writecount: int, m1: bool, m2: bool, m3: bool, w: bool, r: bool)

  datatype State = State(lock: Lock, places: seq<Place>)

  function AllIdle(threads: nat): (places: seq<Place>)
    ensures |places| == threads
    ensures forall t: nat | t < threads :: places[t] == Idle
  {
    seq(threads, _ => Idle)
  }

  function Start(threads: nat): State {
    State(Lock(0, 0, false, false, false, false, false), AllIdle(threads))
  }

  /** Whether a thread at this place can take its next step; an idle one chooses whether it will
      read or write. */
  predicate Enabled(l: Lock, at: Place, reader: bool) {
    match at
    case Idle => if reader then !l.m3 else !l.m2
    case ReaderSetR => !l.r
    case ReaderSetM1 => !l.m1
    case ReaderSetW => !l.w
    case Reading => !l.m1
    case WriterSetR => !l.r
    case WriterSetW => !l.w
    case DoneSetM2 => !l.m2
    case _ => true
  }

  function After(l: Lock, at: Place, reader: bool): (Lock, Place) {
    match at
    case Idle => if reader then (l.(m3 := true), ReaderSetR) else (l.(m2 := true), WriterCount)
    case ReaderSetR => (l.(r := true), ReaderSetM1)
    case ReaderSetM1 => (l.(m1 := true), ReaderCount)
    case ReaderCount => (l.(readcount := l.readcount + 1), if l.readcount + 1 == 1 then ReaderSetW else ReaderFreeM1)
    case ReaderSetW => (l.(w := true), ReaderFreeM1)
    case ReaderFreeM1 => (l.(m1 := false), ReaderFreeR)
    case ReaderFreeR => (l.(r := false), ReaderFreeM3)
    case ReaderFreeM3 => (l.(m3 := false), Reading)
    case Reading => (l.(m1 := true), CeaseCount)
    case CeaseCount => (l.(readcount := l.readcount - 1), if l.readcount - 1 == 0 then CeaseFreeW else CeaseFreeM1)
    case CeaseFreeW => (l.(w := false), CeaseFreeM1)
    case CeaseFreeM1 => (l.(m1 := false), Idle)
    case WriterCount => (l.(writecount := l.writecount + 1), if l.writecount + 1 == 1 then WriterSetR else WriterFreeM2)
    case WriterSetR => (l.(r := true), WriterFreeM2)
    case WriterFreeM2 => (l.(m2 := false), WriterSetW)
    case WriterSetW => (l.(w := true), Writing)
    case Writing => (l.(w := false), DoneSetM2)
    case DoneSetM2 => (l.(m2 := true), DoneCount)
    case DoneCount => (l.(writecount := l.writecount - 1), if l.writecount - 1 == 0 then DoneFreeR else DoneFreeM2)
    case DoneFreeR => (l.(r := false), DoneFreeM2)
    case DoneFreeM2 => (l.(m2 := false), Idle)
  }

  /** The steps of a writer whom nobody hinders. */
  lemma WriterStarts(l: Lock)
    ensures Enabled(l, Idle, false) <==> !l.m2
    ensures After(l, Idle, false) == (l.(m2 := true), WriterCount)
    ensures Enabled(l, WriterCount, false)
    ensures l.writecount == 0 ==> After(l, WriterCount, false) == (l.(writecount := 1), WriterSetR)
    ensures (Enabled(l, WriterSetR, false) <==> !l.r) && After(l, WriterSetR, false) == (l.(r := true), WriterFreeM2)
    ensures Enabled(l, WriterFreeM2, false) && After(l, WriterFreeM2, false) == (l.(m2 := false), WriterSetW)
    ensures (Enabled(l, WriterSetW, false) <==> !l.w) && After(l, WriterSetW, false) == (l.(w := true), Writing)
  {
  }

  lemma WriterStops(l: Lock)
    ensures Enabled(l, Writing, false) && After(l, Writing, false) == (l.(w := false), DoneSetM2)
    ensures (Enabled(l, DoneSetM2, false) <==> !l.m2) && After(l, DoneSetM2, false) == (l.(m2 := true), DoneCount)
    ensures Enabled(l, DoneCount, false)
    ensures l.writecount == 1 ==> After(l, DoneCount, false) == (l.(writecount := 0), DoneFreeR)
    ensures Enabled(l, DoneFreeR, false) && After(l, DoneFreeR, false) == (l.(r := false), DoneFreeM2)
    ensures Enabled(l, DoneFreeM2, false) && After(l, DoneFreeM2, false) == (l.(m2 := false), Idle)
  {
  }

  predicate CanStep(s: State, t: nat, reader: bool) {
    t < |s.places| && Enabled(s.lock, s.places[t], reader)
  }

  function Step(s: State, t: nat, reader: bool): State
    requires CanStep(s, t, reader)
  {
    var next := After(s.lock, s.places[t], reader);
    State(next.0, s.places[t := next.1])
  }

  /** The states of an execution: each follows from the one before by a step of some thread. */
  ghost predicate Execution(run: seq<State>) {
    Executions.Linked(Follows, run)
  }

  ghost predicate Follows(s: State, s': State) {
    exists t: nat, reader: bool :: CanStep(s, t, reader) && s' == Step(s, t, reader)
  }

  // ---- counting threads ----

  /** How many threads are inside each mutex, counted as readers and as writers, and hold w and r
      by themselves; how many of them are about to set or free w or r for their party. */
  datatype Tally = Tally(
    m1: nat,
    m2: nat,
    m3: nat,
    readers: nat,
    writers: nat,
    w: nat,
    r: nat,
    setW: nat,
    freeW: nat,
    setR: nat,
    freeR: nat)
  {
    function Plus(n: Tally): Tally {
      Tally(m1 + n.m1, m2 + n.m2, m3 + n.m3, readers + n.readers, writers + n.writers, w + n.w, r + n.r,
            setW + n.setW, freeW + n.freeW, setR + n.setR, freeR + n.freeR)
    }

    /** Those about to set or free w or r are among the others. */
    ghost predicate Sane() {
      && setW + freeW <= m1 && setR + freeR <= m2
      && setW <= readers && setR <= writers
      && freeW <= w && setW + freeR <= r
    }
  }

  const NOBODY := Tally(0, 0, 0, 0, 0, 0, 0, 0, 0, 0, 0)

  /** A thread at this place, alone. */
  function Weight(p: Place): Tally {
    match p
    case Idle => NOBODY
    case ReaderSetR => NOBODY.(m3 := 1)
    case ReaderSetM1 => NOBODY.(m3 := 1, r := 1)
    case ReaderCount => NOBODY.(m3 := 1, r := 1, m1 := 1)
    case ReaderSetW => NOBODY.(m3 := 1, r := 1, m1 := 1, readers := 1, setW := 1)
    case ReaderFreeM1 => NOBODY.(m3 := 1, r := 1, m1 := 1, readers := 1)
    case ReaderFreeR => NOBODY.(m3 := 1, r := 1, readers := 1)
    case ReaderFreeM3 => NOBODY.(m3 := 1, readers := 1)
    case Reading => NOBODY.(readers := 1)
    case CeaseCount => NOBODY.(m1 := 1, readers := 1)
    case CeaseFreeW => NOBODY.(m1 := 1, w := 1, freeW := 1)
    case CeaseFreeM1 => NOBODY.(m1 := 1)
    case WriterCount => NOBODY.(m2 := 1)
    case WriterSetR => NOBODY.(m2 := 1, writers := 1, setR := 1)
    case WriterFreeM2 => NOBODY.(m2 := 1, writers := 1)
    case WriterSetW => NOBODY.(writers := 1)
    case Writing => NOBODY.(writers := 1, w := 1)
    case DoneSetM2 => NOBODY.(writers := 1)
    case DoneCount => NOBODY.(m2 := 1, writers := 1)
    case DoneFreeR => NOBODY.(m2 := 1, r := 1, freeR := 1)
    case DoneFreeM2 => NOBODY.(m2 := 1)
  }

  function Count(places: seq<Place>): Tally {
    if places == [] then NOBODY else Count(places[1..]).Plus(Weight(places[0]))
  }

  lemma PlusSwap(a: Tally, b: Tally, c: Tally)
    ensures a.Plus(b).Plus(c) == a.Plus(c).Plus(b)
    ensures a.Sane() && b.Sane() ==> a.Plus(b).Sane()
  {
  }

  lemma CountSplit(places: seq<Place>, t: nat, q: Place)
    requires t < |places|
    ensures Count(places) == Count(places[1..]).Plus(Weight(places[0]))
    ensures t == 0 ==> Count(places[t := q]) == Count(places[1..]).Plus(Weight(q))
    ensures t > 0 ==> Count(places[t := q]) == Count(places[1..][t - 1 := q]).Plus(Weight(places[0]))
  {
    hide Weight, Tally.Plus;
    assert t == 0 ==> places[t := q][1..] == places[1..];
    assert t > 0 ==> places[t := q][1..] == places[1..][t - 1 := q];
  }

  lemma WeightSane(p: Place)
    ensures Weight(p).Sane()
  {
  }

  lemma {:induction false} CountSane(places: seq<Place>)
    ensures Count(places).Sane()
  {
    if places != [] {
      CountSane(places[1..]);
      WeightSane(places[0]);
      hide Weight;
    }
  }

  /** One thread and the others. */
  lemma {:induction false} Apart(places: seq<Place>, t: nat, q: Place) returns (rest: Tally)
    requires t < |places|
    ensures rest.Sane() && Count(places) == rest.Plus(Weight(places[t]))
    ensures Count(places[t := q]) == rest.Plus(Weight(q))
  {
    hide *;
    CountSplit(places, t, q);
    if t == 0 {
      rest := Count(places[1..]);
      CountSane(places[1..]);
    } else {
      var others := Apart(places[1..], t - 1, q);
      WeightSane(places[0]);
      rest := others.Plus(Weight(places[0]));
      PlusSwap(others, Weight(places[t]), Weight(places[0]));
      PlusSwap(others, Weight(q), Weight(places[0]));
      PlusSwap(others, Weight(places[0]), Weight(q));
    }
  }

  /** Two threads and the others. */
  lemma {:induction false} TwoApart(places: seq<Place>, t: nat, u: nat) returns (rest: Tally)
    requires t < |places| && u < |places| && t != u
    ensures rest.Sane() && Count(places) == rest.Plus(Weight(places[t])).Plus(Weight(places[u]))
  {
    hide *;
    CountSplit(places, t, Idle);
    if t == 0 {
      rest := Apart(places[1..], u - 1, Idle);
      PlusSwap(rest, Weight(places[u]), Weight(places[0]));
    } else if u == 0 {
      rest := Apart(places[1..], t - 1, Idle);
    } else {
      var others := TwoApart(places[1..], t - 1, u - 1);
      WeightSane(places[0]);
      rest := others.Plus(Weight(places[0]));
      PlusSwap(others, Weight(places[0]), Weight(places[t]));
      PlusSwap(others.Plus(Weight(places[t])), Weight(places[0]), Weight(places[u]));
    }
  }

  lemma {:induction false} CountStart(threads: nat)
    ensures Count(AllIdle(threads)) == NOBODY
  {
    hide AllIdle, Tally.Plus;
    if threads > 0 {
      assert AllIdle(threads)[1..] == AllIdle(threads - 1);
      CountStart(threads - 1);
      PlusNobody(Count(AllIdle(threads - 1)));
    }
  }

  lemma PlusNobody(n: Tally)
    ensures n.Plus(NOBODY) == n
  {
  }

  datatype Part = InM1 | InM2 | HasW | HasR | IsReader | IsWriter | SetsR

  function Of(n: Tally, part: Part): nat {
    match part
    case InM1 => n.m1
    case InM2 => n.m2
    case HasW => n.w
    case HasR => n.r
    case IsReader => n.readers
    case IsWriter => n.writers
    case SetsR => n.setR
  }

  /** A count that is not zero has a thread to it. */
  lemma {:induction false} CountFinds(places: seq<Place>, part: Part) returns (t: nat)
    requires Of(Count(places), part) > 0
    ensures t < |places| && Of(Weight(places[t]), part) > 0
  {
    hide Weight;
    assert places != [];
    if Of(Weight(places[0]), part) > 0 {
      t := 0;
    } else {
      t := CountFinds(places[1..], part);
      t := t + 1;
    }
  }

  // ---- what always holds ----

  function Held(b: bool): nat {
    if b then 1 else 0
  }

  /** Who holds what: the mutexes by the threads inside them; w by the writing thread or by the
      readers together; r by a reader on its way in or by the writers together.  The last one out
      frees w or r for its party, although another thread may have taken it. */
  ghost predicate Accounts(l: Lock, n: Tally) {
    && Held(l.m1) == n.m1 && Held(l.m2) == n.m2 && Held(l.m3) == n.m3
    && l.readcount == n.readers && l.writecount == n.writers
    && (n.setW > 0 ==> l.readcount == 1) && (n.freeW > 0 ==> l.readcount == 0)
    && (n.setR > 0 ==> l.writecount == 1) && (n.freeR > 0 ==> l.writecount == 0)
    && Held(l.w) == n.w + Held(l.readcount > 0 && n.setW == 0)
    && Held(l.r) == n.r + Held(l.writecount > 0 && n.setR == 0)
  }

  /** When a thread goes from place p to q, with these other threads, and the lock becomes l', the
      accounts are kept. */
  ghost predicate Keeps(l: Lock, rest: Tally, p: Place, l': Lock, q: Place) {
    Accounts(l, rest.Plus(Weight(p))) && rest.Sane() ==> Accounts(l', rest.Plus(Weight(q)))
  }

  lemma SetM3(l: Lock, rest: Tally)
    requires !l.m3
    ensures Keeps(l, rest, Idle, l.(m3 := true), ReaderSetR)
  {
  }

  lemma SetM2(l: Lock, rest: Tally)
    requires !l.m2
    ensures Keeps(l, rest, Idle, l.(m2 := true), WriterCount)
  {
  }

  lemma SetR(l: Lock, rest: Tally)
    requires !l.r
    ensures Keeps(l, rest, ReaderSetR, l.(r := true), ReaderSetM1)
  {
  }

  lemma SetM1(l: Lock, rest: Tally)
    requires !l.m1
    ensures Keeps(l, rest, ReaderSetM1, l.(m1 := true), ReaderCount)
  {
  }

  lemma CountIn(l: Lock, rest: Tally)
    ensures Keeps(l, rest, ReaderCount, l.(readcount := l.readcount + 1),
                  if l.readcount + 1 == 1 then ReaderSetW else ReaderFreeM1)
  {
  }

  lemma SetW(l: Lock, rest: Tally)
    requires !l.w
    ensures Keeps(l, rest, ReaderSetW, l.(w := true), ReaderFreeM1)
  {
  }

  lemma FreeM1(l: Lock, rest: Tally)
    ensures Keeps(l, rest, ReaderFreeM1, l.(m1 := false), ReaderFreeR)
  {
  }

  lemma FreeR(l: Lock, rest: Tally)
    ensures Keeps(l, rest, ReaderFreeR, l.(r := false), ReaderFreeM3)
  {
  }

  lemma FreeM3(l: Lock, rest: Tally)
    ensures Keeps(l, rest, ReaderFreeM3, l.(m3 := false), Reading)
  {
  }

  lemma SetM1Again(l: Lock, rest: Tally)
    requires !l.m1
    ensures Keeps(l, rest, Reading, l.(m1 := true), CeaseCount)
  {
  }

  lemma CountOut(l: Lock, rest: Tally)
    ensures Keeps(l, rest, CeaseCount, l.(readcount := l.readcount - 1),
                  if l.readcount - 1 == 0 then CeaseFreeW else CeaseFreeM1)
  {
  }

  lemma FreeW(l: Lock, rest: Tally)
    ensures Keeps(l, rest, CeaseFreeW, l.(w := false), CeaseFreeM1)
  {
  }

  lemma FreeM1Again(l: Lock, rest: Tally)
    ensures Keeps(l, rest, CeaseFreeM1, l.(m1 := false), Idle)
  {
  }

  lemma CountWriterIn(l: Lock, rest: Tally)
    ensures Keeps(l, rest, WriterCount, l.(writecount := l.writecount + 1),
                  if l.writecount + 1 == 1 then WriterSetR else WriterFreeM2)
  {
  }

  lemma SetRForWriters(l: Lock, rest: Tally)
    requires !l.r
    ensures Keeps(l, rest, WriterSetR, l.(r := true), WriterFreeM2)
  {
  }

  lemma FreeM2(l: Lock, rest: Tally)
    ensures Keeps(l, rest, WriterFreeM2, l.(m2 := false), WriterSetW)
  {
  }

  lemma SetWToWrite(l: Lock, rest: Tally)
    requires !l.w
    ensures Keeps(l, rest, WriterSetW, l.(w := true), Writing)
  {
  }

  lemma StopWriting(l: Lock, rest: Tally)
    ensures Keeps(l, rest, Writing, l.(w := false), DoneSetM2)
  {
  }

  lemma SetM2Again(l: Lock, rest: Tally)
    requires !l.m2
    ensures Keeps(l, rest, DoneSetM2, l.(m2 := true), DoneCount)
  {
  }

  lemma CountWriterOut(l: Lock, rest: Tally)
    ensures Keeps(l, rest, DoneCount, l.(writecount := l.writecount - 1),
                  if l.writecount - 1 == 0 then DoneFreeR else DoneFreeM2)
  {
  }

  lemma FreeRForReaders(l: Lock, rest: Tally)
    ensures Keeps(l, rest, DoneFreeR, l.(r := false), DoneFreeM2)
  {
  }

  lemma FreeM2Again(l: Lock, rest: Tally)
    ensures Keeps(l, rest, DoneFreeM2, l.(m2 := false), Idle)
  {
  }

  lemma AnyKeeps(l: Lock, rest: Tally, at: Place, reader: bool)
    requires Enabled(l, at, reader)
    ensures Keeps(l, rest, at, After(l, at, reader).0, After(l, at, reader).1)
  {
    hide Keeps;
    match at
    case Idle =>
      if reader {
        SetM3(l, rest);
      } else {
        SetM2(l, rest);
      }
    case ReaderSetR => SetR(l, rest);
    case ReaderSetM1 => SetM1(l, rest);
    case ReaderCount => CountIn(l, rest);
    case ReaderSetW => SetW(l, rest);
    case ReaderFreeM1 => FreeM1(l, rest);
    case ReaderFreeR => FreeR(l, rest);
    case ReaderFreeM3 => FreeM3(l, rest);
    case Reading => SetM1Again(l, rest);
    case CeaseCount => CountOut(l, rest);
    case CeaseFreeW => FreeW(l, rest);
    case CeaseFreeM1 => FreeM1Again(l, rest);
    case WriterCount => CountWriterIn(l, rest);
    case WriterSetR => SetRForWriters(l, rest);
    case WriterFreeM2 => FreeM2(l, rest);
    case WriterSetW => SetWToWrite(l, rest);
    case Writing => StopWriting(l, rest);
    case DoneSetM2 => SetM2Again(l, rest);
    case DoneCount => CountWriterOut(l, rest);
    case DoneFreeR => FreeRForReaders(l, rest);
    case DoneFreeM2 => FreeM2Again(l, rest);
  }

  ghost predicate Inv(s: State) {
    Accounts(s.lock, Count(s.places))
  }

  lemma InvStart(threads: nat)
    ensures Inv(Start(threads))
  {
    CountStart(threads);
    hide Count, AllIdle;
  }

  lemma InvStep(s: State, t: nat, reader: bool)
    requires Inv(s) && CanStep(s, t, reader)
    ensures Inv(Step(s, t, reader))
  {
    hide Accounts, Count, Weight, After, Enabled, Tally.Plus, Tally.Sane;
    var at := s.places[t];
    var rest := Apart(s.places, t, After(s.lock, at, reader).1);
    AnyKeeps(s.lock, rest, at, reader);
  }

  lemma {:induction false} InvAlways(run: seq<State>, threads: nat)
    requires Execution(run) && run[0] == Start(threads)
    ensures Inv(run[|run| - 1])
  {
    hide Inv, CanStep, Step, Start;
    if |run| == 1 {
      InvStart(threads);
    } else {
      var k := |run| - 2;
      Executions.Prefix(Follows, run, k + 1);
      InvAlways(run[..k + 1], threads);
      assert Follows(run[k], run[k + 1]);
      var t: nat, reader: bool :| CanStep(run[k], t, reader) && run[k + 1] == Step(run[k], t, reader);
      InvStep(run[k], t, reader);
    }
  }

  // ---- safety ----

  /** A thread that is writing writes alone: no other thread writes, and none reads. */
  lemma WritersAlone(s: State, t: nat, u: nat)
    requires Inv(s) && t < |s.places| && u < |s.places| && t != u && s.places[t] == Writing
    ensures s.places[u] != Writing && s.places[u] != Reading
  {
    hide Count;
    var rest := TwoApart(s.places, t, u);
  }

  /** In every execution, whatever the threads do and however they are interleaved. */
  lemma MutualExclusion(run: seq<State>, threads: nat, t: nat, u: nat)
    requires Execution(run) && run[0] == Start(threads)
    requires var s := run[|run| - 1]; t < |s.places| && u < |s.places| && t != u && s.places[t] == Writing
    ensures var s := run[|run| - 1]; s.places[u] != Writing && s.places[u] != Reading
  {
    InvAlways(run, threads);
    hide Inv, Execution, Start;
    WritersAlone(run[|run| - 1], t, u);
  }

  // ---- the preference ----

  /** The writers hold r: some have announced themselves, and the first of them has it. */
  ghost predicate WritersHoldR(s: State) {
    s.lock.writecount > 0 && WriterSetR !in s.places
  }

  /** Past r: the thread is, or will be without further contest on r, a reader. */
  predicate BeyondR(p: Place) {
    || p.ReaderSetM1? || p.ReaderCount? || p.ReaderSetW? || p.ReaderFreeM1? || p.ReaderFreeR? || p.ReaderFreeM3?
    || p.Reading? || p.CeaseCount?
  }

  /** While the writers hold r no thread gets past it. */
  lemma NoneGetsPast(s: State, t: nat, reader: bool, u: nat)
    requires Inv(s) && CanStep(s, t, reader) && WritersHoldR(s) && u < |s.places|
    ensures BeyondR(Step(s, t, reader).places[u]) ==> BeyondR(s.places[u])
  {
    hide Count;
    if s.places[t] == ReaderSetR && Count(s.places).setR > 0 {
      var v := CountFinds(s.places, SetsR);
      OnlySetR(s.places[v]);
    }
  }

  lemma OnlySetR(p: Place)
    ensures Weight(p).setR > 0 <==> p == WriterSetR
  {
  }

  /** Over a whole stretch of an execution in which the writers hold r, the readers can only become
      fewer: whoever is past r at its end was so at its beginning. */
  lemma {:induction false} ReadersOnlyLeave(run: seq<State>, u: nat)
    requires Execution(run) && Inv(run[0]) && u < |run[0].places|
    requires forall i: nat | i < |run| :: WritersHoldR(run[i])
    ensures |run[|run| - 1].places| == |run[0].places| && Inv(run[|run| - 1])
    ensures BeyondR(run[|run| - 1].places[u]) ==> BeyondR(run[0].places[u])
  {
    hide Inv, CanStep, Step, WritersHoldR, BeyondR;
    if |run| > 1 {
      var k := |run| - 2;
      Executions.Prefix(Follows, run, k + 1);
      assert run[..k + 1][k] == run[k];
      ReadersOnlyLeave(run[..k + 1], u);
      assert Follows(run[k], run[k + 1]);
      var t: nat, reader: bool :| CanStep(run[k], t, reader) && run[k + 1] == Step(run[k], t, reader);
      StepThreads(run[k], t, reader);
      InvStep(run[k], t, reader);
      NoneGetsPast(run[k], t, reader, u);
    }
  }

  lemma StepThreads(s: State, t: nat, reader: bool)
    requires CanStep(s, t, reader)
    ensures |Step(s, t, reader).places| == |s.places|
  {
  }

  // ---- no deadlock ----

  /** Thread u is inside the macros and can step. */
  predicate Open(s: State, u: nat) {
    u < |s.places| && s.places[u] != Idle && CanStep(s, u, true)
  }

  /** Whoever is inside m1 can step, unless it waits for w. */
  lemma PastM1(s: State) returns (u: nat)
    requires Inv(s) && s.lock.m1
    ensures Open(s, u) || (u < |s.places| && s.places[u] == ReaderSetW && s.lock.w)
    ensures Count(s.places).setW == 0 ==> Open(s, u)
  {
    hide Count;
    u := CountFinds(s.places, InM1);
    if s.places[u] == ReaderSetW {
      var rest := Apart(s.places, u, Idle);
    }
  }

  /** Someone holds w alone, or a reader that has it with others can step or lets m1 be asked. */
  lemma PastW(s: State) returns (u: nat)
    requires Inv(s) && s.lock.w
    ensures Open(s, u)
  {
    hide Count;
    if Count(s.places).w > 0 {
      u := CountFinds(s.places, HasW);
    } else {
      u := CountFinds(s.places, IsReader);
      if s.places[u] == ReaderSetW {
        var rest := Apart(s.places, u, Idle);
        assert false;
      } else if s.places[u] == Reading && s.lock.m1 {
        u := PastM1(s);
      }
    }
  }

  lemma PastM1OrW(s: State) returns (u: nat)
    requires Inv(s) && s.lock.m1
    ensures Open(s, u)
  {
    hide Inv, Count, CanStep;
    u := PastM1(s);
    if !Open(s, u) {
      u := PastW(s);
    }
  }

  /** r is held by a reader on its way in, by the writers together, or by the last of them. */
  lemma PastR(s: State) returns (u: nat)
    requires Inv(s) && s.lock.r
    ensures Open(s, u)
  {
    hide Count;
    if Count(s.places).r > 0 {
      u := CountFinds(s.places, HasR);
      if s.places[u] == ReaderSetM1 && s.lock.m1 {
        u := PastM1OrW(s);
      } else if s.places[u] == ReaderSetW && s.lock.w {
        u := PastW(s);
      }
    } else {
      u := CountFinds(s.places, IsWriter);
      if s.places[u] == WriterSetR {
        var rest := Apart(s.places, u, Idle);
        assert false;
      } else if s.places[u] == WriterSetW && s.lock.w {
        u := PastW(s);
      } else if s.places[u] == DoneSetM2 && s.lock.m2 {
        u := InsideM2(s);
      }
    }
  }

  /** With no writer about to set r, whoever is inside m2 can step. */
  lemma InsideM2(s: State) returns (u: nat)
    requires Inv(s) && s.lock.m2
    ensures Open(s, u) || (u < |s.places| && s.places[u] == WriterSetR && s.lock.r)
    ensures Count(s.places).setR == 0 ==> Open(s, u)
  {
    hide Count;
    u := CountFinds(s.places, InM2);
    if s.places[u] == WriterSetR {
      var rest := Apart(s.places, u, Idle);
    }
  }

  /** As long as some thread is inside the macros or between them, there is one that can step. */
  lemma SomeoneCanStep(s: State, t: nat) returns (u: nat)
    requires Inv(s) && t < |s.places| && s.places[t] != Idle
    ensures u < |s.places| && s.places[u] != Idle && CanStep(s, u, true)
  {
    hide Inv, Count;
    u := t;
    if !Enabled(s.lock, s.places[t], true) {
      match s.places[t]
      case ReaderSetR => u := PastR(s);
      case WriterSetR => u := PastR(s);
      case ReaderSetM1 => u := PastM1OrW(s);
      case Reading => u := PastM1OrW(s);
      case ReaderSetW => u := PastW(s);
      case WriterSetW => u := PastW(s);
      case DoneSetM2 =>
        u := InsideM2(s);
        if !Open(s, u) {
          u := PastR(s);
        }
    }
  }
}
