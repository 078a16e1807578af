/** The shared tables of the transforms (soxr-sys/src/fft4g_cache.h, lines 31-71) under the
    writers-preference lock: interleaved calls of LSX_SAFE_RDFT by any number of threads. */
module FftCache {
  import opened TableSizes
  import Executions
  import Ccrw2

  /** Powers of two from 2 on are such lengths. */
  predicate GoodLength(len: nat) {
    len == 2 || (len >= 4 && len % 4 == 0)
  }

  /** What a thread is doing; in the first lines it is somewhere inside the lock macro named. */
  datatype Task =
    | Out
    | Asking(len: nat)                     // become_reader, line 36
    | Leaving(len: nat)                    // cease_reading, line 38
    | Claiming(len: nat)                   // become_writer, line 39
    | Returning(len: nat)                  // cease_writing, line 53
    | Rereading(len: nat)                  // become_reader, line 54
    | Entering(len: nat, writer: bool)     // at the start of rdft
    | Computing(len: nat, writer: bool)    // past its table building
    | Finishing(writer: bool)              // DONE_WITH_FFT_CACHE, lines 59-64

  /** nw and nc stand for LSX_FFT_BR[0] and [1], the sizes of the tables that rdft finds. */
  datatype State = State(lock: Ccrw2.State, tasks: seq<Task>, fftLen: nat, nw: nat, nc: nat)

  /** Where the lock macro of a thread's call ends. */
  function End(k: Task): Ccrw2.Place {
    match k
    case Asking(_) => Ccrw2.Reading
    case Rereading(_) => Ccrw2.Reading
    case Claiming(_) => Ccrw2.Writing
    case Entering(_, writer) => if writer then Ccrw2.Writing else Ccrw2.Reading
    case Computing(_, writer) => if writer then Ccrw2.Writing else Ccrw2.Reading
    case _ => Ccrw2.Idle
  }

  /** Whether the macro asks to read, where that is a choice. */
  predicate AsReader(k: Task) {
    k.Asking? || k.Rereading?
  }

  /** A thread steps through its macro, or goes on when that is done; one that is outside may call
      with any length. */
  predicate CanStep(s: State, t: nat) {
    && t < |s.tasks| == |s.lock.places|
    && (s.lock.places[t] != End(s.tasks[t]) ==> Ccrw2.CanStep(s.lock, t, AsReader(s.tasks[t])))
  }

  function Step(s: State, t: nat, len: nat): State
    requires CanStep(s, t)
  {
    var k := s.tasks[t];
    if s.lock.places[t] != End(k) then s.(lock := Ccrw2.Step(s.lock, t, AsReader(k)))
    else
      match k
      case Out => s.(tasks := s.tasks[t := Asking(len)])
      case Asking(n) => s.(tasks := s.tasks[t := if n > s.fftLen then Leaving(n) else Entering(n, false)])
      case Leaving(n) => s.(tasks := s.tasks[t := Claiming(n)])
      case Claiming(n) =>
        if n > s.fftLen then
          s.(tasks := s.tasks[t := Entering(n, true)], fftLen := n, nw := if s.fftLen == 0 then 0 else s.nw)
        else s.(tasks := s.tasks[t := Returning(n)])
      case Returning(n) => s.(tasks := s.tasks[t := Rereading(n)])
      case Rereading(n) => s.(tasks := s.tasks[t := Entering(n, false)])
      case Entering(n, writer) =>
        s.(tasks := s.tasks[t := Computing(n, writer)], nw := Tables(n, s.nw, s.nc).0, nc := Tables(n, s.nw, s.nc).1)
      case Computing(_, writer) => s.(tasks := s.tasks[t := Finishing(writer)])
      case Finishing(_) => s.(tasks := s.tasks[t := Out])
  }

  /** LSX_INIT_FFT_CACHE has run; the size of the cosine table is whatever malloc left. */
  ghost predicate Initial(s: State, threads: nat) {
    && s.lock == Ccrw2.Start(threads) && |s.tasks| == threads && (forall t: nat | t < threads :: s.tasks[t] == Out)
    && s.fftLen == 0 && s.nw == 0
  }

  ghost predicate Follows(s: State, s': State) {
    exists t: nat, len: nat :: CanStep(s, t) && GoodLength(len) && s' == Step(s, t, len)
  }

  ghost predicate Execution(run: seq<State>) {
    Executions.Linked(Follows, run)
  }

  // ---- what always holds ----

  /** The tables are those for transforms of up to fftLen points. */
  predicate Built(fftLen: nat, nw: nat, nc: nat) {
    if fftLen == 0 then nw == 0
    else if fftLen == 2 then nw == 0 && nc == 1
    else 4 * nw == fftLen && nc == nw
  }

  /** What a thread is doing and its place in the lock fit together. */
  predicate Linked(k: Task, p: Ccrw2.Place) {
    match k
    case Out => p.Idle?
    case Asking(_) => AsksToRead(p)
    case Rereading(_) => AsksToRead(p)
    case Leaving(_) => StopsReading(p)
    case Claiming(_) => AsksToWrite(p)
    case Returning(_) => StopsWriting(p)
    case Entering(_, writer) => p == if writer then Ccrw2.Writing else Ccrw2.Reading
    case Computing(_, writer) => p == if writer then Ccrw2.Writing else Ccrw2.Reading
    case Finishing(writer) => if writer then StopsWriting(p) else StopsReading(p)
  }

  predicate AsksToRead(p: Ccrw2.Place) {
    || p.Idle? || p.ReaderSetR? || p.ReaderSetM1? || p.ReaderCount? || p.ReaderSetW? || p.ReaderFreeM1?
    || p.ReaderFreeR? || p.ReaderFreeM3? || p.Reading?
  }

  predicate StopsReading(p: Ccrw2.Place) {
    p.Reading? || p.CeaseCount? || p.CeaseFreeW? || p.CeaseFreeM1? || p.Idle?
  }

  predicate AsksToWrite(p: Ccrw2.Place) {
    p.Idle? || p.WriterCount? || p.WriterSetR? || p.WriterFreeM2? || p.WriterSetW? || p.Writing?
  }

  predicate StopsWriting(p: Ccrw2.Place) {
    p.Writing? || p.DoneSetM2? || p.DoneCount? || p.DoneFreeR? || p.DoneFreeM2? || p.Idle?
  }

  /** Past the checks of UPDATE_FFT_CACHE a length is covered. */
  predicate Covered(k: Task, fftLen: nat) {
    && (k.Asking? || k.Leaving? || k.Claiming? ==> GoodLength(k.len))
    && (k.Returning? || k.Rereading? || k.Entering? || k.Computing? ==> GoodLength(k.len) && k.len <= fftLen)
  }

  predicate Building(k: Task) {
    k.Entering? && k.writer
  }

  ghost predicate ThreadOk(s: State, t: nat)
    requires t < |s.tasks| == |s.lock.places|
  {
    && Linked(s.tasks[t], s.lock.places[t]) && Covered(s.tasks[t], s.fftLen)
    && (Building(s.tasks[t]) ==> s.tasks[t].len == s.fftLen > 4 * s.nw)
  }

  ghost predicate Inv(s: State) {
    && Ccrw2.Inv(s.lock) && |s.tasks| == |s.lock.places|
    && (s.fftLen == 0 || GoodLength(s.fftLen))
    && (forall t: nat | t < |s.tasks| :: ThreadOk(s, t))
    && ((forall t: nat | t < |s.tasks| :: !Building(s.tasks[t])) ==> Built(s.fftLen, s.nw, s.nc))
  }

  lemma LinkedStep(s: Ccrw2.State, t: nat, k: Task)
    requires Ccrw2.CanStep(s, t, AsReader(k)) && Linked(k, s.places[t]) && s.places[t] != End(k)
    ensures Linked(k, Ccrw2.Step(s, t, AsReader(k)).places[t])
  {
  }

  lemma InvInitial(s: State, threads: nat)
    requires Initial(s, threads)
    ensures Inv(s)
  {
    Ccrw2.InvStart(threads);
    hide Ccrw2.Inv;
  }

  lemma LockStep(s: State, t: nat, len: nat)
    requires Inv(s) && CanStep(s, t) && s.lock.places[t] != End(s.tasks[t])
    ensures Inv(Step(s, t, len)) && Step(s, t, len).fftLen == s.fftLen
  {
    var reader := AsReader(s.tasks[t]);
    assert ThreadOk(s, t);
    StepLock(s, t, len);
    hide Step, Ccrw2.Inv, Ccrw2.CanStep, Ccrw2.Step, Linked, Covered, End, Building, Built, GoodLength;
    Ccrw2.InvStep(s.lock, t, reader);
    LinkedStep(s.lock, t, s.tasks[t]);
    OtherPlaces(s.lock, t, reader);
    var s' := s.(lock := Ccrw2.Step(s.lock, t, reader));
    forall u: nat | u < |s'.tasks| ensures ThreadOk(s', u) {
      assert ThreadOk(s, u);
    }
  }

  lemma StepLock(s: State, t: nat, len: nat)
    requires CanStep(s, t) && s.lock.places[t] != End(s.tasks[t])
    ensures Step(s, t, len) == s.(lock := Ccrw2.Step(s.lock, t, AsReader(s.tasks[t])))
    ensures Ccrw2.CanStep(s.lock, t, AsReader(s.tasks[t]))
  {
    hide Ccrw2.CanStep, Ccrw2.Step;
  }

  lemma OtherPlaces(s: Ccrw2.State, t: nat, reader: bool)
    requires Ccrw2.CanStep(s, t, reader)
    ensures |Ccrw2.Step(s, t, reader).places| == |s.places|
    ensures forall u: nat | u < |s.places| && u != t :: Ccrw2.Step(s, t, reader).places[u] == s.places[u]
  {
  }

  /** No other thread is inside the transform while one of them writes there. */
  lemma InsideAlone(s: State, t: nat, u: nat)
    requires Inv(s) && t < |s.tasks| && u < |s.tasks| && t != u && s.lock.places[t] == Ccrw2.Writing
    ensures !s.tasks[u].Entering? && !s.tasks[u].Computing?
  {
    assert ThreadOk(s, u);
    Ccrw2.WritersAlone(s.lock, t, u);
    hide Ccrw2.Inv;
  }

  /** A thread inside with the read lock finds the tables built. */
  lemma ReadersFindTables(s: State, t: nat)
    requires Inv(s) && t < |s.tasks| && s.lock.places[t] == Ccrw2.Reading
    ensures Built(s.fftLen, s.nw, s.nc)
  {
    forall u: nat | u < |s.tasks| ensures !Building(s.tasks[u]) {
      assert ThreadOk(s, u) && ThreadOk(s, t);
      if Building(s.tasks[u]) {
        Ccrw2.WritersAlone(s.lock, u, t);
      }
    }
    hide Ccrw2.Inv;
  }

  /** The table building of a call does nothing for a reader, and for a writer all there is to do. */
  lemma TablesBuilt(len: nat, fftLen: nat, nw: nat, nc: nat)
    requires GoodLength(len) && GoodLength(fftLen)
    ensures len <= fftLen && Built(fftLen, nw, nc) ==> Tables(len, nw, nc) == (nw, nc)
    ensures len == fftLen > 4 * nw ==> Built(fftLen, Tables(len, nw, nc).0, Tables(len, nw, nc).1)
  {
  }

  /** When a thread starts to build, the tables are too small for its length. */
  lemma TooSmall(len: nat, fftLen: nat, nw: nat, nc: nat)
    requires Built(fftLen, nw, nc) && len > fftLen
    ensures len > 4 * (if fftLen == 0 then 0 else nw)
  {
  }

  lemma TaskStep(s: State, t: nat, len: nat)
    requires Inv(s) && CanStep(s, t) && s.lock.places[t] == End(s.tasks[t]) && GoodLength(len)
    ensures Inv(Step(s, t, len)) && Step(s, t, len).fftLen >= s.fftLen
  {
    hide Ccrw2.Inv, Ccrw2.CanStep, Tables, Built, GoodLength;
    var k, s' := s.tasks[t], Step(s, t, len);
    assert ThreadOk(s, t);
    if k.Claiming? {
      ClaimStep(s, t, len);
    } else if k.Entering? {
      EnterStep(s, t, len);
    } else {
      forall u: nat | u < |s'.tasks| ensures ThreadOk(s', u) {
        assert ThreadOk(s, u);
      }
      assert forall u: nat | u < |s.tasks| && u != t :: s'.tasks[u] == s.tasks[u];
      assert !Building(k) && !Building(s'.tasks[t]);
      if forall u: nat | u < |s'.tasks| :: !Building(s'.tasks[u]) {
        forall u: nat | u < |s.tasks| ensures !Building(s.tasks[u]) {
          assert u != t ==> !Building(s'.tasks[u]);
        }
      }
    }
  }

  lemma ClaimStep(s: State, t: nat, len: nat)
    requires Inv(s) && CanStep(s, t) && s.lock.places[t] == End(s.tasks[t]) && s.tasks[t].Claiming?
    ensures Inv(Step(s, t, len)) && Step(s, t, len).fftLen >= s.fftLen
  {
    hide Ccrw2.Inv, Ccrw2.CanStep, Tables, GoodLength, Built;
    var k, s' := s.tasks[t], Step(s, t, len);
    assert ThreadOk(s, t);
    forall u: nat | u < |s.tasks| && u != t ensures !Building(s.tasks[u]) {
      InsideAlone(s, t, u);
    }
    if k.len > s.fftLen {
      TooSmall(k.len, s.fftLen, s.nw, s.nc);
    }
    forall u: nat | u < |s'.tasks| ensures ThreadOk(s', u) {
      assert ThreadOk(s, u);
    }
    assert k.len > s.fftLen ==> Building(s'.tasks[t]);
  }

  lemma EnterStep(s: State, t: nat, len: nat)
    requires Inv(s) && CanStep(s, t) && s.lock.places[t] == End(s.tasks[t]) && s.tasks[t].Entering?
    ensures Inv(Step(s, t, len)) && Step(s, t, len).fftLen == s.fftLen
  {
    hide Ccrw2.Inv, Ccrw2.CanStep, Tables, GoodLength, Built;
    var k, s' := s.tasks[t], Step(s, t, len);
    assert ThreadOk(s, t);
    LengthPositive(s.fftLen, k.len);
    TablesBuilt(k.len, s.fftLen, s.nw, s.nc);
    forall u: nat | u < |s.tasks| && u != t ensures !Building(s.tasks[u]) {
      assert ThreadOk(s, u);
      if k.writer {
        InsideAlone(s, t, u);
      } else if Building(s.tasks[u]) {
        InsideAlone(s, u, t);
      }
    }
    if !k.writer {
      ReadersFindTables(s, t);
    }
    forall u: nat | u < |s'.tasks| ensures ThreadOk(s', u) {
      assert ThreadOk(s, u);
    }
  }

  lemma LengthPositive(fftLen: nat, len: nat)
    requires (fftLen == 0 || GoodLength(fftLen)) && GoodLength(len) && len <= fftLen
    ensures GoodLength(fftLen)
  {
  }

  lemma InvStep(s: State, t: nat, len: nat)
    requires Inv(s) && CanStep(s, t) && GoodLength(len)
    ensures Inv(Step(s, t, len)) && Step(s, t, len).fftLen >= s.fftLen
  {
    hide Inv, Step, GoodLength;
    if s.lock.places[t] != End(s.tasks[t]) {
      LockStep(s, t, len);
    } else {
      TaskStep(s, t, len);
    }
  }

  lemma {:induction false} InvAlways(run: seq<State>, threads: nat)
    requires Execution(run) && Initial(run[0], threads)
    ensures forall i: nat | i < |run| :: Inv(run[i]) && run[i].fftLen <= run[|run| - 1].fftLen
  {
    hide Inv, CanStep, Step, Initial, GoodLength;
    if |run| == 1 {
      InvInitial(run[0], threads);
    } else {
      var k := |run| - 2;
      Executions.Prefix(Follows, run, k + 1);
      InvAlways(run[..k + 1], threads);
      assert Follows(run[k], run[k + 1]);
      assert run[..k + 1][k] == run[k] && Inv(run[k]);
      var t: nat, len: nat :| CanStep(run[k], t) && GoodLength(len) && run[k + 1] == Step(run[k], t, len);
      InvStep(run[k], t, len);
      forall i: nat | i < |run| ensures Inv(run[i]) && run[i].fftLen <= run[|run| - 1].fftLen {
        if i <= k {
          assert run[..k + 1][i] == run[i];
        }
      }
    }
  }

  // ---- safety ----

  /** Inside the transform the length is covered; past the table building the tables are those of
      FFT_LEN; and a thread that holds the read lock alone changes neither table, and enters the
      branches that write them just when its length and FFT_LEN are 2. */
  ghost predicate Safe(s: State, t: nat)
    requires t < |s.tasks|
  {
    var k := s.tasks[t];
    && (k.Entering? || k.Computing? ==> k.len <= s.fftLen)
    && (k.Computing? ==> Built(s.fftLen, s.nw, s.nc))
    && (k.Entering? && !k.writer ==>
          && Built(s.fftLen, s.nw, s.nc)
          && Tables(k.len, s.nw, s.nc) == (s.nw, s.nc)
          && !TakesMakect(k.len, s.nw, s.nc)
          && (TakesMakewt(k.len, s.nw) <==> k.len == 2 && s.fftLen == 2))
  }

  /** A thread inside with the write lock, its tables done. */
  lemma WriterFoundTables(s: State, t: nat)
    requires Inv(s) && t < |s.tasks| && s.lock.places[t] == Ccrw2.Writing && !Building(s.tasks[t])
    ensures Built(s.fftLen, s.nw, s.nc)
  {
    forall u: nat | u < |s.tasks| ensures !Building(s.tasks[u]) {
      if u != t {
        InsideAlone(s, t, u);
      }
    }
    hide Ccrw2.Inv, Built;
  }

  lemma InsideFindsTables(s: State, t: nat)
    requires Inv(s) && t < |s.tasks|
    requires s.tasks[t].Computing? || (s.tasks[t].Entering? && !s.tasks[t].writer)
    ensures GoodLength(s.fftLen) && GoodLength(s.tasks[t].len) && s.tasks[t].len <= s.fftLen
    ensures Built(s.fftLen, s.nw, s.nc)
  {
    InvParts(s, t);
    BuildingEnters(s.tasks[t]);
    LengthPositive(s.fftLen, s.tasks[t].len);
    hide *;
    if s.tasks[t].writer {
      WriterFoundTables(s, t);
    } else {
      ReadersFindTables(s, t);
    }
  }

  lemma InvIsSafe(s: State, t: nat)
    requires Inv(s) && t < |s.tasks|
    ensures Safe(s, t)
  {
    var k := s.tasks[t];
    hide *;
    InvParts(s, t);
    if k.Computing? || (k.Entering? && !k.writer) {
      InsideFindsTables(s, t);
    }
    if k.Entering? && !k.writer {
      ReaderBranches(k.len, s.fftLen, s.nw, s.nc);
    }
    SafeWhen(s, t);
  }

  lemma SafeWhen(s: State, t: nat)
    requires t < |s.tasks|
    requires var k := s.tasks[t];
             && (k.Entering? || k.Computing? ==> k.len <= s.fftLen)
             && (k.Computing? || (k.Entering? && !k.writer) ==> Built(s.fftLen, s.nw, s.nc))
             && (k.Entering? && !k.writer ==>
                   && Tables(k.len, s.nw, s.nc) == (s.nw, s.nc) && !TakesMakect(k.len, s.nw, s.nc)
                   && (TakesMakewt(k.len, s.nw) <==> k.len == 2 && s.fftLen == 2))
    ensures Safe(s, t)
  {
    hide Built, Tables, TakesMakewt, TakesMakect;
  }

  lemma BuildingEnters(k: Task)
    ensures Building(k) ==> k.Entering?
  {
  }

  lemma InvParts(s: State, t: nat)
    requires Inv(s) && t < |s.tasks|
    ensures |s.tasks| == |s.lock.places| && (s.fftLen == 0 || GoodLength(s.fftLen))
    ensures var k := s.tasks[t];
            k.Entering? || k.Computing? ==>
              GoodLength(k.len) && k.len <= s.fftLen
                  && s.lock.places[t] == if k.writer then Ccrw2.Writing else Ccrw2.Reading
  {
    assert ThreadOk(s, t);
    hide Ccrw2.Inv;
  }

  lemma ReaderBranches(len: nat, fftLen: nat, nw: nat, nc: nat)
    requires GoodLength(len) && GoodLength(fftLen) && len <= fftLen && Built(fftLen, nw, nc)
    ensures Tables(len, nw, nc) == (nw, nc) && !TakesMakect(len, nw, nc)
    ensures TakesMakewt(len, nw) <==> len == 2 && fftLen == 2
  {
  }

  // ---- a reader that takes the branch ----

  /** One thread, alone. */
  function One(lock: Ccrw2.Lock, p: Ccrw2.Place, k: Task, fftLen: nat, nw: nat, nc: nat): State {
    State(Ccrw2.State(lock, [p]), [k], fftLen, nw, nc)
  }

  const FREE := Ccrw2.Lock(0, 0, false, false, false, false, false)
  const READ := Ccrw2.Lock(1, 0, false, false, false, true, false)
  const WRITTEN := Ccrw2.Lock(0, 1, false, false, false, true, true)

  ghost predicate Reaches(run: seq<State>, s: State) {
    Execution(run) && run[|run| - 1] == s
  }

  lemma Further(run: seq<State>, s: State, s': State, len: nat) returns (longer: seq<State>)
    requires Reaches(run, s) && CanStep(s, 0) && s' == Step(s, 0, len) && GoodLength(len)
    ensures Reaches(longer, s') && run <= longer
  {
    longer := run + [s'];
    hide CanStep, Step;
    assert Follows(s, s');
    forall i: nat | i + 1 < |longer| ensures Follows(longer[i], longer[i + 1]) {
      if i + 1 < |run| {
        assert Follows(run[i], run[i + 1]);
      }
    }
  }

  /** One step inside a macro. */
  lemma Walks(run: seq<State>, l: Ccrw2.Lock, p: Ccrw2.Place, l': Ccrw2.Lock, p': Ccrw2.Place, k: Task, fftLen: nat,
              nw: nat, nc: nat) returns (longer: seq<State>)
    requires Reaches(run, One(l, p, k, fftLen, nw, nc)) && p != End(k)
    requires Ccrw2.Enabled(l, p, AsReader(k)) && Ccrw2.After(l, p, AsReader(k)) == (l', p')
    ensures Reaches(longer, One(l', p', k, fftLen, nw, nc)) && run <= longer
  {
    hide Reaches, End, AsReader, Ccrw2.Enabled, Ccrw2.After;
    assert [p][0 := p'] == [p'];
    longer := Further(run, One(l, p, k, fftLen, nw, nc), One(l', p', k, fftLen, nw, nc), 2);
  }

  /** The thread goes through become_reader. */
  lemma Reads(run: seq<State>, k: Task, fftLen: nat, nw: nat, nc: nat) returns (longer: seq<State>)
    requires AsReader(k) && Reaches(run, One(FREE, Ccrw2.Idle, k, fftLen, nw, nc))
    ensures Reaches(longer, One(READ, Ccrw2.Reading, k, fftLen, nw, nc)) && run <= longer
  {
    hide Reaches, One;
    var l1 := FREE.(m3 := true);
    longer := Walks(run, FREE, Ccrw2.Idle, l1, Ccrw2.ReaderSetR, k, fftLen, nw, nc);
    var l2 := l1.(r := true);
    longer := Walks(longer, l1, Ccrw2.ReaderSetR, l2, Ccrw2.ReaderSetM1, k, fftLen, nw, nc);
    var l3 := l2.(m1 := true);
    longer := Walks(longer, l2, Ccrw2.ReaderSetM1, l3, Ccrw2.ReaderCount, k, fftLen, nw, nc);
    var l4 := l3.(readcount := 1);
    longer := Walks(longer, l3, Ccrw2.ReaderCount, l4, Ccrw2.ReaderSetW, k, fftLen, nw, nc);
    longer := ReadsOn(longer, l4, k, fftLen, nw, nc);
  }

  lemma ReadsOn(run: seq<State>, l4: Ccrw2.Lock, k: Task, fftLen: nat, nw: nat, nc: nat) returns (longer: seq<State>)
    requires l4 == FREE.(m1 := true, m3 := true, r := true, readcount := 1)
    requires AsReader(k) && Reaches(run, One(l4, Ccrw2.ReaderSetW, k, fftLen, nw, nc))
    ensures Reaches(longer, One(READ, Ccrw2.Reading, k, fftLen, nw, nc)) && run <= longer
  {
    hide Reaches, One;
    var l5 := l4.(w := true);
    longer := Walks(run, l4, Ccrw2.ReaderSetW, l5, Ccrw2.ReaderFreeM1, k, fftLen, nw, nc);
    var l6 := l5.(m1 := false);
    longer := Walks(longer, l5, Ccrw2.ReaderFreeM1, l6, Ccrw2.ReaderFreeR, k, fftLen, nw, nc);
    var l7 := l6.(r := false);
    longer := Walks(longer, l6, Ccrw2.ReaderFreeR, l7, Ccrw2.ReaderFreeM3, k, fftLen, nw, nc);
    longer := Walks(longer, l7, Ccrw2.ReaderFreeM3, READ, Ccrw2.Reading, k, fftLen, nw, nc);
  }

  /** Through cease_reading. */
  lemma Leaves(run: seq<State>, len: nat, nw: nat, nc: nat) returns (longer: seq<State>)
    requires Reaches(run, One(READ, Ccrw2.Reading, Leaving(len), 0, nw, nc))
    ensures Reaches(longer, One(FREE, Ccrw2.Idle, Leaving(len), 0, nw, nc)) && run <= longer
  {
    hide Reaches, One;
    var l1 := READ.(m1 := true);
    longer := Walks(run, READ, Ccrw2.Reading, l1, Ccrw2.CeaseCount, Leaving(len), 0, nw, nc);
    var l2 := l1.(readcount := 0);
    longer := Walks(longer, l1, Ccrw2.CeaseCount, l2, Ccrw2.CeaseFreeW, Leaving(len), 0, nw, nc);
    var l3 := l2.(w := false);
    longer := Walks(longer, l2, Ccrw2.CeaseFreeW, l3, Ccrw2.CeaseFreeM1, Leaving(len), 0, nw, nc);
    longer := Walks(longer, l3, Ccrw2.CeaseFreeM1, FREE, Ccrw2.Idle, Leaving(len), 0, nw, nc);
  }

  /** Through become_writer. */
  lemma Claims(run: seq<State>, len: nat, nw: nat, nc: nat) returns (longer: seq<State>)
    requires Reaches(run, One(FREE, Ccrw2.Idle, Claiming(len), 0, nw, nc))
    ensures Reaches(longer, One(WRITTEN, Ccrw2.Writing, Claiming(len), 0, nw, nc)) && run <= longer
  {
    hide Reaches, One, Ccrw2.Enabled, Ccrw2.After;
    var l1 := FREE.(m2 := true);
    Ccrw2.WriterStarts(FREE);
    longer := Walks(run, FREE, Ccrw2.Idle, l1, Ccrw2.WriterCount, Claiming(len), 0, nw, nc);
    var l2 := l1.(writecount := 1);
    Ccrw2.WriterStarts(l1);
    longer := Walks(longer, l1, Ccrw2.WriterCount, l2, Ccrw2.WriterSetR, Claiming(len), 0, nw, nc);
    var l3 := l2.(r := true);
    Ccrw2.WriterStarts(l2);
    longer := Walks(longer, l2, Ccrw2.WriterSetR, l3, Ccrw2.WriterFreeM2, Claiming(len), 0, nw, nc);
    var l4 := l3.(m2 := false);
    Ccrw2.WriterStarts(l3);
    longer := Walks(longer, l3, Ccrw2.WriterFreeM2, l4, Ccrw2.WriterSetW, Claiming(len), 0, nw, nc);
    Ccrw2.WriterStarts(l4);
    longer := Walks(longer, l4, Ccrw2.WriterSetW, WRITTEN, Ccrw2.Writing, Claiming(len), 0, nw, nc);
  }

  /** Through cease_writing. */
  lemma Frees(run: seq<State>, len: nat, nw: nat, nc: nat) returns (longer: seq<State>)
    requires Reaches(run, One(WRITTEN, Ccrw2.Writing, Finishing(true), len, nw, nc))
    ensures Reaches(longer, One(FREE, Ccrw2.Idle, Finishing(true), len, nw, nc)) && run <= longer
  {
    hide Reaches, One, Ccrw2.Enabled, Ccrw2.After;
    var k := Finishing(true);
    var l1 := WRITTEN.(w := false);
    Ccrw2.WriterStops(WRITTEN);
    longer := Walks(run, WRITTEN, Ccrw2.Writing, l1, Ccrw2.DoneSetM2, k, len, nw, nc);
    var l2 := l1.(m2 := true);
    Ccrw2.WriterStops(l1);
    longer := Walks(longer, l1, Ccrw2.DoneSetM2, l2, Ccrw2.DoneCount, k, len, nw, nc);
    var l3 := l2.(writecount := 0);
    Ccrw2.WriterStops(l2);
    longer := Walks(longer, l2, Ccrw2.DoneCount, l3, Ccrw2.DoneFreeR, k, len, nw, nc);
    var l4 := l3.(r := false);
    Ccrw2.WriterStops(l3);
    longer := Walks(longer, l3, Ccrw2.DoneFreeR, l4, Ccrw2.DoneFreeM2, k, len, nw, nc);
    Ccrw2.WriterStops(l4);
    longer := Walks(longer, l4, Ccrw2.DoneFreeM2, FREE, Ccrw2.Idle, k, len, nw, nc);
  }

  /** From the start to the transform, with any length: the thread reads, finds FFT_LEN too small, and
      comes in with the write lock. */
  lemma ComesIn(s: State, len: nat) returns (run: seq<State>)
    requires Initial(s, 1) && GoodLength(len)
    ensures Reaches(run, One(WRITTEN, Ccrw2.Writing, Entering(len, true), len, 0, s.nc)) && [s] <= run
  {
    var nc := s.nc;
    assert s.lock.places == [Ccrw2.Idle] && s.tasks == [Out];
    var s0 := One(FREE, Ccrw2.Idle, Out, 0, 0, nc);
    run := [s];
    run := Further(run, s0, One(FREE, Ccrw2.Idle, Asking(len), 0, 0, nc), len);
    run := Reads(run, Asking(len), 0, 0, nc);
    run := Further(run, One(READ, Ccrw2.Reading, Asking(len), 0, 0, nc),
        One(READ, Ccrw2.Reading, Leaving(len), 0, 0, nc), 2);
    run := Leaves(run, len, 0, nc);
    run := Further(run, One(FREE, Ccrw2.Idle, Leaving(len), 0, 0, nc), One(FREE, Ccrw2.Idle, Claiming(len), 0, 0, nc),
        2);
    run := Claims(run, len, 0, nc);
    run := Further(run, One(WRITTEN, Ccrw2.Writing, Claiming(len), 0, 0, nc),
        One(WRITTEN, Ccrw2.Writing, Entering(len, true), len, 0, nc), 2);
  }

  /** Every length gets into the transform and, with FFT_LEN and the tables made for it, out again. */
  lemma LengthReached(s: State, len: nat) returns (run: seq<State>, inside: nat)
    requires Initial(s, 1) && GoodLength(len)
    ensures Execution(run) && run[0] == s && inside < |run|
    ensures run[inside].tasks == [Computing(len, true)]
    ensures var last := run[|run| - 1];
            && last.tasks == [Out] && last.lock == s.lock && last.fftLen == len && Built(len, last.nw, last.nc)
  {
    run := ComesIn(s, len);
    var next := Tables(len, 0, s.nc);
    var nw, nc := next.0, next.1;
    FirstTables(len, s.nc);
    var s1 := One(WRITTEN, Ccrw2.Writing, Computing(len, true), len, nw, nc);
    run := Further(run, One(WRITTEN, Ccrw2.Writing, Entering(len, true), len, 0, s.nc), s1, 2);
    inside := |run| - 1;
    var before := run;
    assert before <= run;
    run := GoesOut(run, len, nw, nc);
  }

  lemma FirstTables(len: nat, nc: nat)
    requires GoodLength(len)
    ensures Built(len, Tables(len, 0, nc).0, Tables(len, 0, nc).1)
  {
  }

  lemma GoesOut(run: seq<State>, len: nat, nw: nat, nc: nat) returns (longer: seq<State>)
    requires Reaches(run, One(WRITTEN, Ccrw2.Writing, Computing(len, true), len, nw, nc))
    ensures Reaches(longer, One(FREE, Ccrw2.Idle, Out, len, nw, nc)) && run <= longer
  {
    hide Reaches;
    longer := Further(run, One(WRITTEN, Ccrw2.Writing, Computing(len, true), len, nw, nc),
        One(WRITTEN, Ccrw2.Writing, Finishing(true), len, nw, nc), 2);
    longer := Frees(longer, len, nw, nc);
    longer := Further(longer, One(FREE, Ccrw2.Idle, Finishing(true), len, nw, nc),
        One(FREE, Ccrw2.Idle, Out, len, nw, nc), 2);
  }

  /** A thread that calls with length 2 and then again enters makewt with the read lock only, and
      leaves the sizes as they are. */
  lemma ReaderTakesMakewt(s: State) returns (run: seq<State>)
    requires Initial(s, 1)
    ensures Execution(run) && run[0] == s
    ensures var last := run[|run| - 1];
            && last.tasks == [Entering(2, false)] && last.lock.places == [Ccrw2.Reading]
            && TakesMakewt(2, last.nw) && Tables(2, last.nw, last.nc) == (last.nw, last.nc)
  {
    run := CallsAgain(s);
  }

  lemma CallsAgain(s: State) returns (run: seq<State>)
    requires Initial(s, 1)
    ensures Reaches(run, One(READ, Ccrw2.Reading, Entering(2, false), 2, 0, 1)) && [s] <= run
  {
    hide Reaches, Initial;
    run := ComesIn(s, 2);
    run := Further(run, One(WRITTEN, Ccrw2.Writing, Entering(2, true), 2, 0, s.nc),
        One(WRITTEN, Ccrw2.Writing, Computing(2, true), 2, 0, 1), 2);
    run := GoesOut(run, 2, 0, 1);
    run := Further(run, One(FREE, Ccrw2.Idle, Out, 2, 0, 1), One(FREE, Ccrw2.Idle, Asking(2), 2, 0, 1), 2);
    run := Reads(run, Asking(2), 2, 0, 1);
    run := Further(run, One(READ, Ccrw2.Reading, Asking(2), 2, 0, 1),
        One(READ, Ccrw2.Reading, Entering(2, false), 2, 0, 1), 2);
  }

  // ---- the length asked for ----

  /** From the call to the end of the transform. */
  predicate Under(k: Task) {
    !k.Out? && !k.Finishing?
  }

  lemma LengthKept(s: State, u: nat, len: nat, t: nat)
    requires CanStep(s, u) && t < |s.tasks| && Under(s.tasks[t])
    ensures |Step(s, u, len).tasks| == |s.tasks|
    ensures Under(Step(s, u, len).tasks[t]) ==> Step(s, u, len).tasks[t].len == s.tasks[t].len
  {
    hide Ccrw2.CanStep, Ccrw2.Step, Tables;
  }

  /** Whatever the other threads do, the length inside the transform is the one with which the thread
      called. */
  lemma {:induction false} AskedLength(run: seq<State>, t: nat)
    requires Execution(run) && forall i: nat | i < |run| :: t < |run[i].tasks| && Under(run[i].tasks[t])
    ensures Under(run[0].tasks[t]) && Under(run[|run| - 1].tasks[t])
    ensures run[|run| - 1].tasks[t].len == run[0].tasks[t].len
  {
    hide CanStep, Step;
    if |run| > 1 {
      var k := |run| - 2;
      Executions.Prefix(Follows, run, k + 1);
      assert run[..k + 1][k] == run[k];
      AskedLength(run[..k + 1], t);
      assert Follows(run[k], run[k + 1]);
      var u: nat, len: nat :| CanStep(run[k], u) && GoodLength(len) && run[k + 1] == Step(run[k], u, len);
      LengthKept(run[k], u, len, t);
    }
  }

  /** In every execution, in every interleaving: FFT_LEN never goes down, and every thread is safe
      in every state. */
  lemma CacheSafety(run: seq<State>, threads: nat, i: nat, j: nat, t: nat)
    requires Execution(run) && Initial(run[0], threads) && i <= j < |run| && t < |run[j].tasks|
    ensures run[i].fftLen <= run[j].fftLen
    ensures Safe(run[j], t)
  {
    Executions.Prefix(Follows, run, j + 1);
    InvAlways(run[..j + 1], threads);
    hide Execution, Initial, Inv, Safe;
    assert run[..j + 1][i] == run[i] && run[..j + 1][j] == run[j];
    InvIsSafe(run[j], t);
  }
}
