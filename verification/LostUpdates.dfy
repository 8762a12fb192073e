/**
 * When does the mastery row of one user and card count every logged answer? The store neither
 * locks nor checks, so an answer can be lost; this module says exactly in which runs one is.
 */
module LostUpdates {
  import opened Mastery
  import opened AnswerProtocol

  predicate InFlight(p: Phase) { p.Loaded? || p.Processed? || p.Recorded? }

  /** The number of attempts the row held when this request loaded it. */
  function Base(p: Phase): int
    requires InFlight(p)
  {
    if p.Loaded? then p.row.totalAttempts else p.row.totalAttempts - 1
  }

  ghost predicate Flying(s: State, k: Key, id: nat) {
    id in s.requests && s.requests[id].key == k && InFlight(s.requests[id].phase)
  }

  /** The requests between their logged attempt and its row. */
  function Waiting(s: State, k: Key): set<nat> {
    set id | id in s.requests && s.requests[id].key == k && s.requests[id].phase.Recorded?
  }

  /** No request stands between its attempt and its row. */
  ghost predicate Settled(s: State, k: Key) { Waiting(s, k) == {} }

  /** What the row counts. */
  function Counted(s: State, k: Key): int { RowOrFresh(s.rows, k).totalAttempts }

  /** What the row should count: the logged attempts whose request is through. */
  function Owed(s: State, k: Key): int { |LogOf(s.log, k)| - |Waiting(s, k)| }

  function KeyOf(s: State, a: Action): Key
    requires Enabled(s, a)
  {
    if a.Arrive? then a.key else s.requests[a.id].key
  }

  // ---- the condition -------------------------------------------------------------------

  /** The requests that have loaded since the row was last written. */
  function Current(s: State, current: set<nat>, a: Action, k: Key): set<nat>
    requires Enabled(s, a)
  {
    if KeyOf(s, a) != k then current
    else match a
      case Load(id, ok) => if ok then current + {id} else current
      case UpsertMastery(_, outcome) => if outcome.Refused? then current else {}
      case _ => current
  }

  /**
   * What would have to be checked when an attempt is logged: its request has loaded since the row
   * was last written, no other attempt is waiting for its row, and the write of the row follows.
   */
  ghost predicate Serial(s: State, current: set<nat>, a: Action, k: Key)
    requires Enabled(s, a)
  {
    KeyOf(s, a) == k ==>
      match a
      case RecordAttempt(id, outcome) => outcome.Refused? || (outcome.Done? && id in current && Settled(s, k))
      case UpsertMastery(_, outcome) => !outcome.Refused?
      case _ => true
  }

  ghost predicate SerialRun(s: State, current: set<nat>, run: seq<Action>, k: Key)
    requires Valid(s, run)
    decreases run
  {
    run == [] || (Serial(s, current, run[0], k)
                  && SerialRun(Next(s, run[0]), Current(s, current, run[0], k), run[1..], k))
  }

  // ---- the account of one step ---------------------------------------------------------

  lemma OthersStay(s: State, a: Action, id: nat)
    requires Enabled(s, a) && id in s.requests && id != a.id
    ensures id in Next(s, a).requests && Next(s, a).requests[id] == s.requests[id]
  {
  }

  lemma WaitingAfter(s: State, a: Action, k: Key)
    requires Enabled(s, a)
    ensures Waiting(Next(s, a), k) ==
              if KeyOf(s, a) == k && a.RecordAttempt? && a.outcome.Done? then Waiting(s, k) + {a.id}
              else if KeyOf(s, a) == k && a.UpsertMastery? then Waiting(s, k) - {a.id}
              else Waiting(s, k)
  {
    forall id | id in s.requests && id != a.id ensures id in Waiting(Next(s, a), k) <==> id in Waiting(s, k) {
      OthersStay(s, a, id);
    }
  }

  function OwedAfter(s: State, a: Action, k: Key): int
    requires Enabled(s, a)
  {
    if KeyOf(s, a) != k then Owed(s, k)
    else match a
      case RecordAttempt(_, outcome) => if outcome.LostReply? then Owed(s, k) + 1 else Owed(s, k)
      case UpsertMastery(_, _) => Owed(s, k) + 1
      case _ => Owed(s, k)
  }

  lemma OwedStep(s: State, a: Action, k: Key)
    requires Enabled(s, a)
    ensures Owed(Next(s, a), k) == OwedAfter(s, a, k)
  {
    WaitingAfter(s, a, k);
    if a.RecordAttempt? {
      LogOfAppend(s.log, Attempt(s.requests[a.id].key, s.requests[a.id].phase.verdict), k);
    }
  }

  lemma CountedStep(s: State, a: Action, k: Key)
    requires Enabled(s, a)
    ensures Counted(Next(s, a), k) ==
              if KeyOf(s, a) == k && a.UpsertMastery? && !a.outcome.Refused? then Base(s.requests[a.id].phase) + 1
              else Counted(s, k)
  {
  }

  lemma FlyingStep(s: State, a: Action, k: Key, id: nat)
    requires Enabled(s, a) && Flying(Next(s, a), k, id)
    ensures id == a.id && a.Load? ==> Base(Next(s, a).requests[id].phase) == Counted(s, k)
    ensures !(id == a.id && a.Load?) ==>
              Flying(s, k, id) && Base(Next(s, a).requests[id].phase) == Base(s.requests[id].phase)
    ensures id == a.id ==> !a.Arrive? && !a.UpsertMastery?
  {
    if id != a.id {
      assert id in s.requests;
      OthersStay(s, a, id);
    }
  }

  // ---- bounds that every run keeps -----------------------------------------------------

  /** The row never counts more than it is owed, and a request whose row was since written is behind. */
  ghost predicate Bounded(s: State, current: set<nat>, k: Key) {
    && Counted(s, k) <= Owed(s, k)
    && forall id | Flying(s, k, id) ::
         && Base(s.requests[id].phase) <= Owed(s, k)
         && (id !in current ==> Base(s.requests[id].phase) < Owed(s, k) || s.requests[id].phase.Recorded?)
  }

  lemma StepBounded(s: State, current: set<nat>, a: Action, k: Key)
    requires Bounded(s, current, k) && Enabled(s, a)
    ensures Bounded(Next(s, a), Current(s, current, a, k), k)
  {
    var s' := Next(s, a);
    OwedStep(s, a, k);
    CountedStep(s, a, k);
    if KeyOf(s, a) == k && a.UpsertMastery? { assert Flying(s, k, a.id); }
    forall id | Flying(s', k, id)
      ensures Base(s'.requests[id].phase) <= Owed(s', k)
      ensures id !in Current(s, current, a, k) ==>
                Base(s'.requests[id].phase) < Owed(s', k) || s'.requests[id].phase.Recorded?
    {
      FlyingStep(s, a, k, id);
      if id != a.id { OthersStay(s, a, id); }
    }
  }

  // ---- a lost answer stays lost --------------------------------------------------------

  /** A request that must still write its row: once recorded, or, if no call fails, once loaded. */
  ghost predicate WillWrite(s: State, k: Key, id: nat, clean: bool) {
    Flying(s, k, id) && (clean || s.requests[id].phase.Recorded?)
  }

  ghost predicate Behind(s: State, k: Key) {
    Counted(s, k) < Owed(s, k) && forall id | Flying(s, k, id) :: Base(s.requests[id].phase) < Owed(s, k)
  }

  /** The row is behind for good: nobody holds a newer one, or somebody is about to write an older one. */
  ghost predicate Lost(s: State, k: Key, clean: bool) {
    || Behind(s, k)
    || (exists id :: WillWrite(s, k, id, clean) && Base(s.requests[id].phase) < Owed(s, k))
    || (exists i, j :: i != j && WillWrite(s, k, i, clean) && WillWrite(s, k, j, clean))
  }

  /** No call on `k` fails. */
  predicate Clean(s: State, a: Action, k: Key)
    requires Enabled(s, a)
  {
    KeyOf(s, a) == k ==>
      match a
      case Load(_, ok) => ok
      case RecordAttempt(_, outcome) => outcome.Done?
      case UpsertMastery(_, outcome) => outcome.Done?
      case _ => true
  }

  lemma WriterStays(s: State, a: Action, k: Key, id: nat, clean: bool)
    requires Enabled(s, a) && WillWrite(s, k, id, clean) && (clean ==> Clean(s, a, k))
    requires !(a.UpsertMastery? && a.id == id)
    ensures WillWrite(Next(s, a), k, id, clean)
    ensures Base(Next(s, a).requests[id].phase) == Base(s.requests[id].phase)
  {
  }

  lemma OwedNeverFalls(s: State, a: Action, k: Key)
    requires Enabled(s, a)
    ensures Owed(s, k) <= Owed(Next(s, a), k)
  {
    OwedStep(s, a, k);
  }

  /** Once the row and everyone in flight are behind, they remain so. */
  lemma BehindStays(s: State, a: Action, k: Key)
    requires Enabled(s, a) && Behind(s, k)
    ensures Behind(Next(s, a), k)
  {
    var s' := Next(s, a);
    OwedStep(s, a, k);
    CountedStep(s, a, k);
    if KeyOf(s, a) == k && a.UpsertMastery? { assert Flying(s, k, a.id); }
    forall id | Flying(s', k, id) ensures Base(s'.requests[id].phase) < Owed(s', k) {
      FlyingStep(s, a, k, id);
    }
  }

  /** They fall behind when more is owed and no current row is written. */
  lemma FallsBehind(s: State, current: set<nat>, a: Action, k: Key)
    requires Bounded(s, current, k) && Enabled(s, a) && OwedAfter(s, a, k) > Owed(s, k)
    requires a.UpsertMastery? && !a.outcome.Refused? ==> Base(s.requests[a.id].phase) < Owed(s, k)
    ensures Behind(Next(s, a), k)
  {
    var s' := Next(s, a);
    OwedStep(s, a, k);
    CountedStep(s, a, k);
    forall id | Flying(s', k, id) ensures Base(s'.requests[id].phase) < Owed(s', k) {
      FlyingStep(s, a, k, id);
    }
  }

  lemma LostStays(s: State, current: set<nat>, a: Action, k: Key, clean: bool)
    requires Bounded(s, current, k) && Enabled(s, a) && Lost(s, k, clean) && (clean ==> Clean(s, a, k))
    ensures Lost(Next(s, a), k, clean)
  {
    var s' := Next(s, a);
    OwedNeverFalls(s, a, k);
    if exists id :: WillWrite(s, k, id, clean) && Base(s.requests[id].phase) < Owed(s, k) {
      var id :| WillWrite(s, k, id, clean) && Base(s.requests[id].phase) < Owed(s, k);
      if a.UpsertMastery? && a.id == id {
        FallsBehind(s, current, a, k);
      } else {
        WriterStays(s, a, k, id, clean);
      }
    } else if exists i, j :: i != j && WillWrite(s, k, i, clean) && WillWrite(s, k, j, clean) {
      var i, j :| i != j && WillWrite(s, k, i, clean) && WillWrite(s, k, j, clean);
      if !(a.UpsertMastery? && a.id == i) { WriterStays(s, a, k, i, clean); }
      if !(a.UpsertMastery? && a.id == j) { WriterStays(s, a, k, j, clean); }
      OwedStep(s, a, k);
    } else {
      BehindStays(s, a, k);
    }
  }

  lemma {:induction false} LostForever(s: State, current: set<nat>, run: seq<Action>, k: Key)
    requires Bounded(s, current, k) && Valid(s, run) && Lost(s, k, false)
    ensures Counted(Run(s, run), k) < |LogOf(Run(s, run).log, k)|
    decreases run
  {
    if run == [] {
      if !(Counted(s, k) < Owed(s, k)) {
        var id :| WillWrite(s, k, id, false);
        assert id in Waiting(s, k);
      }
    } else {
      StepBounded(s, current, run[0], k);
      LostStays(s, current, run[0], k, false);
      LostForever(Next(s, run[0]), Current(s, current, run[0], k), run[1..], k);
    }
  }

  // ---- serial steps lose nothing, others lose an answer --------------------------------

  ghost predicate UpToDate(s: State, current: set<nat>, k: Key) {
    && Counted(s, k) == Owed(s, k)
    && (forall id | Flying(s, k, id) && (id in current || s.requests[id].phase.Recorded?) ::
          Base(s.requests[id].phase) == Owed(s, k))
    && (forall i, j | i in Waiting(s, k) && j in Waiting(s, k) :: i == j)
  }

  lemma SerialStep(s: State, current: set<nat>, a: Action, k: Key)
    requires UpToDate(s, current, k) && Enabled(s, a) && Serial(s, current, a, k)
    ensures UpToDate(Next(s, a), Current(s, current, a, k), k)
  {
    var s', current' := Next(s, a), Current(s, current, a, k);
    OwedStep(s, a, k);
    CountedStep(s, a, k);
    WaitingAfter(s, a, k);
    if KeyOf(s, a) == k && a.UpsertMastery? { assert a.id in Waiting(s, k); }
    forall id | Flying(s', k, id) && (id in current' || s'.requests[id].phase.Recorded?)
      ensures Base(s'.requests[id].phase) == Owed(s', k)
    {
      FlyingStep(s, a, k, id);
      if id != a.id { OthersStay(s, a, id); }
    }
    forall i, j | i in Waiting(s', k) && j in Waiting(s', k) ensures i == j {
      if i != a.id { assert i in Waiting(s, k); }
      if j != a.id { assert j in Waiting(s, k); }
    }
  }

  lemma UnserialStep(s: State, current: set<nat>, a: Action, k: Key)
    requires Bounded(s, current, k) && Enabled(s, a) && !Serial(s, current, a, k)
    ensures Lost(Next(s, a), k, false)
  {
    var s' := Next(s, a);
    OwedStep(s, a, k);
    if a.RecordAttempt? && a.outcome.Done? {
      assert Flying(s, k, a.id) && WillWrite(s', k, a.id, false);
      if a.id in current {
        var other :| other in Waiting(s, k);
        OthersStay(s, a, other);
        assert WillWrite(s', k, other, false);
      }
    } else {
      FallsBehind(s, current, a, k);
    }
  }

  lemma {:induction false} SerialDecides(s: State, current: set<nat>, run: seq<Action>, k: Key)
    requires Bounded(s, current, k) && UpToDate(s, current, k) && Valid(s, run)
    ensures var s' := Run(s, run);
      Counted(s', k) == |LogOf(s'.log, k)| <==> SerialRun(s, current, run, k) && Settled(s', k)
    decreases run
  {
    if run == [] {
      assert |Waiting(s, k)| == 0 <==> Waiting(s, k) == {};
    } else {
      var next, current' := Next(s, run[0]), Current(s, current, run[0], k);
      StepBounded(s, current, run[0], k);
      if Serial(s, current, run[0], k) {
        SerialStep(s, current, run[0], k);
        SerialDecides(next, current', run[1..], k);
      } else {
        UnserialStep(s, current, run[0], k);
        LostForever(next, current', run[1..], k);
      }
    }
  }

  lemma NothingYet(k: Key)
    ensures Bounded(EMPTY, {}, k) && UpToDate(EMPTY, {}, k)
  {
    assert Waiting(EMPTY, k) == {};
  }

  lemma CountDecides(run: seq<Action>, k: Key)
    requires Valid(EMPTY, run)
    ensures var s := Run(EMPTY, run);
      RowOrFresh(s.rows, k) == Replay(LogOf(s.log, k)) <==> Counted(s, k) == |LogOf(s.log, k)|
  {
    var s := Run(EMPTY, run);
    EveryAnswerCounts(LogOf(s.log, k));
    if k in s.rows { RowsFoldTheirLog(run, k); }
  }

  /**
   * Exactly when nothing is lost, for every run with any interleaving and any failures: the row of
   * `k` is the fold of its whole log if and only if every attempt on `k` was logged by a request
   * that had loaded since the last write of the row, while no other attempt was waiting, and was
   * followed by its write. Nothing is asked of other cards.
   */
  lemma NothingLostExactly(run: seq<Action>, k: Key)
    requires Valid(EMPTY, run)
    ensures var s := Run(EMPTY, run);
      RowOrFresh(s.rows, k) == Replay(LogOf(s.log, k)) <==> SerialRun(EMPTY, {}, run, k) && Settled(s, k)
  {
    NothingYet(k);
    SerialDecides(EMPTY, {}, run, k);
    CountDecides(run, k);
  }

  // ---- requests that do not overlap ----------------------------------------------------

  ghost predicate AllThrough(s: State, k: Key) { forall id :: !Flying(s, k, id) }

  /** No request on `k` loads while another one is in flight. */
  ghost predicate Apart(s: State, a: Action, k: Key)
    requires Enabled(s, a)
  {
    KeyOf(s, a) == k && a.Load? && a.ok ==> AllThrough(s, k)
  }

  ghost predicate ApartRun(s: State, run: seq<Action>, k: Key)
    requires Valid(s, run)
    decreases run
  {
    run == [] || (Apart(s, run[0], k) && ApartRun(Next(s, run[0]), run[1..], k))
  }

  ghost predicate CleanRun(s: State, run: seq<Action>, k: Key)
    requires Valid(s, run)
    decreases run
  {
    run == [] || (Clean(s, run[0], k) && CleanRun(Next(s, run[0]), run[1..], k))
  }

  /** No write on `k` fails in a way that leaves an attempt logged but not counted. */
  predicate Whole(s: State, a: Action, k: Key)
    requires Enabled(s, a)
  {
    KeyOf(s, a) == k ==>
      (a.RecordAttempt? ==> !a.outcome.LostReply?) && (a.UpsertMastery? ==> !a.outcome.Refused?)
  }

  ghost predicate WholeRun(s: State, run: seq<Action>, k: Key)
    requires Valid(s, run)
    decreases run
  {
    run == [] || (Whole(s, run[0], k) && WholeRun(Next(s, run[0]), run[1..], k))
  }

  ghost predicate OneInFlight(s: State, current: set<nat>, k: Key) {
    && (forall i, j | Flying(s, k, i) && Flying(s, k, j) :: i == j)
    && (forall id | Flying(s, k, id) :: id in current || s.requests[id].phase.Recorded?)
  }

  lemma ApartStep(s: State, current: set<nat>, a: Action, k: Key)
    requires OneInFlight(s, current, k) && Enabled(s, a) && Apart(s, a, k) && Whole(s, a, k)
    ensures Serial(s, current, a, k) && OneInFlight(Next(s, a), Current(s, current, a, k), k)
  {
    var s', current' := Next(s, a), Current(s, current, a, k);
    if KeyOf(s, a) == k && a.UpsertMastery? { assert Flying(s, k, a.id); }
    forall id | Flying(s', k, id) ensures id in current' || s'.requests[id].phase.Recorded? {
      FlyingStep(s, a, k, id);
      if id != a.id { OthersStay(s, a, id); }
    }
    forall i, j | Flying(s', k, i) && Flying(s', k, j) ensures i == j {
      FlyingStep(s, a, k, i);
      FlyingStep(s, a, k, j);
    }
    if KeyOf(s, a) == k && a.RecordAttempt? {
      assert Flying(s, k, a.id);
      assert forall id | id in Waiting(s, k) :: Flying(s, k, id);
    }
  }

  lemma {:induction false} ApartIsSerial(s: State, current: set<nat>, run: seq<Action>, k: Key)
    requires OneInFlight(s, current, k) && Valid(s, run) && ApartRun(s, run, k) && WholeRun(s, run, k)
    ensures SerialRun(s, current, run, k)
    decreases run
  {
    if run != [] {
      ApartStep(s, current, run[0], k);
      ApartIsSerial(Next(s, run[0]), Current(s, current, run[0], k), run[1..], k);
    }
  }

  /** Requests that do not overlap and leave no write half done lose nothing; other failures are allowed. */
  lemma RequestsApartFoldTheWholeLog(run: seq<Action>, k: Key)
    requires Valid(EMPTY, run) && ApartRun(EMPTY, run, k) && WholeRun(EMPTY, run, k)
    requires Settled(Run(EMPTY, run), k)
    ensures var s := Run(EMPTY, run);
      RowOrFresh(s.rows, k) == Replay(LogOf(s.log, k)) && Counted(s, k) == |LogOf(s.log, k)|
  {
    ApartIsSerial(EMPTY, {}, run, k);
    NothingLostExactly(run, k);
    CountDecides(run, k);
  }

  lemma CleanIsWhole(s: State, run: seq<Action>, k: Key)
    requires Valid(s, run) && CleanRun(s, run, k)
    ensures WholeRun(s, run, k)
    decreases run
  {
  }

  lemma {:induction false} LostForeverIfClean(s: State, current: set<nat>, run: seq<Action>, k: Key)
    requires Bounded(s, current, k) && Valid(s, run) && CleanRun(s, run, k) && Lost(s, k, true)
    requires AllThrough(Run(s, run), k)
    ensures Counted(Run(s, run), k) < |LogOf(Run(s, run).log, k)|
    decreases run
  {
    if run != [] {
      StepBounded(s, current, run[0], k);
      LostStays(s, current, run[0], k, true);
      LostForeverIfClean(Next(s, run[0]), Current(s, current, run[0], k), run[1..], k);
    }
  }

  lemma {:induction false} OverlapIsLost(s: State, current: set<nat>, run: seq<Action>, k: Key)
    requires Bounded(s, current, k) && Valid(s, run) && CleanRun(s, run, k) && !ApartRun(s, run, k)
    requires AllThrough(Run(s, run), k)
    ensures Counted(Run(s, run), k) < |LogOf(Run(s, run).log, k)|
    decreases run
  {
    var a, s' := run[0], Next(s, run[0]);
    StepBounded(s, current, a, k);
    if Apart(s, a, k) {
      OverlapIsLost(s', Current(s, current, a, k), run[1..], k);
    } else {
      var other :| Flying(s, k, other);
      OthersStay(s, a, other);
      assert WillWrite(s', k, other, true) && WillWrite(s', k, a.id, true);
      LostForeverIfClean(s', Current(s, current, a, k), run[1..], k);
    }
  }

  /** When no call on `k` fails and all its requests are through, nothing is lost exactly when none overlapped. */
  lemma CleanRunsLoseExactlyByOverlap(run: seq<Action>, k: Key)
    requires Valid(EMPTY, run) && CleanRun(EMPTY, run, k) && AllThrough(Run(EMPTY, run), k)
    ensures var s := Run(EMPTY, run);
      RowOrFresh(s.rows, k) == Replay(LogOf(s.log, k)) <==> ApartRun(EMPTY, run, k)
  {
    NothingYet(k);
    CountDecides(run, k);
    if ApartRun(EMPTY, run, k) {
      CleanIsWhole(EMPTY, run, k);
      assert forall id | id in Waiting(Run(EMPTY, run), k) :: Flying(Run(EMPTY, run), k, id);
      RequestsApartFoldTheWholeLog(run, k);
    } else {
      OverlapIsLost(EMPTY, {}, run, k);
    }
  }

  // ---- a lost update -------------------------------------------------------------------

  function TwoRequests(k: Key, p: Phase, q: Phase): map<nat, Request> {
    map[0 := Request(k, true, p), 1 := Request(k, true, q)]
  }

  /** Two requests for one card, both loaded before either has written. */
  lemma BothLoaded(k: Key) returns (run: seq<Action>)
    ensures Valid(EMPTY, run) && Run(EMPTY, run) == State(map[], [], TwoRequests(k, Loaded(FRESH), Loaded(FRESH)))
  {
    run := [];
    RunThen(EMPTY, run, Arrive(0, k, true)); run := run + [Arrive(0, k, true)];
    RunThen(EMPTY, run, Arrive(1, k, true)); run := run + [Arrive(1, k, true)];
    RunThen(EMPTY, run, Load(0, true)); run := run + [Load(0, true)];
    RunThen(EMPTY, run, Load(1, true)); run := run + [Load(1, true)];
  }

  lemma BothRecorded(k: Key) returns (run: seq<Action>)
    ensures Valid(EMPTY, run)
    ensures Run(EMPTY, run) == State(map[], [Attempt(k, true), Attempt(k, true)],
                                     TwoRequests(k, Recorded(Step(FRESH, true)), Recorded(Step(FRESH, true))))
  {
    run := BothLoaded(k);
    RunThen(EMPTY, run, Process(0)); run := run + [Process(0)];
    RunThen(EMPTY, run, Process(1)); run := run + [Process(1)];
    RunThen(EMPTY, run, RecordAttempt(0, Done)); run := run + [RecordAttempt(0, Done)];
    RunThen(EMPTY, run, RecordAttempt(1, Done)); run := run + [RecordAttempt(1, Done)];
  }

  /** Two overlapping answers: both are logged, only one is counted. */
  lemma OverlapLosesAnUpdate(k: Key) returns (run: seq<Action>)
    ensures Valid(EMPTY, run) && k in Run(EMPTY, run).rows && Settled(Run(EMPTY, run), k)
    ensures |LogOf(Run(EMPTY, run).log, k)| == 2 && Run(EMPTY, run).rows[k].totalAttempts == 1
  {
    run := BothRecorded(k);
    RunThen(EMPTY, run, UpsertMastery(0, Done)); run := run + [UpsertMastery(0, Done)];
    RunThen(EMPTY, run, UpsertMastery(1, Done)); run := run + [UpsertMastery(1, Done)];
    var e := Attempt(k, true);
    LogOfAppend([e], e, k);
    LogOfAppend([], e, k);
    assert [] + [e] == [e] && [e] + [e] == [e, e];
  }
}
