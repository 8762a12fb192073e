/**
 * Answer submission for signed-in users: load the mastery row, process the answer in memory,
 * append to the attempt log, overwrite the row. There is no transaction, so the steps of
 * concurrent requests interleave freely and each database call may fail, before or after it
 * took effect.
 */
module AnswerProtocol {
  import opened Mastery

  datatype Key = Key(user: string, card: string)

  datatype Attempt = Attempt(key: Key, correct: bool)

  datatype Phase =
    | Arrived
    | Loaded(row: Row)
    | Processed(row: Row, verdict: bool)
    | Recorded(row: Row)
    | Finished
    | Aborted

  /** `verdict` is what the answer check will say of the submitted answer. */
  datatype Request = Request(key: Key, verdict: bool, phase: Phase)

  datatype State = State(rows: map<Key, Row>, log: seq<Attempt>, requests: map<nat, Request>)

  /** How a database write ends: done, refused, or reported as failed although it was applied. */
  datatype Outcome = Done | Refused | LostReply

  datatype Action =
    | Arrive(id: nat, key: Key, verdict: bool)
    | Load(id: nat, ok: bool)
    | Process(id: nat)
    | RecordAttempt(id: nat, outcome: Outcome)
    | UpsertMastery(id: nat, outcome: Outcome)

  function RowOrFresh(rows: map<Key, Row>, k: Key): Row {
    if k in rows then rows[k] else FRESH
  }

  predicate Enabled(s: State, a: Action) {
    match a
    case Arrive(id, _, _) => id !in s.requests
    case Load(id, _) => id in s.requests && s.requests[id].phase.Arrived?
    case Process(id) => id in s.requests && s.requests[id].phase.Loaded?
    case RecordAttempt(id, _) => id in s.requests && s.requests[id].phase.Processed?
    case UpsertMastery(id, _) => id in s.requests && s.requests[id].phase.Recorded?
  }

  function Goto(s: State, id: nat, phase: Phase): State
    requires id in s.requests
  {
    s.(requests := s.requests[id := s.requests[id].(phase := phase)])
  }

  function Next(s: State, a: Action): State
    requires Enabled(s, a)
  {
    match a
    case Arrive(id, k, verdict) => s.(requests := s.requests[id := Request(k, verdict, Arrived)])
    case Load(id, ok) =>
      Goto(s, id, if ok then Loaded(RowOrFresh(s.rows, s.requests[id].key)) else Aborted)
    case Process(id) =>
      var r := s.requests[id];
      Goto(s, id, Processed(Step(r.phase.row, r.verdict), r.verdict))
    case RecordAttempt(id, outcome) =>
      var r := s.requests[id];
      var s' := if outcome.Refused? then s else s.(log := s.log + [Attempt(r.key, r.phase.verdict)]);
      Goto(s', id, if outcome.Done? then Recorded(r.phase.row) else Aborted)
    case UpsertMastery(id, outcome) =>
      var r := s.requests[id];
      var s' := if outcome.Refused? then s else s.(rows := s.rows[r.key := r.phase.row]);
      Goto(s', id, if outcome.Done? then Finished else Aborted)
  }

  const EMPTY: State := State(map[], [], map[])

  ghost predicate Valid(s: State, run: seq<Action>)
    decreases run
  {
    run == [] || (Enabled(s, run[0]) && Valid(Next(s, run[0]), run[1..]))
  }

  function Run(s: State, run: seq<Action>): State
    requires Valid(s, run)
    decreases run
  {
    if run == [] then s else Run(Next(s, run[0]), run[1..])
  }

  /** The verdicts logged for one user and card, oldest first. */
  function LogOf(log: seq<Attempt>, k: Key): seq<bool> {
    if log == [] then []
    else
      var last := log[|log| - 1];
      LogOf(log[..|log| - 1], k) + if last.key == k then [last.correct] else []
  }

  // ---- subsequences --------------------------------------------------------------------

  ghost predicate Subsequence(a: seq<bool>, h: seq<bool>)
    decreases h
  {
    if a == [] then true
    else if h == [] then false
    else
      || Subsequence(a, h[..|h| - 1])
      || (a[|a| - 1] == h[|h| - 1] && Subsequence(a[..|a| - 1], h[..|h| - 1]))
  }

  lemma SubsequenceGrows(a: seq<bool>, h: seq<bool>, x: bool)
    requires Subsequence(a, h)
    ensures Subsequence(a, h + [x]) && Subsequence(a + [x], h + [x])
  {
    assert (h + [x])[..|h|] == h && (a + [x])[..|a|] == a;
  }

  lemma {:induction false} SubsequenceLength(a: seq<bool>, h: seq<bool>)
    requires Subsequence(a, h)
    ensures |a| <= |h|
    ensures |a| == |h| ==> a == h
    decreases h
  {
    if a != [] {
      var front := h[..|h| - 1];
      if Subsequence(a, front) {
        SubsequenceLength(a, front);
      } else {
        SubsequenceLength(a[..|a| - 1], front);
        assert a == a[..|a| - 1] + [a[|a| - 1]] && h == front + [h[|h| - 1]];
      }
    }
  }

  /** The row is the fold of the answer step over some of the logged attempts, in log order. */
  ghost predicate Explains(h: seq<bool>, m: Row) {
    exists a :: Subsequence(a, h) && m == Replay(a)
  }

  lemma ExplainsGrows(h: seq<bool>, m: Row, x: bool)
    requires Explains(h, m)
    ensures Explains(h + [x], m) && Explains(h + [x], Step(m, x))
  {
    var a :| Subsequence(a, h) && m == Replay(a);
    SubsequenceGrows(a, h, x);
    assert (a + [x])[..|a|] == a;
    assert Step(m, x) == Replay(a + [x]);
  }

  // ---- safety in every interleaving ----------------------------------------------------

  ghost predicate PhaseExplained(h: seq<bool>, p: Phase) {
    match p
    case Loaded(m) => Explains(h, m)
    case Processed(m, v) => exists before :: Explains(h, before) && m == Step(before, v)
    case Recorded(m) => Explains(h, m)
    case _ => true
  }

  ghost predicate Inv(s: State) {
    && (forall k | k in s.rows :: Explains(LogOf(s.log, k), s.rows[k]))
    && (forall id | id in s.requests :: PhaseExplained(LogOf(s.log, s.requests[id].key), s.requests[id].phase))
  }

  lemma LogOfAppend(log: seq<Attempt>, e: Attempt, k: Key)
    ensures LogOf(log + [e], k) == if e.key == k then LogOf(log, k) + [e.correct] else LogOf(log, k)
  {
    assert (log + [e])[..|log|] == log;
  }

  lemma PhaseGrows(h: seq<bool>, p: Phase, x: bool)
    requires PhaseExplained(h, p)
    ensures PhaseExplained(h + [x], p)
  {
    match p
    case Loaded(m) => ExplainsGrows(h, m, x);
    case Recorded(m) => ExplainsGrows(h, m, x);
    case Processed(m, v) =>
      var before :| Explains(h, before) && m == Step(before, v);
      ExplainsGrows(h, before, x);
    case _ =>
  }

  /** Appending to the log keeps every explanation. */
  lemma LogGrows(s: State, e: Attempt)
    requires Inv(s)
    ensures Inv(s.(log := s.log + [e]))
  {
    var s' := s.(log := s.log + [e]);
    forall k | k in s'.rows ensures Explains(LogOf(s'.log, k), s'.rows[k]) {
      LogOfAppend(s.log, e, k);
      if e.key == k { ExplainsGrows(LogOf(s.log, k), s.rows[k], e.correct); }
    }
    forall id | id in s'.requests ensures PhaseExplained(LogOf(s'.log, s'.requests[id].key), s'.requests[id].phase) {
      LogOfAppend(s.log, e, s.requests[id].key);
      if e.key == s.requests[id].key { PhaseGrows(LogOf(s.log, e.key), s.requests[id].phase, e.correct); }
    }
  }

  lemma FreshExplained(h: seq<bool>)
    ensures Explains(h, FRESH)
  {
    assert Subsequence([], h) && Replay([]) == FRESH;
  }

  /** A request may move to any phase the log explains. */
  lemma GotoKeepsInv(s: State, id: nat, p: Phase)
    requires Inv(s) && id in s.requests && PhaseExplained(LogOf(s.log, s.requests[id].key), p)
    ensures Inv(Goto(s, id, p))
  {
  }

  lemma RecordKeepsInv(s: State, id: nat, outcome: Outcome)
    requires Inv(s) && Enabled(s, RecordAttempt(id, outcome))
    ensures Inv(Next(s, RecordAttempt(id, outcome)))
  {
    var r := s.requests[id];
    if outcome.Refused? {
      GotoKeepsInv(s, id, Aborted);
    } else {
      var h := LogOf(s.log, r.key);
      var before :| Explains(h, before) && r.phase.row == Step(before, r.phase.verdict);
      var e := Attempt(r.key, r.phase.verdict);
      LogGrows(s, e);
      LogOfAppend(s.log, e, r.key);
      ExplainsGrows(h, before, r.phase.verdict);
      GotoKeepsInv(s.(log := s.log + [e]), id, if outcome.Done? then Recorded(r.phase.row) else Aborted);
    }
  }

  lemma UpsertKeepsInv(s: State, id: nat, outcome: Outcome)
    requires Inv(s) && Enabled(s, UpsertMastery(id, outcome))
    ensures Inv(Next(s, UpsertMastery(id, outcome)))
  {
    var r := s.requests[id];
    if outcome.Refused? {
      GotoKeepsInv(s, id, Aborted);
    } else {
      GotoKeepsInv(s.(rows := s.rows[r.key := r.phase.row]), id, if outcome.Done? then Finished else Aborted);
    }
  }

  lemma StepKeepsInv(s: State, a: Action)
    requires Inv(s) && Enabled(s, a)
    ensures Inv(Next(s, a))
  {
    match a
    case Arrive(_, _, _) =>
    case Load(id, ok) =>
      FreshExplained(LogOf(s.log, s.requests[id].key));
      GotoKeepsInv(s, id, if ok then Loaded(RowOrFresh(s.rows, s.requests[id].key)) else Aborted);
    case Process(id) =>
      var r := s.requests[id];
      GotoKeepsInv(s, id, Processed(Step(r.phase.row, r.verdict), r.verdict));
    case RecordAttempt(id, outcome) => RecordKeepsInv(s, id, outcome);
    case UpsertMastery(id, outcome) => UpsertKeepsInv(s, id, outcome);
  }

  lemma {:induction false} RunKeepsInv(s: State, run: seq<Action>)
    requires Inv(s) && Valid(s, run)
    ensures Inv(Run(s, run))
    decreases run
  {
    if run != [] {
      StepKeepsInv(s, run[0]);
      RunKeepsInv(Next(s, run[0]), run[1..]);
    }
  }

  /**
   * In every interleaving, with any failures, each stored row is the fold of a subsequence of its
   * attempt log: it never counts an answer that was not logged, nor counts one twice.
   */
  lemma RowsFoldTheirLog(run: seq<Action>, k: Key)
    requires Valid(EMPTY, run) && k in Run(EMPTY, run).rows
    ensures var s := Run(EMPTY, run);
      && Explains(LogOf(s.log, k), s.rows[k])
      && 0 <= s.rows[k].totalAttempts <= |LogOf(s.log, k)|
      && (s.rows[k].totalAttempts == |LogOf(s.log, k)| <==> s.rows[k] == Replay(LogOf(s.log, k)))
  {
    RunKeepsInv(EMPTY, run);
    var s := Run(EMPTY, run);
    var h := LogOf(s.log, k);
    var a :| Subsequence(a, h) && s.rows[k] == Replay(a);
    SubsequenceLength(a, h);
    EveryAnswerCounts(a);
    EveryAnswerCounts(h);
  }

  /** So whatever the interleaving, a stored row never passes both the mastered and the struggling test. */
  lemma StoredRowsClassify(run: seq<Action>, k: Key)
    requires Valid(EMPTY, run) && k in Run(EMPTY, run).rows
    ensures var m := Run(EMPTY, run).rows[k]; !(IsMastered(m) && IsStruggling(m)) && 0 <= m.stage <= MAX_STAGE
  {
    RunKeepsInv(EMPTY, run);
    var s := Run(EMPTY, run);
    var a :| Subsequence(a, LogOf(s.log, k)) && s.rows[k] == Replay(a);
    TestsAreDisjoint(a);
    StageWithinBounds(a);
  }

  // ---- the log is what was answered ----------------------------------------------------

  /** Every logged attempt is a request's answer, with the verdict on that answer. */
  ghost predicate LogIsOfRequests(s: State) {
    && (forall id | id in s.requests && s.requests[id].phase.Processed? ::
          s.requests[id].phase.verdict == s.requests[id].verdict)
    && (forall i :: 0 <= i < |s.log| ==> WasAnswered(s, s.log[i]))
  }

  ghost predicate WasAnswered(s: State, e: Attempt) {
    exists id :: id in s.requests && IsAnswerOf(e, s.requests[id])
  }

  predicate IsAnswerOf(e: Attempt, r: Request) { e.key == r.key && e.correct == r.verdict }

  lemma StepLogsVerdicts(s: State, a: Action)
    requires LogIsOfRequests(s) && Enabled(s, a)
    ensures LogIsOfRequests(Next(s, a))
  {
    var s' := Next(s, a);
    forall i | 0 <= i < |s'.log| ensures WasAnswered(s', s'.log[i]) {
      if i < |s.log| {
        assert s'.log[i] == s.log[i] && WasAnswered(s, s.log[i]);
        var id :| id in s.requests && IsAnswerOf(s.log[i], s.requests[id]);
        assert id in s'.requests && IsAnswerOf(s'.log[i], s'.requests[id]);
      } else {
        assert a.id in s'.requests && IsAnswerOf(s'.log[i], s'.requests[a.id]);
      }
    }
  }

  lemma {:induction false} RunLogsVerdicts(s: State, run: seq<Action>)
    requires LogIsOfRequests(s) && Valid(s, run)
    ensures LogIsOfRequests(Run(s, run))
    decreases run
  {
    if run != [] {
      StepLogsVerdicts(s, run[0]);
      RunLogsVerdicts(Next(s, run[0]), run[1..]);
    }
  }

  /** In every interleaving, whatever is logged was answered, by that user, to that card, with that verdict. */
  lemma EveryAttemptWasSubmitted(run: seq<Action>, i: nat)
    requires Valid(EMPTY, run) && i < |Run(EMPTY, run).log|
    ensures var s := Run(EMPTY, run); WasAnswered(s, s.log[i])
  {
    RunLogsVerdicts(EMPTY, run);
  }

  /** The log only grows. */
  lemma {:induction false} LogIsAppendOnly(s: State, run: seq<Action>)
    requires Valid(s, run)
    ensures s.log <= Run(s, run).log
    decreases run
  {
    if run != [] {
      LogIsAppendOnly(Next(s, run[0]), run[1..]);
    }
  }

  lemma ReplayOne(h: seq<bool>, v: bool)
    ensures Replay(h + [v]) == Step(Replay(h), v)
  {
    assert (h + [v])[..|h|] == h;
  }

  lemma {:induction false} RunThen(s: State, run: seq<Action>, a: Action)
    requires Valid(s, run) && Enabled(Run(s, run), a)
    ensures Valid(s, run + [a]) && Run(s, run + [a]) == Next(Run(s, run), a)
    decreases run
  {
    if run == [] {
      assert [] + [a] == [a] && [a][1..] == [];
    } else {
      assert (run + [a])[1..] == run[1..] + [a];
      RunThen(Next(s, run[0]), run[1..], a);
    }
  }
}
