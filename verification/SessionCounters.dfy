/**
 * The session counters under concurrent requests. The endpoint takes the session lock three
 * separate times: to count the answer, to read the progress and to pick the next card. Requests on
 * one session interleave between these.
 */
module SessionCounters {
  import opened Seqs
  import opened Handler

  datatype Phase =
    | Checked
    | CountedIn
    | Told(progress: Progress)
    | Replied(progress: Progress, next: Option<string>)

  /** A request past the mastery update; `verdict` is what the answer check said. */
  datatype Request = Request(sessionId: string, verdict: bool, phase: Phase)

  datatype State = State(sessions: map<string, SessionState>, requests: map<nat, Request>)

  /** Session ids are fresh, and sessions are never removed. */
  datatype Action =
    | StartSession(sessionId: string, cards: seq<string>)
    | Submit(id: nat, sessionId: string, verdict: bool)
    | UpdateProgress(id: nat)
    | ReadProgress(id: nat)
    | ReadNextCard(id: nat)

  predicate Enabled(s: State, a: Action) {
    match a
    case StartSession(sessionId, _) => sessionId !in s.sessions
    case Submit(id, sessionId, _) => id !in s.requests && sessionId in s.sessions
    case UpdateProgress(id) => At(s, id) && s.requests[id].phase.Checked?
    case ReadProgress(id) => At(s, id) && s.requests[id].phase.CountedIn?
    case ReadNextCard(id) => At(s, id) && s.requests[id].phase.Told?
  }

  predicate At(s: State, id: nat) {
    id in s.requests && s.requests[id].sessionId in s.sessions
  }

  function Goto(s: State, id: nat, phase: Phase): State
    requires id in s.requests
  {
    s.(requests := s.requests[id := s.requests[id].(phase := phase)])
  }

  function Next(s: State, a: Action): State
    requires Enabled(s, a)
  {
    match a
    case StartSession(sessionId, cards) => s.(sessions := s.sessions[sessionId := NewSession(cards)])
    case Submit(id, sessionId, verdict) => s.(requests := s.requests[id := Request(sessionId, verdict, Checked)])
    case UpdateProgress(id) =>
      var r := s.requests[id];
      Goto(s.(sessions := s.sessions[r.sessionId := Counted(s.sessions[r.sessionId], r.verdict)]), id, CountedIn)
    case ReadProgress(id) => Goto(s, id, Told(ProgressOf(s.sessions[s.requests[id].sessionId])))
    case ReadNextCard(id) =>
      var r := s.requests[id];
      Goto(s, id, Replied(r.phase.progress, NextCard(s.sessions[r.sessionId])))
  }

  const EMPTY: State := State(map[], map[])

  ghost predicate Valid(s: State, run: seq<Action>)
    decreases run
  {
    run == [] || (Enabled(s, run[0]) && Valid(Next(s, run[0]), run[1..]))
  }

  function Run(s: State, run: seq<Action>): State
    requires Valid(s, run)
    decreases run
  {
    if run == [] then s else Run(Next(s, run[0]), run[1..])
  }

  // ---- no count is lost ----------------------------------------------------------------

  /** The requests on a session that have been counted. */
  function CountedOn(s: State, sessionId: string): set<nat> {
    set id | id in s.requests && s.requests[id].sessionId == sessionId && !s.requests[id].phase.Checked?
  }

  function RightOn(s: State, sessionId: string): set<nat> {
    set id | id in CountedOn(s, sessionId) && s.requests[id].verdict
  }

  ghost predicate CountersMatch(s: State) {
    && (forall id | id in s.requests :: s.requests[id].sessionId in s.sessions)
    && (forall x | x in s.sessions :: Tallied(s, x))
  }

  ghost predicate Tallied(s: State, x: string)
    requires x in s.sessions
  {
    s.sessions[x].answered == |CountedOn(s, x)| && s.sessions[x].correct == |RightOn(s, x)|
  }

  lemma OthersStay(s: State, a: Action, id: nat)
    requires Enabled(s, a) && id in s.requests && (a.StartSession? || id != a.id)
    ensures id in Next(s, a).requests && Next(s, a).requests[id] == s.requests[id]
  {
  }

  lemma CountedAfter(s: State, a: Action, x: string)
    requires Enabled(s, a)
    ensures var mine := a.UpdateProgress? && s.requests[a.id].sessionId == x;
      && CountedOn(Next(s, a), x) == CountedOn(s, x) + (if mine then {a.id} else {})
      && RightOn(Next(s, a), x) == RightOn(s, x) + (if mine && s.requests[a.id].verdict then {a.id} else {})
      && (a.UpdateProgress? ==> a.id !in CountedOn(s, x))
  {
    forall id | id in s.requests && (a.StartSession? || id != a.id)
      ensures id in CountedOn(Next(s, a), x) <==> id in CountedOn(s, x)
      ensures id in RightOn(Next(s, a), x) <==> id in RightOn(s, x)
    {
      OthersStay(s, a, id);
    }
  }

  lemma StepTallies(s: State, a: Action, x: string)
    requires CountersMatch(s) && Enabled(s, a) && x in Next(s, a).sessions
    ensures Tallied(Next(s, a), x)
  {
    CountedAfter(s, a, x);
    if x in s.sessions {
      assert Tallied(s, x);
    } else {
      assert CountedOn(s, x) == {} && RightOn(s, x) == {};
    }
  }

  lemma StepKeepsCounters(s: State, a: Action)
    requires CountersMatch(s) && Enabled(s, a)
    ensures CountersMatch(Next(s, a))
  {
    var s' := Next(s, a);
    forall x | x in s'.sessions ensures Tallied(s', x) { StepTallies(s, a, x); }
    forall id | id in s'.requests ensures s'.requests[id].sessionId in s'.sessions {
      if a.StartSession? || id != a.id { OthersStay(s, a, id); }
    }
  }

  // ---- what a reply says ---------------------------------------------------------------

  /** A progress report of a session that has since only moved on. */
  ghost predicate Reports(p: Progress, ss: SessionState, verdict: bool) {
    && 1 <= p.answered <= ss.answered && p.total == |ss.cards|
    && p.correct + p.incorrect == p.answered
    && (if verdict then 1 else 0) <= p.correct <= ss.correct
    && (if verdict then 0 else 1) <= p.incorrect <= ss.answered - ss.correct
  }

  /** The card at some count between the report and now. */
  ghost predicate PickedSince(p: Progress, next: Option<string>, ss: SessionState) {
    exists n :: p.answered <= n <= ss.answered && next == CardAt(ss.cards, n)
  }

  function CardAt(cards: seq<string>, n: int): Option<string> {
    if 0 <= n < |cards| then Some(cards[n]) else None
  }

  ghost predicate Answered(s: State, id: nat)
    requires At(s, id)
  {
    var r, ss := s.requests[id], s.sessions[s.requests[id].sessionId];
    match r.phase
    case Told(p) => Reports(p, ss, r.verdict)
    case Replied(p, next) => Reports(p, ss, r.verdict) && PickedSince(p, next, ss)
    case _ => true
  }

  ghost predicate Inv(s: State) {
    CountersMatch(s) && forall id | id in s.requests :: Answered(s, id)
  }

  /** A counted request is among the counted ones. */
  lemma OwnAnswerIsIn(s: State, id: nat)
    requires CountersMatch(s) && id in s.requests && !s.requests[id].phase.Checked?
    ensures Reports(ProgressOf(s.sessions[s.requests[id].sessionId]),
                    s.sessions[s.requests[id].sessionId], s.requests[id].verdict)
  {
    var x := s.requests[id].sessionId;
    assert Tallied(s, x);
    var counted, right := CountedOn(s, x), RightOn(s, x);
    assert id in counted;
    assert right <= counted;
    SubsetCount(right, counted);
    SubsetCount({id}, counted);
    if s.requests[id].verdict {
      SubsetCount({id}, right);
    } else {
      SubsetCount(right + {id}, counted);
    }
  }

  lemma SubsetCount(a: set<nat>, b: set<nat>)
    requires a <= b
    ensures |a| <= |b|
  {
    assert b == a + (b - a);
  }

  /** A session only moves on. */
  ghost predicate MovedOn(before: SessionState, after: SessionState) {
    && after.cards == before.cards && before.answered <= after.answered && before.correct <= after.correct
    && before.answered - before.correct <= after.answered - after.correct
  }

  lemma StillAnswered(s: State, s': State, id: nat)
    requires At(s, id) && At(s', id) && s'.requests[id] == s.requests[id] && Answered(s, id)
    requires MovedOn(s.sessions[s.requests[id].sessionId], s'.sessions[s.requests[id].sessionId])
    ensures Answered(s', id)
  {
    var r, ss := s.requests[id], s.sessions[s.requests[id].sessionId];
    if r.phase.Replied? {
      var n :| r.phase.progress.answered <= n <= ss.answered && r.phase.next == CardAt(ss.cards, n);
      assert n <= s'.sessions[r.sessionId].answered;
    }
  }

  lemma StepKeepsInv(s: State, a: Action)
    requires Inv(s) && Enabled(s, a)
    ensures Inv(Next(s, a))
  {
    StepKeepsCounters(s, a);
    forall id | id in Next(s, a).requests ensures Answered(Next(s, a), id) {
      if a.StartSession? || id != a.id {
        OtherStillAnswered(s, a, id);
      } else {
        OwnStepAnswers(s, a);
      }
    }
  }

  lemma OtherStillAnswered(s: State, a: Action, id: nat)
    requires Inv(s) && Enabled(s, a) && id in Next(s, a).requests && (a.StartSession? || id != a.id)
    ensures At(Next(s, a), id) && Answered(Next(s, a), id)
  {
    assert id in s.requests;
    OthersStay(s, a, id);
    StillAnswered(s, Next(s, a), id);
  }

  lemma OwnStepAnswers(s: State, a: Action)
    requires Inv(s) && Enabled(s, a) && !a.StartSession?
    ensures At(Next(s, a), a.id) && Answered(Next(s, a), a.id)
  {
    if a.ReadProgress? {
      OwnAnswerIsIn(s, a.id);
    } else if a.ReadNextCard? {
      var ss := s.sessions[s.requests[a.id].sessionId];
      assert Answered(s, a.id) && NextCard(ss) == CardAt(ss.cards, ss.answered);
    }
  }

  lemma {:induction false} RunKeepsInv(s: State, run: seq<Action>)
    requires Inv(s) && Valid(s, run)
    ensures Inv(Run(s, run))
    decreases run
  {
    if run != [] {
      StepKeepsInv(s, run[0]);
      RunKeepsInv(Next(s, run[0]), run[1..]);
    }
  }

  /** In every interleaving each session has counted every request past the count exactly once. */
  lemma NoCountIsLost(run: seq<Action>, sessionId: string)
    requires Valid(EMPTY, run) && sessionId in Run(EMPTY, run).sessions
    ensures var s := Run(EMPTY, run);
      && s.sessions[sessionId].answered == |CountedOn(s, sessionId)|
      && s.sessions[sessionId].correct == |RightOn(s, sessionId)|
  {
    RunKeepsInv(EMPTY, run);
  }

  /**
   * In every interleaving a reply's progress includes its own answer and never runs ahead of the
   * session, and its next card is the one at some count between that progress and the present.
   */
  lemma RepliesAreSnapshots(run: seq<Action>, id: nat)
    requires Valid(EMPTY, run) && id in Run(EMPTY, run).requests && Run(EMPTY, run).requests[id].phase.Replied?
    ensures var s := Run(EMPTY, run); var r := s.requests[id];
      && r.sessionId in s.sessions
      && Reports(r.phase.progress, s.sessions[r.sessionId], r.verdict)
      && PickedSince(r.phase.progress, r.phase.next, s.sessions[r.sessionId])
  {
    RunKeepsInv(EMPTY, run);
  }
}
