/**
 * The answer endpoint of `handler.go`: the session map, guest mastery kept in the session, and
 * for signed-in users the calls to the store, made one after the other.
 */
module Handler {
  import opened Seqs
  import opened Mastery
  import opened AnswerProtocol

  // ---- one session ---------------------------------------------------------------------

  /** `cards` are the ids of the session's cards in the order dealt. */
  datatype SessionState = SessionState(cards: seq<string>, guestMastery: map<string, Row>, answered: nat, correct: nat)

  datatype Progress = Progress(answered: int, total: int, correct: int, incorrect: int)

  function NewSession(cards: seq<string>): SessionState {
    SessionState(cards, map[], 0, 0)
  }

  function Counted(ss: SessionState, verdict: bool): SessionState {
    ss.(answered := ss.answered + 1, correct := if verdict then ss.correct + 1 else ss.correct)
  }

  /** The card at the answered count, None once that many cards have been answered. */
  function NextCard(ss: SessionState): Option<string> {
    if ss.answered >= |ss.cards| then None else Some(ss.cards[ss.answered])
  }

  function ProgressOf(ss: SessionState): Progress {
    Progress(ss.answered, |ss.cards|, ss.correct, ss.answered - ss.correct)
  }

  // ---- one submission to the store -----------------------------------------------------

  /** How the three database calls of one submission end. */
  datatype Faults = Faults(ok: bool, record: Outcome, upsert: Outcome)

  datatype Stored = Stored(rows: map<Key, Row>, log: seq<Attempt>, ok: bool)

  /** The store after one uninterrupted submission. */
  function Submit(rows: map<Key, Row>, log: seq<Attempt>, k: Key, verdict: bool, f: Faults): Stored {
    if !f.ok then Stored(rows, log, false)
    else
      var log' := if f.record.Refused? then log else log + [Attempt(k, verdict)];
      if !f.record.Done? then Stored(rows, log', false)
      else
        var rows' := if f.upsert.Refused? then rows else rows[k := Step(RowOrFresh(rows, k), verdict)];
        Stored(rows', log', f.upsert.Done?)
  }

  /** Without faults a submission logs the verdict and counts it once, in the row of that user and card only. */
  lemma SubmitCountsTheAnswer(rows: map<Key, Row>, log: seq<Attempt>, k: Key, verdict: bool, f: Faults)
    requires f.ok && f.record.Done? && f.upsert.Done? && RowOrFresh(rows, k).totalAttempts >= 0
    ensures var r := Submit(rows, log, k, verdict, f); var before := RowOrFresh(rows, k);
      && r.ok && |r.log| == |log| + 1 && log <= r.log && r.log[|log|] == Attempt(k, verdict)
      && k in r.rows && r.rows[k].totalAttempts == before.totalAttempts + 1
      && Recalled(r.rows[k]) == Recalled(before) + (if verdict then 1.0 else 0.0)
      && forall other | other != k :: RowOrFresh(r.rows, other) == RowOrFresh(rows, other)
  {
    StepRecalls(RowOrFresh(rows, k), verdict);
  }

  /** A submission is a run of the protocol's steps. */
  lemma SubmitIsRun(rows: map<Key, Row>, log: seq<Attempt>, k: Key, verdict: bool, f: Faults) returns (run: seq<Action>)
    ensures var s := State(rows, log, map[]); var r := Submit(rows, log, k, verdict, f);
      && Valid(s, run)
      && Run(s, run).rows == r.rows && Run(s, run).log == r.log
      && (r.ok <==> 0 in Run(s, run).requests && Run(s, run).requests[0].phase.Finished?)
  {
    var s := State(rows, log, map[]);
    run := [];
    RunThen(s, run, Arrive(0, k, verdict)); run := run + [Arrive(0, k, verdict)];
    RunThen(s, run, Load(0, f.ok)); run := run + [Load(0, f.ok)];
    if f.ok {
      RunThen(s, run, Process(0)); run := run + [Process(0)];
      RunThen(s, run, RecordAttempt(0, f.record)); run := run + [RecordAttempt(0, f.record)];
      if f.record.Done? {
        RunThen(s, run, UpsertMastery(0, f.upsert)); run := run + [UpsertMastery(0, f.upsert)];
      }
    }
  }

  // ---- the endpoint --------------------------------------------------------------------

  /** None for a body that does not decode; empty strings for missing fields. */
  datatype AnswerRequest = AnswerRequest(cardId: string, answer: string, inputMethod: string)

  datatype Response =
    | NotFound
    | BadRequest
    | ServerError
    | Answered(correct: bool, next: Option<string>, progress: Progress)

  /** What the card lookup returns: an error, no such card, or the card, for which `verdict` is the check's result. */
  datatype CardLookup = LookupFails | NoSuchCard | Found(verdict: bool)

  predicate Accepted(sessions: map<string, SessionState>, sessionId: string, req: Option<AnswerRequest>,
                     card: CardLookup) {
    && sessionId != "" && sessionId in sessions
    && req.Some? && req.value.cardId != "" && req.value.answer != "" && req.value.inputMethod != ""
    && card.Found?
  }

  /** The session of a guest after an answer: mastery of the card stepped, answer counted. */
  function GuestAnswered(ss: SessionState, cardId: string, verdict: bool): SessionState {
    var before := if cardId in ss.guestMastery then ss.guestMastery[cardId] else FRESH;
    Counted(ss.(guestMastery := ss.guestMastery[cardId := Step(before, verdict)]), verdict)
  }

  class AnswerHandler {
    var sessions: map<string, SessionState>
    var rows: map<Key, Row>
    var log: seq<Attempt>

    constructor ()
      ensures sessions == map[] && rows == map[] && log == []
    {
      sessions, rows, log := map[], map[], [];
    }

    method StartSession(sessionId: string, cards: seq<string>)
      modifies this`sessions
      ensures sessions == old(sessions)[sessionId := NewSession(cards)]
    {
      sessions := sessions[sessionId := NewSession(cards)];
    }

    method UpdateSessionProgress(sessionId: string, verdict: bool)
      modifies this`sessions
      ensures sessions == if sessionId in old(sessions)
                          then old(sessions)[sessionId := Counted(old(sessions)[sessionId], verdict)]
                          else old(sessions)
    {
      if sessionId !in sessions { return; }
      var ss := sessions[sessionId];
      ss := ss.(answered := ss.answered + 1);
      if verdict { ss := ss.(correct := ss.correct + 1); }
      sessions := sessions[sessionId := ss];
    }

    /** `user` is None for a guest. */
    method HandleAnswer(sessionId: string, req: Option<AnswerRequest>, card: CardLookup, user: Option<string>,
                        f: Faults)
      returns (resp: Response)
      modifies this
      ensures !Accepted(old(sessions), sessionId, req, card) ==>
                !resp.Answered? && sessions == old(sessions) && rows == old(rows) && log == old(log)
      ensures sessionId == "" || sessionId !in old(sessions) ==> resp == NotFound
      ensures sessionId != "" && sessionId in old(sessions) ==>
                if req.None? || req.value.cardId == "" || req.value.answer == "" || req.value.inputMethod == ""
                then resp == BadRequest
                else (card.LookupFails? ==> resp == ServerError) && (card.NoSuchCard? ==> resp == NotFound)
      ensures Accepted(old(sessions), sessionId, req, card) && !resp.Answered? ==> resp == ServerError
      ensures Accepted(old(sessions), sessionId, req, card) && user.Some? ==>
                var r := Submit(old(rows), old(log), Key(user.value, req.value.cardId), card.verdict, f);
                && rows == r.rows && log == r.log
                && (resp.Answered? <==> r.ok)
                && sessions == if r.ok then old(sessions)[sessionId := Counted(old(sessions)[sessionId], card.verdict)]
                               else old(sessions)
      ensures Accepted(old(sessions), sessionId, req, card) && user.None? ==>
                && rows == old(rows) && log == old(log) && resp.Answered?
                && sessions == old(sessions)[sessionId :=
                     GuestAnswered(old(sessions)[sessionId], req.value.cardId, card.verdict)]
      ensures resp.Answered? ==>
                && sessionId in sessions && resp.correct == card.verdict
                && resp.next == NextCard(sessions[sessionId]) && resp.progress == ProgressOf(sessions[sessionId])
    {
      if sessionId == "" || sessionId !in sessions { return NotFound; }
      if req.None? { return BadRequest; }
      var cardId := req.value.cardId;
      if cardId == "" || req.value.inputMethod == "" || req.value.answer == "" { return BadRequest; }
      if card.LookupFails? { return ServerError; }
      if card.NoSuchCard? { return NotFound; }

      var start := FRESH;
      if user.None? {
        var ss := sessions[sessionId];
        if cardId in ss.guestMastery { start := ss.guestMastery[cardId]; }
      } else {
        if !f.ok { return ServerError; }
        start := RowOrFresh(rows, Key(user.value, cardId));
      }
      var mastery := new MasteryRecord(start);
      var correct := mastery.ProcessAnswer(card.verdict);
      if user.None? {
        var ss := sessions[sessionId];
        sessions := sessions[sessionId := ss.(guestMastery := ss.guestMastery[cardId := mastery.Value()])];
      } else {
        var k := Key(user.value, cardId);
        if !f.record.Refused? { log := log + [Attempt(k, correct)]; }
        if !f.record.Done? { return ServerError; }
        if !f.upsert.Refused? { rows := rows[k := mastery.Value()]; }
        if !f.upsert.Done? { return ServerError; }
      }
      UpdateSessionProgress(sessionId, correct);
      resp := Answered(correct, NextCard(sessions[sessionId]), ProgressOf(sessions[sessionId]));
    }
  }

  // ---- a guest's session, answered serially --------------------------------------------

  /** One guest answer: which card, and whether it was right. */
  datatype GuestAnswer = GuestAnswer(cardId: string, verdict: bool)

  function GuestSession(cards: seq<string>, answers: seq<GuestAnswer>): SessionState {
    if answers == [] then NewSession(cards)
    else
      var last := answers[|answers| - 1];
      GuestAnswered(GuestSession(cards, answers[..|answers| - 1]), last.cardId, last.verdict)
  }

  function VerdictsFor(answers: seq<GuestAnswer>, cardId: string): seq<bool> {
    if answers == [] then []
    else
      var last := answers[|answers| - 1];
      var before := VerdictsFor(answers[..|answers| - 1], cardId);
      if last.cardId == cardId then before + [last.verdict] else before
  }

  function Verdicts(answers: seq<GuestAnswer>): (r: seq<bool>)
    ensures |r| == |answers| && forall i :: 0 <= i < |r| ==> r[i] == answers[i].verdict
  {
    seq(|answers|, i requires 0 <= i < |answers| => answers[i].verdict)
  }

  /** Guest mastery is the fold of every answer given to the card; the counters count every answer. */
  lemma {:induction false} GuestMasteryFoldsAll(cards: seq<string>, answers: seq<GuestAnswer>, cardId: string)
    ensures var ss := GuestSession(cards, answers); var h := VerdictsFor(answers, cardId);
      && ss.cards == cards && ss.answered == |answers| && ss.correct == CountOf(Verdicts(answers), true)
      && (cardId in ss.guestMastery <==> h != [])
      && (cardId in ss.guestMastery ==> ss.guestMastery[cardId] == Replay(h))
  {
    if answers != [] {
      var front, last := answers[..|answers| - 1], answers[|answers| - 1];
      GuestMasteryFoldsAll(cards, front, cardId);
      ReplayOne(VerdictsFor(front, cardId), last.verdict);
      assert Verdicts(answers)[..|front|] == Verdicts(front);
    }
  }
}
