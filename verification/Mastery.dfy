/** The mastery state machine of `engine.go`: one row per user and card, one step per answer. */
module Mastery {

  const STAGE_ADVANCE_THRESHOLD: int := 3
  const STAGE_REGRESS_THRESHOLD: int := 2
  const MAX_STAGE: int := 3

  datatype Row = Row(stage: int, consecutiveCorrect: int, consecutiveWrong: int, accuracy: real, totalAttempts: int)

  /** A record created for a card that has none. */
  const FRESH: Row := Row(0, 0, 0, 0.0, 0)

  datatype Bucket = New | Struggling | Review | Mastered

  function BoolToReal(b: bool): real { if b then 1.0 else 0.0 }

  /** What one answer does to a record. */
  function Step(m: Row, correct: bool): Row {
    var total := m.totalAttempts + 1;
    var (stage, cc, cw) :=
      if correct then
        if m.consecutiveCorrect + 1 >= STAGE_ADVANCE_THRESHOLD && m.stage < MAX_STAGE
        then (m.stage + 1, 0, 0) else (m.stage, m.consecutiveCorrect + 1, 0)
      else
        if m.consecutiveWrong + 1 >= STAGE_REGRESS_THRESHOLD && m.stage > 0
        then (m.stage - 1, 0, 0) else (m.stage, 0, m.consecutiveWrong + 1);
    var accuracy := if total > 0 then (m.accuracy * (total - 1) as real + BoolToReal(correct)) / total as real
                    else m.accuracy;
    Row(stage, cc, cw, accuracy, total)
  }

  /** The record after a history of answers, from a fresh one. */
  function Replay(answers: seq<bool>): Row {
    if answers == [] then FRESH
    else Step(Replay(answers[..|answers| - 1]), answers[|answers| - 1])
  }

  class MasteryRecord {
    var stage: int
    var consecutiveCorrect: int
    var consecutiveWrong: int
    var accuracy: real
    var totalAttempts: int

    constructor (m: Row)
      ensures Value() == m
    {
      stage, consecutiveCorrect, consecutiveWrong := m.stage, m.consecutiveCorrect, m.consecutiveWrong;
      accuracy, totalAttempts := m.accuracy, m.totalAttempts;
    }

    function Value(): Row
      reads this
    {
      Row(stage, consecutiveCorrect, consecutiveWrong, accuracy, totalAttempts)
    }

    /** `verdict` is what the answer check says; it looks at the card and the answer only. */
    method ProcessAnswer(verdict: bool) returns (correct: bool)
      modifies this
      ensures Value() == Step(old(Value()), verdict) && correct == verdict
    {
      correct := verdict;
      totalAttempts := totalAttempts + 1;
      if correct {
        consecutiveCorrect := consecutiveCorrect + 1;
        consecutiveWrong := 0;
        if consecutiveCorrect >= STAGE_ADVANCE_THRESHOLD && stage < MAX_STAGE {
          stage := stage + 1;
          consecutiveCorrect := 0;
        }
      } else {
        consecutiveWrong := consecutiveWrong + 1;
        consecutiveCorrect := 0;
        if consecutiveWrong >= STAGE_REGRESS_THRESHOLD && stage > 0 {
          stage := stage - 1;
          consecutiveWrong := 0;
        }
      }
      if totalAttempts > 0 {
        var correctCount := accuracy * (totalAttempts - 1) as real + BoolToReal(correct);
        accuracy := correctCount / totalAttempts as real;
      }
    }
  }

  // ---- what every history keeps --------------------------------------------------------

  function CountOf(answers: seq<bool>, what: bool): nat {
    if answers == [] then 0
    else CountOf(answers[..|answers| - 1], what) + if answers[|answers| - 1] == what then 1 else 0
  }

  /** How often the stage went up (`delta == 1`) or down (`delta == -1`). */
  function StageMoves(answers: seq<bool>, delta: int): nat {
    if answers == [] then 0
    else
      var front := answers[..|answers| - 1];
      StageMoves(front, delta) + if Replay(answers).stage == Replay(front).stage + delta then 1 else 0
  }

  lemma {:induction false} CountsAddUp(answers: seq<bool>)
    ensures CountOf(answers, true) + CountOf(answers, false) == |answers|
  {
    if answers != [] {
      CountsAddUp(answers[..|answers| - 1]);
    }
  }

  lemma {:induction false} StageWithinBounds(answers: seq<bool>)
    ensures var m := Replay(answers);
      && 0 <= m.stage <= MAX_STAGE
      && m.consecutiveCorrect >= 0 && m.consecutiveWrong >= 0
      && !(m.consecutiveCorrect > 0 && m.consecutiveWrong > 0)
      && (m.stage < MAX_STAGE ==> m.consecutiveCorrect < STAGE_ADVANCE_THRESHOLD)
      && (m.stage > 0 ==> m.consecutiveWrong < STAGE_REGRESS_THRESHOLD)
  {
    if answers != [] {
      StageWithinBounds(answers[..|answers| - 1]);
    }
  }

  lemma {:induction false} EveryAnswerCounts(answers: seq<bool>)
    ensures Replay(answers).totalAttempts == |answers|
  {
    if answers != [] {
      EveryAnswerCounts(answers[..|answers| - 1]);
    }
  }

  /** The number of right answers that a record recalls. */
  ghost function Recalled(m: Row): real {
    m.accuracy * m.totalAttempts as real
  }

  lemma AverageStep(sum: real, k: real)
    requires k > 0.0
    ensures (sum / k) * k == sum
  {
  }

  lemma StepRecalls(m: Row, correct: bool)
    requires m.totalAttempts >= 0
    ensures Recalled(Step(m, correct)) == Recalled(m) + BoolToReal(correct)
  {
    AverageStep(m.accuracy * m.totalAttempts as real + BoolToReal(correct), (m.totalAttempts + 1) as real);
  }

  /** Exact accuracy: accuracy times attempts is the number of right answers. */
  lemma {:induction false} AccuracyIsExact(answers: seq<bool>)
    ensures Recalled(Replay(answers)) == CountOf(answers, true) as real
  {
    if answers != [] {
      var front, last := answers[..|answers| - 1], answers[|answers| - 1];
      AccuracyIsExact(front);
      EveryAnswerCounts(front);
      StepRecalls(Replay(front), last);
    }
  }

  /** The stage is paid for: three right answers an advance, two wrong ones a regression. */
  lemma {:induction false} StageIsEarned(answers: seq<bool>)
    ensures var m := Replay(answers);
      && m.stage == StageMoves(answers, 1) - StageMoves(answers, -1)
      && 3 * StageMoves(answers, 1) + m.consecutiveCorrect <= CountOf(answers, true)
      && 2 * StageMoves(answers, -1) + m.consecutiveWrong <= CountOf(answers, false)
  {
    if answers != [] {
      StageIsEarned(answers[..|answers| - 1]);
      StageWithinBounds(answers[..|answers| - 1]);
    }
  }

  /** The length of the run of `what` that ends the history. */
  function Trailing(answers: seq<bool>, what: bool): (t: nat)
    ensures t <= |answers|
  {
    if answers == [] || answers[|answers| - 1] != what then 0
    else 1 + Trailing(answers[..|answers| - 1], what)
  }

  /**
   * What a closing run of `t` right answers does, in closed form: the stage goes up once for every
   * three of them until it reaches the top, and the counter is what is left over.
   */
  lemma {:induction false} RightRunInClosedForm(answers: seq<bool>)
    ensures var m, t := Replay(answers), Trailing(answers, true);
      var before := Replay(answers[..|answers| - t]).stage;
      && (t > 0 ==> m.stage == if before + t / 3 <= MAX_STAGE then before + t / 3 else MAX_STAGE)
      && m.consecutiveCorrect == t - 3 * (m.stage - before) && before <= m.stage
  {
    StageWithinBounds(answers);
    if Trailing(answers, true) > 0 {
      var front := answers[..|answers| - 1];
      RightRunInClosedForm(front);
      StageWithinBounds(front);
      assert front[..|front| - Trailing(front, true)] == answers[..|answers| - Trailing(answers, true)];
    } else {
      assert answers[..|answers|] == answers;
    }
  }

  /** The same for wrong answers: down once for every two of them until the bottom. */
  lemma {:induction false} WrongRunInClosedForm(answers: seq<bool>)
    ensures var m, t := Replay(answers), Trailing(answers, false);
      var before := Replay(answers[..|answers| - t]).stage;
      && (t > 0 ==> m.stage == if t / 2 <= before then before - t / 2 else 0)
      && m.consecutiveWrong == t - 2 * (before - m.stage) && m.stage <= before
  {
    StageWithinBounds(answers);
    if Trailing(answers, false) > 0 {
      var front := answers[..|answers| - 1];
      WrongRunInClosedForm(front);
      StageWithinBounds(front);
      assert front[..|front| - Trailing(front, false)] == answers[..|answers| - Trailing(answers, false)];
    } else {
      assert answers[..|answers|] == answers;
    }
  }

  /**
   * The streak counters are exactly the right (wrong) answers at the end of the history, less those
   * that paid for a stage move, so they lie within the closing run.
   */
  lemma {:induction false} StreaksAreTrailing(answers: seq<bool>)
    ensures var m := Replay(answers); var n := |answers|; var r, w := Trailing(answers, true), Trailing(answers, false);
      && m.consecutiveCorrect == r - 3 * (m.stage - Replay(answers[..n - r]).stage)
      && m.consecutiveWrong == w - 2 * (Replay(answers[..n - w]).stage - m.stage)
      && 0 <= m.consecutiveCorrect <= n && 0 <= m.consecutiveWrong <= n
      && (forall i :: n - m.consecutiveCorrect <= i < n ==> answers[i])
      && (forall i :: n - m.consecutiveWrong <= i < n ==> !answers[i])
  {
    RightRunInClosedForm(answers);
    WrongRunInClosedForm(answers);
    StageWithinBounds(answers);
    TrailingAre(answers, true);
    TrailingAre(answers, false);
  }

  lemma {:induction false} TrailingAre(answers: seq<bool>, what: bool)
    ensures forall i :: |answers| - Trailing(answers, what) <= i < |answers| ==> answers[i] == what
  {
    if Trailing(answers, what) > 0 {
      TrailingAre(answers[..|answers| - 1], what);
    }
  }

  // ---- classification ------------------------------------------------------------------

  datatype Record = NoRecord | Record(row: Row)

  predicate IsMastered(m: Row) { m.stage >= MAX_STAGE && m.accuracy > 0.90 }

  predicate IsStruggling(m: Row) { m.accuracy < 0.50 || m.consecutiveWrong >= STAGE_REGRESS_THRESHOLD }

  function ClassifyCard(r: Record): Bucket {
    match r
    case NoRecord => New
    case Record(m) => if IsMastered(m) then Mastered else if IsStruggling(m) then Struggling else Review
  }

  function OptionsForStage(stage: int): nat {
    if stage <= 0 then 4 else if stage == 1 then 3 else 0
  }

  /** On every record a history can produce at most one of the two tests holds, so their order is irrelevant. */
  lemma TestsAreDisjoint(answers: seq<bool>)
    ensures !(IsMastered(Replay(answers)) && IsStruggling(Replay(answers)))
  {
    StageWithinBounds(answers);
  }

  /** What the buckets mean in terms of the answers given. */
  lemma BucketsByHistory(answers: seq<bool>)
    requires answers != []
    ensures var b := ClassifyCard(Record(Replay(answers))); var right := CountOf(answers, true);
      && (b == Mastered <==> Replay(answers).stage == MAX_STAGE && 10 * right > 9 * |answers|)
      && (b == Struggling <==> 2 * right < |answers| || Replay(answers).consecutiveWrong >= 2)
      && (b == Struggling && 2 * right >= |answers| ==> Replay(answers).stage == 0)
      && (b == Mastered ==> right >= 9)
      && b != New
  {
    StageWithinBounds(answers);
    AccuracyIsExact(answers);
    StageIsEarned(answers);
    EveryAnswerCounts(answers);
    ShareOf(Replay(answers), CountOf(answers, true));
  }

  lemma ShareOf(m: Row, right: nat)
    requires m.totalAttempts > 0 && Recalled(m) == right as real
    ensures m.accuracy > 0.90 <==> 10 * right > 9 * m.totalAttempts
    ensures m.accuracy < 0.50 <==> 2 * right < m.totalAttempts
  {
    Scale(m.accuracy, m.totalAttempts as real, 0.90, right as real);
    Scale(m.accuracy, m.totalAttempts as real, 0.50, right as real);
    NineTenths(right, m.totalAttempts);
  }

  lemma NineTenths(right: nat, total: nat)
    ensures right as real > 0.90 * total as real <==> 10 * right > 9 * total
    ensures right as real < 0.50 * total as real <==> 2 * right < total
  {
    assert (10 * right) as real == 10.0 * right as real && (9 * total) as real == 9.0 * total as real;
  }

  lemma Scale(a: real, n: real, c: real, product: real)
    requires n > 0.0 && a * n == product
    ensures a > c <==> product > c * n
    ensures a < c <==> product < c * n
  {
    if a > c { assert (a - c) * n > 0.0; }
    if a < c { assert (c - a) * n > 0.0; }
  }
}
