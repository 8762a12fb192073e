/**
 * The flashcard page (`FlashcardSession.tsx`) against the server's session, for one client. An
 * answer is sent, counted by the server and replied to in separate steps, between which the page
 * can be used; any of them may fail. Skips stay on the page.
 */
module SessionLoop {
  import opened Seqs
  import opened Handler
  import opened Mastery

  datatype Phase = Answering | Feedback(next: Option<string>) | Summary | Failed

  datatype Reply = Reply(next: Option<string>, progress: Progress)

  /** The page's state; `cards` is the session as dealt. */
  datatype Page = Page(cards: seq<string>, phase: Phase, cardIndex: nat, current: string, progress: Progress)

  function Opened(cards: seq<string>): Page {
    if |cards| > 0 then Page(cards, Answering, 0, cards[0], Progress(0, |cards|, 0, 0))
    else Page(cards, Summary, 0, "", Progress(0, 20, 0, 0))
  }

  /** `reply` is None when the request failed. */
  function AfterResult(p: Page, reply: Option<Reply>): Page {
    match reply
    case Some(r) => p.(phase := Feedback(r.next), progress := r.progress)
    case None => p.(phase := Failed)
  }

  function Advanced(p: Page): Page {
    if p.cardIndex + 1 < |p.cards|
    then p.(phase := Answering, cardIndex := p.cardIndex + 1, current := p.cards[p.cardIndex + 1])
    else p.(phase := Summary)
  }

  function Continued(p: Page): Page
    requires p.phase.Feedback?
  {
    match p.phase.next
    case Some(card) => p.(phase := Answering, cardIndex := p.cardIndex + 1, current := card)
    case None => Advanced(p)
  }

  class FlashcardSession {
    const cards: seq<string>
    var phase: Phase
    var cardIndex: nat
    var current: string
    var progress: Progress

    constructor (cards: seq<string>)
      ensures View() == Opened(cards)
    {
      this.cards := cards;
      cardIndex, progress := 0, Progress(0, 20, 0, 0);
      if |cards| > 0 {
        current, progress, phase := cards[0], Progress(0, |cards|, 0, 0), Answering;
      } else {
        current, phase := "", Summary;
      }
    }

    function View(): Page
      reads this
    {
      Page(cards, phase, cardIndex, current, progress)
    }

    /** The request for the submitted answer has ended. */
    method HandleAnswer(reply: Option<Reply>)
      modifies this
      ensures View() == AfterResult(old(View()), reply)
    {
      match reply {
        case Some(r) =>
          progress := r.progress;
          phase := Feedback(r.next);
        case None =>
          phase := Failed;
      }
    }

    method HandleSkip()
      modifies this
      ensures View() == Advanced(old(View()))
    {
      var nextIndex := cardIndex + 1;
      if nextIndex < |cards| {
        cardIndex := nextIndex;
        current := cards[nextIndex];
        phase := Answering;
      } else {
        phase := Summary;
      }
    }

    method HandleContinue()
      modifies this
      ensures View() == if old(phase).Feedback? then Continued(old(View())) else old(View())
    {
      if !phase.Feedback? { return; }
      match phase.next {
        case Some(card) =>
          current := card;
          cardIndex := cardIndex + 1;
          phase := Answering;
        case None =>
          var nextIndex := cardIndex + 1;
          if nextIndex < |cards| {
            current := cards[nextIndex];
            cardIndex := nextIndex;
            phase := Answering;
          } else {
            phase := Summary;
          }
      }
    }
  }

  // ---- page and server together --------------------------------------------------------

  /** A request on its way: the card it answers, then its reply, None for a failed request. */
  datatype Message = Asked(card: string) | Replied(reply: Option<Reply>)

  /** How the server treats a request; a failed one may have been counted or not. */
  datatype Outcome = Success(verdict: bool) | ReplyLost(verdict: bool) | Refused

  /**
   * `spent` is true when the input on the page has been submitted; `submitted` records the cards
   * whose answers the server counted, in order.
   */
  datatype Loop = Loop(page: Page, spent: bool, server: SessionState, submitted: seq<string>, onWay: seq<Message>)

  /** A skip mounts a fresh input exactly when the next card is answered by another kind of input. */
  datatype Action = Send | Serve(k: nat, outcome: Outcome) | Deliver(k: nat) | Skip(remounts: bool) | Continue

  function Start(cards: seq<string>): Loop {
    Loop(Opened(cards), false, NewSession(cards), [], [])
  }

  predicate Enabled(l: Loop, a: Action) {
    match a
    case Send => l.page.phase.Answering? && !l.spent
    case Serve(k, _) => k < |l.onWay| && l.onWay[k].Asked?
    case Deliver(k) => k < |l.onWay| && l.onWay[k].Replied?
    case Skip(_) => l.page.phase.Answering?
    case Continue => l.page.phase.Feedback?
  }

  function ReplyOf(server: SessionState): Reply {
    Reply(NextCard(server), ProgressOf(server))
  }

  function Next(l: Loop, a: Action): Loop
    requires Enabled(l, a)
  {
    match a
    case Send => l.(spent := true, onWay := l.onWay + [Asked(l.page.current)])
    case Serve(k, Refused) => l.(onWay := l.onWay[k := Replied(None)])
    case Serve(k, outcome) =>
      var server := Counted(l.server, outcome.verdict);
      var reply := if outcome.Success? then Some(ReplyOf(server)) else None;
      l.(server := server, submitted := l.submitted + [l.onWay[k].card], onWay := l.onWay[k := Replied(reply)])
    case Deliver(k) => l.(page := AfterResult(l.page, l.onWay[k].reply), onWay := Without(l.onWay, k))
    case Skip(remounts) => l.(page := Advanced(l.page), spent := l.spent && !remounts)
    case Continue => l.(page := Continued(l.page), spent := false)
  }

  ghost predicate Valid(l: Loop, run: seq<Action>)
    decreases run
  {
    run == [] || (Enabled(l, run[0]) && Valid(Next(l, run[0]), run[1..]))
  }

  function Run(l: Loop, run: seq<Action>): Loop
    requires Valid(l, run)
    decreases run
  {
    if run == [] then l else Run(Next(l, run[0]), run[1..])
  }

  lemma {:induction false} ServerKeepsCards(l: Loop, run: seq<Action>)
    requires Valid(l, run)
    ensures Run(l, run).server.cards == l.server.cards
    decreases run
  {
    if run != [] {
      ServerKeepsCards(Next(l, run[0]), run[1..]);
    }
  }

  function Skips(k: nat): (r: seq<Action>)
    ensures |r| == k
  {
    if k == 0 then [] else [Skip(false)] + Skips(k - 1)
  }

  lemma {:induction false} SkipsFrom(l: Loop, i: nat, k: nat)
    requires l.page.phase.Answering? && l.page.cardIndex == i && i + k <= |l.page.cards| && i < |l.page.cards|
    requires l.page.current == l.page.cards[i]
    ensures Valid(l, Skips(k))
    ensures var p := Run(l, Skips(k)).page;
      if i + k < |l.page.cards|
      then p.phase.Answering? && p.cardIndex == i + k && p.current == l.page.cards[i + k]
      else p.phase.Summary?
    decreases k
  {
    if k > 0 {
      var next := Next(l, Skip(false));
      assert Skips(k)[1..] == Skips(k - 1);
      if i + 1 < |l.page.cards| {
        SkipsFrom(next, i + 1, k - 1);
      }
    }
  }

  /** Skipping walks through the deck as dealt, card by card, and ends in the summary after the last. */
  lemma SkipsWalkTheDeck(cards: seq<string>, k: nat)
    requires k <= |cards|
    ensures Valid(Start(cards), Skips(k))
    ensures var p := Run(Start(cards), Skips(k)).page;
      if k < |cards| then p.phase.Answering? && p.cardIndex == k && p.current == cards[k] else p.phase.Summary?
  {
    if cards != [] { SkipsFrom(Start(cards), 0, k); }
  }

  // ---- one answer at a time ------------------------------------------------------------

  /** No answer is sent while another is on its way. */
  ghost predicate SerialRun(l: Loop, run: seq<Action>)
    requires Valid(l, run)
    decreases run
  {
    run == [] || ((run[0].Send? ==> l.onWay == []) && SerialRun(Next(l, run[0]), run[1..]))
  }

  /** No skip brings up a fresh input while an answer is on its way. */
  ghost predicate NoFreshInputInFlight(l: Loop, run: seq<Action>)
    requires Valid(l, run)
    decreases run
  {
    run == [] ||
    ((run[0].Skip? && run[0].remounts ==> l.onWay == []) && NoFreshInputInFlight(Next(l, run[0]), run[1..]))
  }

  /** An answer on its way has spent the input on the page. */
  ghost predicate InputSpent(l: Loop) {
    && |l.onWay| <= 1
    && (l.onWay != [] ==> !l.page.phase.Feedback? && (l.page.phase.Answering? ==> l.spent))
  }

  lemma {:induction false} SpentInputIsSerial(l: Loop, run: seq<Action>)
    requires InputSpent(l) && Valid(l, run) && NoFreshInputInFlight(l, run)
    ensures SerialRun(l, run)
    decreases run
  {
    if run != [] {
      SpentInputIsSerial(Next(l, run[0]), run[1..]);
    }
  }

  /** Only a skip to another kind of input, pressed in flight, lets two answers overlap. */
  lemma SerialUnlessFreshInput(cards: seq<string>, run: seq<Action>)
    requires Valid(Start(cards), run) && NoFreshInputInFlight(Start(cards), run)
    ensures SerialRun(Start(cards), run)
  {
    SpentInputIsSerial(Start(cards), run);
  }

  // ---- termination with any mix of skips -----------------------------------------------

  ghost predicate Inv(l: Loop) {
    var n, a, i := |l.server.cards|, l.server.answered, l.page.cardIndex;
    && l.page.cards == l.server.cards && a == |l.submitted| <= n && |l.onWay| <= 1
    && (l.onWay == [] ==>
          match l.page.phase
          case Answering => a < n && a <= i
          case Feedback(next) => 1 <= a <= i + 1 && next == NextCard(l.server)
          case _ => true)
    && (l.onWay != [] ==>
          && (l.page.phase.Answering? || l.page.phase.Summary?)
          && match l.onWay[0]
             case Asked(_) => a < n && a <= i
             case Replied(Some(r)) => 1 <= a <= i + 1 && r == ReplyOf(l.server)
             case Replied(None) => true)
  }

  /** The progress on the page is the server's, unless the reply that brings it is still on its way or was lost. */
  ghost predicate ProgressShown(l: Loop) {
    && |l.onWay| <= 1
    && (!l.page.phase.Failed? && (l.onWay == [] || l.onWay[0].Asked?) ==> l.page.progress == ProgressOf(l.server))
    && (l.onWay != [] && l.onWay[0].Replied? && l.onWay[0].reply.Some? ==>
          l.onWay[0].reply.value.progress == ProgressOf(l.server))
  }

  /** Nothing is left to do: no button, and nothing on its way. */
  ghost predicate Stuck(l: Loop) { forall a :: !Enabled(l, a) }

  ghost predicate SomeRequestFailed(run: seq<Action>) { exists a :: a in run && a.Serve? && !a.outcome.Success? }

  predicate Over(p: Phase) { p.Summary? || p.Failed? }

  function PhaseSteps(p: Phase): nat {
    if p.Answering? then 1 else if p.Feedback? then 2 else 0
  }

  /** Falls with every action. */
  function Measure(l: Loop): int {
    var n := |l.server.cards|;
    var left := n - l.server.answered;
    var ahead := PhaseSteps(l.page.phase) + if l.page.cardIndex < n then n - l.page.cardIndex else 0;
    if l.onWay == [] then if Over(l.page.phase) then 0 else 5 * left + ahead
    else match l.onWay[0]
      case Asked(_) => 5 * left - 1 + ahead
      case Replied(Some(_)) => 5 * left + 3 + ahead
      case Replied(None) => 1 + ahead
  }

  lemma StepKeepsInv(l: Loop, a: Action)
    requires Inv(l) && Enabled(l, a) && (a.Send? ==> l.onWay == [])
    ensures Inv(Next(l, a)) && 0 <= Measure(Next(l, a)) < Measure(l)
  {
    match a
    case Send => SendKeepsInv(l);
    case Serve(_, outcome) => ServeKeepsInv(l, outcome);
    case Deliver(_) => DeliverKeepsInv(l);
    case Skip(remounts) => SkipKeepsInv(l, remounts);
    case Continue => ContinueKeepsInv(l);
  }

  lemma SendKeepsInv(l: Loop)
    requires Inv(l) && Enabled(l, Send) && l.onWay == []
    ensures Inv(Next(l, Send)) && 0 <= Measure(Next(l, Send)) < Measure(l)
  {
  }

  lemma ServeKeepsInv(l: Loop, outcome: Outcome)
    requires Inv(l) && Enabled(l, Serve(0, outcome))
    ensures Inv(Next(l, Serve(0, outcome))) && 0 <= Measure(Next(l, Serve(0, outcome))) < Measure(l)
  {
  }

  lemma DeliverKeepsInv(l: Loop)
    requires Inv(l) && Enabled(l, Deliver(0))
    ensures Inv(Next(l, Deliver(0))) && 0 <= Measure(Next(l, Deliver(0))) < Measure(l)
  {
  }

  lemma SkipKeepsInv(l: Loop, remounts: bool)
    requires Inv(l) && Enabled(l, Skip(remounts))
    ensures Inv(Next(l, Skip(remounts))) && 0 <= Measure(Next(l, Skip(remounts))) < Measure(l)
  {
  }

  lemma ContinueKeepsInv(l: Loop)
    requires Inv(l) && Enabled(l, Continue)
    ensures Inv(Next(l, Continue)) && 0 <= Measure(Next(l, Continue)) < Measure(l)
  {
  }

  lemma {:induction false} RunIsBounded(l: Loop, run: seq<Action>)
    requires Inv(l) && Measure(l) >= 0 && Valid(l, run) && SerialRun(l, run)
    ensures Inv(Run(l, run)) && Measure(Run(l, run)) >= 0 && |run| + Measure(Run(l, run)) <= Measure(l)
    decreases run
  {
    if run != [] {
      StepKeepsInv(l, run[0]);
      RunIsBounded(Next(l, run[0]), run[1..]);
    }
  }

  lemma {:induction false} RunShowsProgress(l: Loop, run: seq<Action>)
    requires ProgressShown(l) && Valid(l, run) && SerialRun(l, run)
    ensures ProgressShown(Run(l, run))
    decreases run
  {
    if run != [] {
      RunShowsProgress(Next(l, run[0]), run[1..]);
    }
  }

  lemma StuckAtTheEnd(l: Loop)
    ensures Stuck(l) <==> Over(l.page.phase) && l.onWay == []
  {
    assert l.page.phase.Answering? ==> Enabled(l, Skip(false));
    assert l.page.phase.Feedback? ==> Enabled(l, Continue);
    if l.onWay != [] {
      assert if l.onWay[0].Asked? then Enabled(l, Serve(0, Refused)) else Enabled(l, Deliver(0));
    }
  }

  ghost predicate NoFailure(l: Loop) { !l.page.phase.Failed? && Replied(None) !in l.onWay }

  lemma {:induction false} FailsByARequest(l: Loop, run: seq<Action>)
    requires Valid(l, run) && NoFailure(l) && !SomeRequestFailed(run)
    ensures NoFailure(Run(l, run))
    decreases run
  {
    if run != [] {
      assert run[0] in run && forall a | a in run[1..] :: a in run;
      FailsByARequest(Next(l, run[0]), run[1..]);
    }
  }

  /**
   * With one answer on its way at a time, whatever mix of skips and failures leads to `l`: at most
   * Total answers, at most 6·Total + 1 steps, and what is left in the end is the summary, or the
   * error page if a request failed.
   */
  lemma {:induction false} SerialSessionTerminates(cards: seq<string>, run: seq<Action>, l: Loop)
    requires Valid(Start(cards), run) && SerialRun(Start(cards), run) && l == Run(Start(cards), run)
    ensures |l.submitted| <= |cards|
    ensures |run| <= 6 * |cards| + 1
    ensures Stuck(l) <==> Over(l.page.phase) && l.onWay == []
    ensures |l.submitted| == |cards| && l.onWay == [] && !l.page.phase.Feedback? ==> Over(l.page.phase)
    ensures l.page.phase.Failed? ==> SomeRequestFailed(run)
  {
    StartIsInv(cards);
    RunIsBounded(Start(cards), run);
    ServerKeepsCards(Start(cards), run);
    StuckAtTheEnd(l);
    if !SomeRequestFailed(run) { FailsByARequest(Start(cards), run); }
  }

  lemma StartIsInv(cards: seq<string>)
    ensures Inv(Start(cards)) && 0 <= Measure(Start(cards)) <= 6 * |cards| + 1 && NoFailure(Start(cards))
    ensures Start(cards).server.cards == cards
    ensures cards != [] ==> ProgressShown(Start(cards))
  {
  }

  // ---- two answers on their way --------------------------------------------------------

  lemma StepThen(l: Loop, a: Action, rest: seq<Action>)
    requires Enabled(l, a) && Valid(Next(l, a), rest)
    ensures Valid(l, [a] + rest) && Run(l, [a] + rest) == Run(Next(l, a), rest)
  {
    assert ([a] + rest)[0] == a && ([a] + rest)[1..] == rest;
  }

  /** Three answers counted for two cards: the first was on its way when a skip brought up a fresh input. */
  lemma TooManyAnswers(a: string, b: string, v: bool) returns (run: seq<Action>)
    ensures Valid(Start([a, b]), run) && |Run(Start([a, b]), run).submitted| == 3
  {
    var l0 := Start([a, b]);
    var l1 := Next(l0, Send);
    var l2 := Next(l1, Skip(true));
    var l3 := Next(l2, Send);
    assert l3.onWay == [Asked(a), Asked(b)];
    var l4 := Next(l3, Serve(0, Success(v)));
    var l5 := Next(l4, Deliver(0));
    assert l5.onWay == [Asked(b)] && l5.page.phase == Feedback(Some(b));
    var l6 := Next(l5, Continue);
    var l7 := Next(l6, Send);
    var l8 := Next(l7, Serve(0, Success(v)));
    run := [Serve(1, Success(v))];
    assert run[1..] == [] && Run(l8, run) == Next(l8, run[0]);
    StepThen(l7, Serve(0, Success(v)), run); run := [Serve(0, Success(v))] + run;
    StepThen(l6, Send, run); run := [Send] + run;
    StepThen(l5, Continue, run); run := [Continue] + run;
    StepThen(l4, Deliver(0), run); run := [Deliver(0)] + run;
    StepThen(l3, Serve(0, Success(v)), run); run := [Serve(0, Success(v))] + run;
    StepThen(l2, Send, run); run := [Send] + run;
    StepThen(l1, Skip(true), run); run := [Skip(true)] + run;
    StepThen(l0, Send, run); run := [Send] + run;
  }

  /** The page can leave the summary again: the last card was skipped with its answer on its way. */
  lemma SummaryIsLeft(card: string, v: bool)
    ensures var l := Next(Next(Start([card]), Send), Skip(false));
      && l.page.phase.Summary? && l.onWay == [Asked(card)]
      && Valid(l, [Serve(0, Success(v)), Deliver(0)])
      && Run(l, [Serve(0, Success(v)), Deliver(0)]).page.phase == Feedback(None)
  {
    var l := Next(Next(Start([card]), Send), Skip(false));
    var l1 := Next(l, Serve(0, Success(v)));
    assert [Deliver(0)][1..] == [] && Run(l1, [Deliver(0)]) == Next(l1, Deliver(0));
    StepThen(l, Serve(0, Success(v)), [Deliver(0)]);
    assert [Serve(0, Success(v))] + [Deliver(0)] == [Serve(0, Success(v)), Deliver(0)];
  }

  // ---- what the counters count ---------------------------------------------------------

  /** The verdicts the server counted, in order. */
  function VerdictsOf(run: seq<Action>): seq<bool> {
    if run == [] then [] else VerdictOf(run[0]) + VerdictsOf(run[1..])
  }

  function VerdictOf(a: Action): seq<bool> {
    if a.Serve? && !a.outcome.Refused? then [a.outcome.verdict] else []
  }

  lemma {:induction false} CountAppend(a: seq<bool>, b: seq<bool>, what: bool)
    ensures CountOf(a + b, what) == CountOf(a, what) + CountOf(b, what)
  {
    if b == [] {
      assert a + b == a;
    } else {
      assert (a + b)[..|a + b| - 1] == a + b[..|b| - 1];
      CountAppend(a, b[..|b| - 1], what);
    }
  }

  /** Overlapping or not, the server counts every answer once. */
  lemma {:induction false} RunCountsVerdicts(l: Loop, run: seq<Action>)
    requires Valid(l, run)
    ensures Run(l, run).server.answered == l.server.answered + |VerdictsOf(run)|
    ensures Run(l, run).server.correct == l.server.correct + CountOf(VerdictsOf(run), true)
    decreases run
  {
    if run != [] {
      RunCountsVerdicts(Next(l, run[0]), run[1..]);
      var first := VerdictOf(run[0]);
      CountAppend(first, VerdictsOf(run[1..]), true);
      assert first != [] ==> first[..0] == [];
    }
  }

  /**
   * With one answer on its way at a time and none at present, and unless a request failed, the
   * progress shown counts exactly the answers given, right and wrong.
   */
  lemma {:induction false} ProgressCountsAnswers(cards: seq<string>, run: seq<Action>, l: Loop)
    requires Valid(Start(cards), run) && SerialRun(Start(cards), run) && l == Run(Start(cards), run)
    requires cards != [] && l.onWay == [] && !l.page.phase.Failed?
    ensures var v := VerdictsOf(run);
      l.page.progress == Progress(|v|, |cards|, CountOf(v, true), CountOf(v, false))
  {
    StartIsInv(cards);
    RunShowsProgress(Start(cards), run);
    ServerKeepsCards(Start(cards), run);
    RunCountsVerdicts(Start(cards), run);
    CountsAddUp(VerdictsOf(run));
  }

  // ---- lockstep ------------------------------------------------------------------------

  /** A skip pressed with no answer on its way. */
  predicate IdleSkip(l: Loop, a: Action) { a.Skip? && l.onWay == [] }

  ghost predicate SomeIdleSkip(l: Loop, run: seq<Action>)
    requires Valid(l, run)
    decreases run
  {
    run != [] && (IdleSkip(l, run[0]) || SomeIdleSkip(Next(l, run[0]), run[1..]))
  }

  /**
   * The card to be answered, or on its way to be, is the one at the answered count, and the cards
   * before it were answered in order.
   */
  ghost predicate InLockstep(l: Loop) {
    var cards, a := l.server.cards, l.server.answered;
    && Inv(l) && l.submitted == cards[..a]
    && (l.onWay == [] && l.page.phase.Answering? ==> l.page.current == cards[a])
    && (l.onWay == [] && l.page.phase.Summary? ==> a == |cards|)
    && (l.onWay != [] && l.onWay[0].Asked? ==> l.onWay[0].card == cards[a])
  }

  lemma StepKeepsLockstep(l: Loop, a: Action)
    requires InLockstep(l) && Enabled(l, a) && !IdleSkip(l, a) && (a.Send? ==> l.onWay == [])
    ensures InLockstep(Next(l, a))
  {
    StepKeepsInv(l, a);
    if a.Serve? {
      TakeOneMore(l.server.cards, l.server.answered);
    }
  }

  lemma {:induction false} RunKeepsLockstep(l: Loop, run: seq<Action>)
    requires InLockstep(l) && Valid(l, run) && SerialRun(l, run) && !SomeIdleSkip(l, run)
    ensures InLockstep(Run(l, run))
    decreases run
  {
    if run != [] {
      StepKeepsLockstep(l, run[0]);
      RunKeepsLockstep(Next(l, run[0]), run[1..]);
    }
  }

  lemma StartInLockstep(cards: seq<string>)
    ensures InLockstep(Start(cards)) && Start(cards).server.cards == cards
  {
  }

  lemma {:induction false} SkipFreeRun(l: Loop, run: seq<Action>)
    requires Valid(l, run) && forall a | a in run :: !a.Skip?
    ensures NoFreshInputInFlight(l, run) && !SomeIdleSkip(l, run)
    decreases run
  {
    if run != [] {
      assert run[0] in run && forall a | a in run[1..] :: a in run;
      SkipFreeRun(Next(l, run[0]), run[1..]);
    }
  }

  /** The page's index is the server's count, or one behind it from the counted answer to its feedback. */
  ghost predicate InStep(l: Loop) {
    var i, a := l.page.cardIndex, l.server.answered;
    if l.onWay == [] then (l.page.phase.Answering? ==> i == a) && (l.page.phase.Feedback? ==> i + 1 == a)
    else match l.onWay[0]
      case Asked(_) => i == a
      case Replied(Some(_)) => i + 1 == a
      case Replied(None) => true
  }

  lemma {:induction false} SkipFreeRunIsInStep(l: Loop, run: seq<Action>)
    requires InLockstep(l) && InStep(l) && Valid(l, run) && SerialRun(l, run) && forall a | a in run :: !a.Skip?
    ensures InLockstep(Run(l, run)) && InStep(Run(l, run))
    decreases run
  {
    if run != [] {
      assert run[0] in run && forall a | a in run[1..] :: a in run;
      StepKeepsLockstep(l, run[0]);
      SkipFreeRunIsInStep(Next(l, run[0]), run[1..]);
    }
  }

  /**
   * Without skips the page and the server are always in lockstep: an answer is given to the card at
   * `cardIndex`, which is the server's count, and feedback is on the card before the count.
   */
  lemma SkipFreeSessionIsInLockstep(cards: seq<string>, run: seq<Action>, l: Loop)
    requires Valid(Start(cards), run) && l == Run(Start(cards), run) && forall a | a in run :: !a.Skip?
    ensures InLockstep(l)
    ensures l.page.phase.Answering? && l.onWay == [] ==>
              l.page.cardIndex == l.server.answered < |cards| && l.page.current == cards[l.page.cardIndex]
    ensures l.page.phase.Feedback? ==> l.page.cardIndex + 1 == l.server.answered
  {
    SkipFreeRun(Start(cards), run);
    SerialUnlessFreshInput(cards, run);
    StartInLockstep(cards);
    ServerKeepsCards(Start(cards), run);
    SkipFreeRunIsInStep(Start(cards), run);
  }

  // ---- an idle skip always costs a card ------------------------------------------------

  /** Card `j` was passed over: it has not been answered, is not on its way, and will not be shown again. */
  ghost predicate PassedOver(l: Loop, j: nat) {
    var cards := l.server.cards;
    && l.page.cards == cards && j < |cards| && j <= l.server.answered && j <= l.page.cardIndex
    && cards[j] !in l.submitted
    && (forall k :: 0 <= k < |l.onWay| ==> !Brings(l.onWay[k], cards[j]))
    && match l.page.phase
       case Answering => j < l.page.cardIndex && l.page.current != cards[j]
       case Feedback(next) => next != Some(cards[j])
       case _ => true
  }

  predicate Brings(m: Message, card: string) {
    match m
    case Asked(c) => c == card
    case Replied(Some(r)) => r.next == Some(card)
    case Replied(None) => false
  }

  lemma StepPassesOver(l: Loop, a: Action, j: nat)
    requires PassedOver(l, j) && Enabled(l, a) && NoDup(l.server.cards)
    ensures PassedOver(Next(l, a), j)
  {
  }

  lemma {:induction false} RunPassesOver(l: Loop, run: seq<Action>, j: nat)
    requires PassedOver(l, j) && Valid(l, run) && NoDup(l.server.cards)
    ensures PassedOver(Run(l, run), j)
    decreases run
  {
    if run != [] {
      StepPassesOver(l, run[0], j);
      RunPassesOver(Next(l, run[0]), run[1..], j);
    }
  }

  lemma NotYetIn(cards: seq<string>, j: nat)
    requires NoDup(cards) && j < |cards|
    ensures cards[j] !in cards[..j]
  {
  }

  /** The card on show when the first skip is pressed with nothing on its way. */
  function FirstSkipped(l: Loop, run: seq<Action>): string
    requires Valid(l, run) && SomeIdleSkip(l, run)
    decreases run
  {
    if IdleSkip(l, run[0]) then l.page.current else FirstSkipped(Next(l, run[0]), run[1..])
  }

  /** No answer is sent while another is on its way, up to that skip; afterwards answers may overlap. */
  ghost predicate SerialUpToIdleSkip(l: Loop, run: seq<Action>)
    requires Valid(l, run)
    decreases run
  {
    run == [] || IdleSkip(l, run[0]) ||
    ((run[0].Send? ==> l.onWay == []) && SerialUpToIdleSkip(Next(l, run[0]), run[1..]))
  }

  lemma {:induction false} SerialIsSerialUpTo(l: Loop, run: seq<Action>)
    requires Valid(l, run) && SerialRun(l, run)
    ensures SerialUpToIdleSkip(l, run)
    decreases run
  {
    if run != [] {
      SerialIsSerialUpTo(Next(l, run[0]), run[1..]);
    }
  }

  lemma IdleSkipPassesOver(l: Loop, a: Action)
    requires InLockstep(l) && Enabled(l, a) && IdleSkip(l, a) && NoDup(l.server.cards)
    ensures PassedOver(Next(l, a), l.server.answered) && l.page.current == l.server.cards[l.server.answered]
  {
    NotYetIn(l.server.cards, l.server.answered);
  }

  /** It is never answered, whatever follows. */
  lemma {:induction false} SkipCostsACard(l: Loop, run: seq<Action>)
    requires InLockstep(l) && Valid(l, run) && SomeIdleSkip(l, run) && SerialUpToIdleSkip(l, run)
    requires NoDup(l.server.cards)
    ensures var c := FirstSkipped(l, run); c in l.server.cards && c !in Run(l, run).submitted
    decreases run
  {
    if IdleSkip(l, run[0]) {
      IdleSkipPassesOver(l, run[0]);
      RunPassesOver(Next(l, run[0]), run[1..], l.server.answered);
      ServerKeepsCards(l, run);
    } else {
      StepKeepsLockstep(l, run[0]);
      SkipCostsACard(Next(l, run[0]), run[1..]);
    }
  }

  /**
   * A finished session over distinct cards, with one answer on its way at a time, answered every
   * card, each exactly once and in the order dealt, exactly when no skip was pressed with nothing
   * on its way. After such a skip some card was never answered.
   */
  lemma {:induction false} EachCardOnceIffNoIdleSkip(cards: seq<string>, run: seq<Action>, l: Loop)
    requires Valid(Start(cards), run) && SerialRun(Start(cards), run) && l == Run(Start(cards), run)
    requires l.page.phase.Summary? && l.onWay == [] && NoDup(cards)
    ensures l.submitted == cards <==> !SomeIdleSkip(Start(cards), run)
    ensures multiset(l.submitted) == multiset(cards) <==> !SomeIdleSkip(Start(cards), run)
    ensures (exists c :: c in cards && c !in l.submitted) <==> SomeIdleSkip(Start(cards), run)
  {
    StartInLockstep(cards);
    if SomeIdleSkip(Start(cards), run) {
      SerialIsSerialUpTo(Start(cards), run);
      SkipCostsACard(Start(cards), run);
      MissingCard(cards, l.submitted);
    } else {
      RunKeepsLockstep(Start(cards), run);
      ServerKeepsCards(Start(cards), run);
    }
  }

  lemma MissingCard(cards: seq<string>, submitted: seq<string>)
    requires exists c :: c in cards && c !in submitted
    ensures multiset(submitted) != multiset(cards) && submitted != cards
  {
    var c :| c in cards && c !in submitted;
    assert c in multiset(cards) && c !in multiset(submitted);
  }

  // ---- is the reply's next card the next unanswered one? -------------------------------

  /** The first card that has not been answered. */
  function FirstUnanswered(cards: seq<string>, submitted: seq<string>): Option<string> {
    if cards == [] then None
    else if cards[0] !in submitted then Some(cards[0])
    else FirstUnanswered(cards[1..], submitted)
  }

  lemma {:induction false} FirstUnansweredIs(cards: seq<string>, submitted: seq<string>, j: nat)
    requires j <= |cards| && (forall i :: 0 <= i < j ==> cards[i] in submitted)
    requires j < |cards| ==> cards[j] !in submitted
    ensures FirstUnanswered(cards, submitted) == if j < |cards| then Some(cards[j]) else None
  {
    if j > 0 {
      assert forall i | 0 <= i < j - 1 :: cards[1..][i] == cards[i + 1];
      FirstUnansweredIs(cards[1..], submitted, j - 1);
    }
  }

  predicate MakesReply(a: Action) { a.Serve? && a.outcome.Success? }

  /** This step's reply names the first unanswered card, or none when all are answered. */
  ghost predicate NamesTheNext(l: Loop, a: Action)
    requires Enabled(l, a)
  {
    var l' := Next(l, a);
    MakesReply(a) ==> l'.onWay[a.k].reply.value.next == FirstUnanswered(l'.server.cards, l'.submitted)
  }

  ghost predicate RepliesNameTheNext(l: Loop, run: seq<Action>)
    requires Valid(l, run)
    decreases run
  {
    run == [] || (NamesTheNext(l, run[0]) && RepliesNameTheNext(Next(l, run[0]), run[1..]))
  }

  predicate NoReplyIn(run: seq<Action>) {
    forall i :: 0 <= i < |run| ==> !MakesReply(run[i])
  }

  /** No reply is made after a skip pressed with nothing on its way. */
  ghost predicate IdleSkipsComeLast(l: Loop, run: seq<Action>)
    requires Valid(l, run)
    decreases run
  {
    if run == [] then true
    else if IdleSkip(l, run[0]) then NoReplyIn(run[1..])
    else IdleSkipsComeLast(Next(l, run[0]), run[1..])
  }

  lemma LockstepReply(l: Loop, a: Action)
    requires InLockstep(l) && Enabled(l, a) && MakesReply(a) && NoDup(l.server.cards)
    ensures NamesTheNext(l, a)
  {
    var l' := Next(l, a);
    StepKeepsLockstep(l, a);
    var cards, m := l.server.cards, l'.server.answered;
    if m < |cards| { NotYetIn(cards, m); }
    forall i | 0 <= i < m ensures cards[i] in l'.submitted { assert cards[..m][i] == cards[i]; }
    FirstUnansweredIs(cards, l'.submitted, m);
  }

  /** Some idle skips but no reply since lockstep: the page is ahead of the server. */
  ghost predicate Ahead(l: Loop) {
    var cards, j, i := l.server.cards, l.server.answered, l.page.cardIndex;
    && l.page.cards == cards && j < |cards| && l.submitted == cards[..j] && |l.onWay| <= 1
    && !l.page.phase.Feedback?
    && (l.page.phase.Answering? || l.onWay != [] ==> j < i < |cards|)
    && (l.page.phase.Answering? ==> l.page.current == cards[i])
    && (l.onWay != [] ==> l.onWay[0].Asked? && l.onWay[0].card != cards[j])
  }

  /** A reply made from there names the card after the first unanswered one. */
  lemma ReplyAfterIdleSkip(l: Loop, a: Action)
    requires Ahead(l) && Enabled(l, a) && MakesReply(a) && NoDup(l.server.cards)
    ensures var l' := Next(l, a); var j := l.server.answered;
      && j + 1 < |l.server.cards|
      && l'.onWay == [Replied(Some(ReplyOf(l'.server)))] && NextCard(l'.server) == Some(l.server.cards[j + 1])
      && FirstUnanswered(l'.server.cards, l'.submitted) == Some(l.server.cards[j])
  {
    var l' := Next(l, a);
    var cards, j := l.server.cards, l.server.answered;
    NotYetIn(cards, j);
    forall i | 0 <= i < j ensures cards[i] in l'.submitted { assert cards[..j][i] == cards[i]; }
    FirstUnansweredIs(cards, l'.submitted, j);
  }

  /** A request has failed and nothing else can be sent. */
  ghost predicate Doomed(l: Loop) {
    || (l.onWay == [Replied(None)] && !l.page.phase.Feedback?)
    || (l.onWay == [] && Over(l.page.phase))
  }

  lemma {:induction false} DoomedMakesNoReply(l: Loop, run: seq<Action>)
    requires Doomed(l) && Valid(l, run) && SerialRun(l, run)
    ensures NoReplyIn(run) && RepliesNameTheNext(l, run)
    decreases run
  {
    if run != [] {
      DoomedMakesNoReply(Next(l, run[0]), run[1..]);
    }
  }

  lemma AheadStays(l: Loop, a: Action)
    requires Ahead(l) && Enabled(l, a) && (a.Send? ==> l.onWay == []) && NoDup(l.server.cards)
    ensures !a.Serve? ==> Ahead(Next(l, a))
    ensures a.Serve? && !MakesReply(a) ==> Doomed(Next(l, a))
  {
  }

  lemma {:induction false} AheadDecides(l: Loop, run: seq<Action>)
    requires Ahead(l) && Valid(l, run) && SerialRun(l, run) && NoDup(l.server.cards)
    ensures RepliesNameTheNext(l, run) <==> NoReplyIn(run)
    decreases run
  {
    if run != [] {
      AheadStays(l, run[0]);
      if MakesReply(run[0]) {
        ReplyAfterIdleSkip(l, run[0]);
      } else if run[0].Serve? {
        DoomedMakesNoReply(Next(l, run[0]), run[1..]);
      } else {
        AheadDecides(Next(l, run[0]), run[1..]);
      }
      NoReplyTail(run);
    }
  }

  lemma NoReplyTail(run: seq<Action>)
    requires run != []
    ensures NoReplyIn(run) <==> !MakesReply(run[0]) && NoReplyIn(run[1..])
  {
    assert forall i | 0 < i < |run| :: run[i] == run[1..][i - 1];
  }

  lemma IdleSkipPutsAhead(l: Loop, a: Action)
    requires InLockstep(l) && Enabled(l, a) && IdleSkip(l, a)
    ensures Ahead(Next(l, a))
  {
  }

  lemma {:induction false} LockstepDecides(l: Loop, run: seq<Action>)
    requires InLockstep(l) && Valid(l, run) && SerialRun(l, run) && NoDup(l.server.cards)
    ensures RepliesNameTheNext(l, run) <==> IdleSkipsComeLast(l, run)
    decreases run
  {
    if run != [] {
      if IdleSkip(l, run[0]) {
        IdleSkipPutsAhead(l, run[0]);
        AheadDecides(Next(l, run[0]), run[1..]);
      } else {
        if MakesReply(run[0]) { LockstepReply(l, run[0]); }
        StepKeepsLockstep(l, run[0]);
        LockstepDecides(Next(l, run[0]), run[1..]);
      }
    }
  }

  /**
   * Over distinct cards, with one answer on its way at a time, every reply's next card is the next
   * unanswered one exactly when no reply is made after a skip pressed with nothing on its way.
   */
  lemma NextCardIsNextUnansweredExactly(cards: seq<string>, run: seq<Action>)
    requires Valid(Start(cards), run) && SerialRun(Start(cards), run) && NoDup(cards)
    ensures RepliesNameTheNext(Start(cards), run) <==> IdleSkipsComeLast(Start(cards), run)
  {
    StartInLockstep(cards);
    LockstepDecides(Start(cards), run);
  }

  /** A run in which it is not: after an idle skip the reply names the card just answered. */
  lemma SkippedThenRepeated(a: string, b: string, v: bool)
    requires a != b
    ensures var l := Next(Next(Next(Start([a, b]), Skip(false)), Send), Serve(0, Success(v)));
      && l.submitted == [b] && l.onWay == [Replied(Some(ReplyOf(l.server)))]
      && NextCard(l.server) == Some(b) && FirstUnanswered([a, b], l.submitted) == Some(a)
  {
    StartInLockstep([a, b]);
    IdleSkipPutsAhead(Start([a, b]), Skip(false));
    ReplyAfterIdleSkip(Next(Next(Start([a, b]), Skip(false)), Send), Serve(0, Success(v)));
  }
}
