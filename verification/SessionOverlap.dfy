/**
 * Sessions in which answers may overlap: every run of the page and the server, with any number of
 * answers on their way. They still end, with fewer than twice as many answers as cards; and which
 * decks allow more answers than cards is decided by the kinds of input their cards need.
 */
module SessionOverlap {
  import opened Seqs
  import opened Handler
  import opened Mastery
  import opened SessionLoop

  // ---- sums over the messages on their way ---------------------------------------------

  function Sum(weight: Message -> nat, ms: seq<Message>): nat {
    if ms == [] then 0 else weight(ms[0]) + Sum(weight, ms[1..])
  }

  lemma {:induction false} SumAppend(weight: Message -> nat, a: seq<Message>, b: seq<Message>)
    ensures Sum(weight, a + b) == Sum(weight, a) + Sum(weight, b)
  {
    if a == [] {
      assert a + b == b;
    } else {
      assert (a + b)[1..] == a[1..] + b;
      SumAppend(weight, a[1..], b);
    }
  }

  lemma SumSplit(weight: Message -> nat, ms: seq<Message>, k: nat)
    requires k < |ms|
    ensures Sum(weight, ms) == Sum(weight, ms[..k]) + weight(ms[k]) + Sum(weight, ms[k + 1..])
  {
    SumAppend(weight, ms[..k], [ms[k]] + ms[k + 1..]);
    SumAppend(weight, [ms[k]], ms[k + 1..]);
    assert ms == ms[..k] + ([ms[k]] + ms[k + 1..]);
    assert [ms[k]][1..] == [];
  }

  lemma SumUpdate(weight: Message -> nat, ms: seq<Message>, k: nat, m: Message)
    requires k < |ms|
    ensures Sum(weight, ms[k := m]) + weight(ms[k]) == Sum(weight, ms) + weight(m)
  {
    SumSplit(weight, ms, k);
    SumSplit(weight, ms[k := m], k);
    assert ms[k := m][..k] == ms[..k] && ms[k := m][k + 1..] == ms[k + 1..];
  }

  lemma SumWithout(weight: Message -> nat, ms: seq<Message>, k: nat)
    requires k < |ms|
    ensures Sum(weight, Without(ms, k)) + weight(ms[k]) == Sum(weight, ms)
  {
    SumSplit(weight, ms, k);
    SumAppend(weight, ms[..k], ms[k + 1..]);
  }

  lemma SumOne(weight: Message -> nat, ms: seq<Message>, m: Message)
    ensures Sum(weight, ms + [m]) == Sum(weight, ms) + weight(m)
  {
    SumAppend(weight, ms, [m]);
    assert [m][1..] == [];
  }

  /** What an action does to the sum over the messages on their way. */
  lemma SumStep(weight: Message -> nat, l: Loop, a: Action)
    requires Enabled(l, a)
    ensures var l' := Next(l, a);
      match a
      case Send => Sum(weight, l'.onWay) == Sum(weight, l.onWay) + weight(Asked(l.page.current))
      case Serve(k, _) => Sum(weight, l'.onWay) + weight(l.onWay[k]) == Sum(weight, l.onWay) + weight(l'.onWay[k])
      case Deliver(k) => Sum(weight, l'.onWay) + weight(l.onWay[k]) == Sum(weight, l.onWay)
      case _ => l'.onWay == l.onWay
  {
    match a
    case Send => SumOne(weight, l.onWay, Asked(l.page.current));
    case Serve(k, _) => SumUpdate(weight, l.onWay, k, Next(l, a).onWay[k]);
    case Deliver(k) => SumWithout(weight, l.onWay, k);
    case _ =>
  }

  // ---- every session ends --------------------------------------------------------------

  predicate NamesACard(m: Message) { m.Replied? && m.reply.Some? && m.reply.value.next.Some? }

  predicate FreshInput(l: Loop) { l.page.phase.Answering? && !l.spent }

  predicate Offered(p: Phase) { p.Feedback? && p.next.Some? }

  /** How often a position can still move forward without reaching the end. */
  function Rest(n: nat, position: nat): nat {
    if position + 1 < n then n - 1 - position else 0
  }

  function Moves(l: Loop): nat {
    Rest(|l.server.cards|, l.page.cardIndex) + Rest(|l.server.cards|, l.server.answered)
  }

  function MessageSteps(m: Message): nat {
    if m.Asked? then 3 else if NamesACard(m) then 7 else 2
  }

  function PhaseEffort(p: Phase): nat {
    if Offered(p) then 6 else if p.Answering? || p.Feedback? then 1 else 0
  }

  /** Every action lowers it. */
  function Effort(l: Loop): nat {
    5 * Moves(l) + (if FreshInput(l) then 4 else 0) + PhaseEffort(l.page.phase) + Sum(MessageSteps, l.onWay)
  }

  lemma ActionCosts(l: Loop, a: Action)
    requires l.page.cards == l.server.cards && Enabled(l, a)
    ensures Next(l, a).page.cards == Next(l, a).server.cards == l.server.cards
    ensures Effort(Next(l, a)) < Effort(l)
  {
    SumStep(MessageSteps, l, a);
  }

  lemma {:induction false} RunCosts(l: Loop, run: seq<Action>)
    requires l.page.cards == l.server.cards && Valid(l, run)
    ensures |run| + Effort(Run(l, run)) <= Effort(l)
    decreases run
  {
    if run != [] {
      ActionCosts(l, run[0]);
      RunCosts(Next(l, run[0]), run[1..]);
    }
  }

  /** An answer that may still come: asked, or to be sent from an input to come. */
  function MessageChances(m: Message): nat {
    if m.Asked? || NamesACard(m) then 1 else 0
  }

  /** How many more answers can be counted at most. */
  function Chances(l: Loop): nat {
    Moves(l) + (if FreshInput(l) then 1 else 0) + (if Offered(l.page.phase) then 1 else 0)
      + Sum(MessageChances, l.onWay)
  }

  lemma ActionTakesChances(l: Loop, a: Action)
    requires l.page.cards == l.server.cards && Enabled(l, a)
    ensures Next(l, a).page.cards == Next(l, a).server.cards == l.server.cards
    ensures |Next(l, a).submitted| + Chances(Next(l, a)) <= |l.submitted| + Chances(l)
  {
    SumStep(MessageChances, l, a);
  }

  lemma {:induction false} RunTakesChances(l: Loop, run: seq<Action>)
    requires l.page.cards == l.server.cards && Valid(l, run)
    ensures |Run(l, run).submitted| + Chances(Run(l, run)) <= |l.submitted| + Chances(l)
    decreases run
  {
    if run != [] {
      ActionTakesChances(l, run[0]);
      RunTakesChances(Next(l, run[0]), run[1..]);
    }
  }

  lemma StartBudget(cards: seq<string>)
    ensures Effort(Start(cards)) <= 10 * |cards|
    ensures cards != [] ==> Chances(Start(cards)) <= 2 * |cards| - 1
    ensures cards == [] ==> Chances(Start(cards)) == 0
    ensures Start(cards).page.cards == Start(cards).server.cards == cards && NoFailure(Start(cards))
  {
  }

  /**
   * Every session ends, whatever mix of overlapping answers, skips, failures and orders of delivery
   * leads to `l`: after at most 10·Total steps, with fewer than twice as many answers as cards, and
   * in the summary, or on the error page if a request failed.
   */
  lemma {:induction false} SessionTerminates(cards: seq<string>, run: seq<Action>, l: Loop)
    requires Valid(Start(cards), run) && l == Run(Start(cards), run)
    ensures |run| <= 10 * |cards|
    ensures |l.submitted| <= if cards == [] then 0 else 2 * |cards| - 1
    ensures Stuck(l) <==> Over(l.page.phase) && l.onWay == []
    ensures l.page.phase.Failed? ==> SomeRequestFailed(run)
  {
    StartBudget(cards);
    RunCosts(Start(cards), run);
    RunTakesChances(Start(cards), run);
    StuckAtTheEnd(l);
    if !SomeRequestFailed(run) { FailsByARequest(Start(cards), run); }
  }

  // ---- decks by the kinds of input their cards need ------------------------------------

  /** A skip mounts a fresh input exactly when the next dealt card needs another kind than the shown one. */
  predicate Remounts(l: Loop, kind: string -> int) {
    var next := l.page.cardIndex + 1;
    next < |l.page.cards| && kind(l.page.cards[next]) != kind(l.page.current)
  }

  predicate FitsKinds(l: Loop, a: Action, kind: string -> int) {
    a.Skip? ==> a.remounts == Remounts(l, kind)
  }

  ghost predicate OfKinds(l: Loop, run: seq<Action>, kind: string -> int)
    requires Valid(l, run)
    decreases run
  {
    run == [] || (FitsKinds(l, run[0], kind) && OfKinds(Next(l, run[0]), run[1..], kind))
  }

  /** All dealt cards need the same kind of input. */
  ghost predicate OneKind(cards: seq<string>, kind: string -> int) {
    forall i :: 0 <= i < |cards| - 1 ==> kind(cards[i]) == kind(cards[i + 1])
  }

  lemma {:induction false} OneKindThroughout(cards: seq<string>, kind: string -> int, i: nat)
    requires OneKind(cards, kind) && i < |cards|
    ensures kind(cards[i]) == kind(cards[0])
  {
    if i > 0 {
      OneKindThroughout(cards, kind, i - 1);
    }
  }

  /** Only dealt cards are ever shown or named. */
  ghost predicate ShowsDealt(l: Loop) {
    && l.page.cards == l.server.cards
    && (l.page.phase.Answering? ==> l.page.current in l.page.cards)
    && (Offered(l.page.phase) ==> l.page.phase.next.value in l.page.cards)
    && forall m | m in l.onWay :: NamesACard(m) ==> m.reply.value.next.value in l.page.cards
  }

  lemma StepShowsDealt(l: Loop, a: Action)
    requires ShowsDealt(l) && Enabled(l, a)
    ensures ShowsDealt(Next(l, a)) && Next(l, a).page.cards == l.page.cards
  {
  }

  lemma {:induction false} OneKindNeverRemounts(l: Loop, run: seq<Action>, kind: string -> int)
    requires ShowsDealt(l) && OneKind(l.page.cards, kind) && Valid(l, run) && OfKinds(l, run, kind)
    ensures NoFreshInputInFlight(l, run)
    decreases run
  {
    if run != [] {
      if run[0].Skip? && l.page.cardIndex + 1 < |l.page.cards| {
        var i :| 0 <= i < |l.page.cards| && l.page.cards[i] == l.page.current;
        OneKindThroughout(l.page.cards, kind, i);
        OneKindThroughout(l.page.cards, kind, l.page.cardIndex + 1);
      }
      StepShowsDealt(l, run[0]);
      OneKindNeverRemounts(Next(l, run[0]), run[1..], kind);
    }
  }

  // ---- reaching a state ----------------------------------------------------------------

  ghost predicate Reaches(cards: seq<string>, kind: string -> int, l: Loop) {
    exists run :: Valid(Start(cards), run) && OfKinds(Start(cards), run, kind) && Run(Start(cards), run) == l
  }

  lemma {:induction false} RunThen(l: Loop, run: seq<Action>, a: Action, kind: string -> int)
    requires Valid(l, run) && OfKinds(l, run, kind)
    requires Enabled(Run(l, run), a) && FitsKinds(Run(l, run), a, kind)
    ensures Valid(l, run + [a]) && OfKinds(l, run + [a], kind) && Run(l, run + [a]) == Next(Run(l, run), a)
    decreases run
  {
    if run == [] {
      assert [] + [a] == [a] && [a][1..] == [];
    } else {
      assert (run + [a])[1..] == run[1..] + [a];
      RunThen(Next(l, run[0]), run[1..], a, kind);
    }
  }

  lemma Reach(cards: seq<string>, kind: string -> int, l: Loop, a: Action) returns (l': Loop)
    requires Reaches(cards, kind, l) && Enabled(l, a) && FitsKinds(l, a, kind)
    ensures l' == Next(l, a) && Reaches(cards, kind, l')
  {
    var run :| Valid(Start(cards), run) && OfKinds(Start(cards), run, kind) && Run(Start(cards), run) == l;
    RunThen(Start(cards), run, a, kind);
    l' := Next(l, a);
  }

  /** Ready for the card at the server's count, with `kept` on its way. */
  ghost predicate Ready(cards: seq<string>, l: Loop, kept: seq<Message>) {
    && l.page.cards == l.server.cards == cards && l.onWay == kept && FreshInput(l)
    && l.page.cardIndex == l.server.answered == |l.submitted| < |cards|
    && l.page.current == cards[l.server.answered]
  }

  /** The reply to the card before the server's count is on show. */
  ghost predicate Answered(cards: seq<string>, l: Loop, kept: seq<Message>) {
    && l.page.cards == l.server.cards == cards && l.onWay == kept
    && l.page.cardIndex + 1 == l.server.answered == |l.submitted| <= |cards|
    && l.page.phase == Feedback(NextCard(l.server))
  }

  lemma AnswerOne(cards: seq<string>, kind: string -> int, l: Loop, kept: seq<Message>) returns (l': Loop)
    requires Reaches(cards, kind, l) && Ready(cards, l, kept)
    ensures Reaches(cards, kind, l') && Answered(cards, l', kept) && l'.server.answered == l.server.answered + 1
  {
    var k := |kept|;
    var sent := Reach(cards, kind, l, Send);
    var served := Reach(cards, kind, sent, Serve(k, Success(true)));
    assert served.onWay == kept + [Replied(Some(ReplyOf(served.server)))];
    l' := Reach(cards, kind, served, Deliver(k));
    assert Without(served.onWay, k) == kept;
  }

  /** Answering card after card, with `kept` on its way all the time. */
  lemma {:induction false} AnswerUpTo(cards: seq<string>, kind: string -> int, l: Loop, kept: seq<Message>, m: nat)
    returns (l': Loop)
    requires Reaches(cards, kind, l) && Ready(cards, l, kept) && l.server.answered < m <= |cards|
    ensures Reaches(cards, kind, l') && Answered(cards, l', kept) && l'.server.answered == m
    decreases m - l.server.answered
  {
    l' := AnswerOne(cards, kind, l, kept);
    if l'.server.answered < m {
      l' := Reach(cards, kind, l', Continue);
      l' := AnswerUpTo(cards, kind, l', kept, m);
    }
  }

  lemma ReadyAt(cards: seq<string>, kind: string -> int, i: nat) returns (l: Loop)
    requires i < |cards|
    ensures Reaches(cards, kind, l) && Ready(cards, l, []) && l.server.answered == i
  {
    l := Start(cards);
    assert Valid(l, []) && OfKinds(l, [], kind) && Run(l, []) == l;
    if i > 0 {
      l := AnswerUpTo(cards, kind, l, [], i);
      l := Reach(cards, kind, l, Continue);
    }
  }

  /** Two answers on their way at a change of kind; the reply to the first is kept there. */
  lemma KeepAReply(cards: seq<string>, kind: string -> int, i: nat) returns (l: Loop, kept: seq<Message>)
    requires i + 1 < |cards| && kind(cards[i]) != kind(cards[i + 1])
    ensures Reaches(cards, kind, l) && Answered(cards, l, kept) && l.server.answered == i + 2
    ensures |kept| == 1 && NamesACard(kept[0])
  {
    l := ReadyAt(cards, kind, i);
    l := Reach(cards, kind, l, Send);
    l := Reach(cards, kind, l, Skip(true));
    l := Reach(cards, kind, l, Send);
    assert l.onWay == [Asked(cards[i]), Asked(cards[i + 1])];
    l := Reach(cards, kind, l, Serve(0, Success(true)));
    kept := [Replied(Some(ReplyOf(l.server)))];
    assert l.onWay == kept + [Asked(cards[i + 1])];
    l := Reach(cards, kind, l, Serve(1, Success(true)));
    assert l.onWay == kept + [Replied(Some(ReplyOf(l.server)))];
    var both := l.onWay;
    l := Reach(cards, kind, l, Deliver(1));
    assert Without(both, 1) == kept;
  }

  /** The kept reply brings a fresh input after all cards have been answered. */
  lemma OneTooMany(cards: seq<string>, kind: string -> int, i: nat) returns (l: Loop)
    requires i + 1 < |cards| && kind(cards[i]) != kind(cards[i + 1])
    ensures Reaches(cards, kind, l) && |l.submitted| == |cards| + 1
  {
    var kept;
    l, kept := KeepAReply(cards, kind, i);
    if i + 2 < |cards| {
      l := Reach(cards, kind, l, Continue);
      l := AnswerUpTo(cards, kind, l, kept, |cards|);
    }
    l := Reach(cards, kind, l, Deliver(0));
    l := Reach(cards, kind, l, Continue);
    l := Reach(cards, kind, l, Send);
    var k := |l.onWay| - 1;
    l := Reach(cards, kind, l, Serve(k, Success(true)));
  }

  /**
   * Exactly which decks keep every session within Total answers, whatever is skipped, delayed or
   * lost: those in which neighbouring cards, hence all cards, need the same kind of input.
   */
  lemma AnswersFitExactly(cards: seq<string>, kind: string -> int)
    ensures (forall run | Valid(Start(cards), run) && OfKinds(Start(cards), run, kind) ::
               |Run(Start(cards), run).submitted| <= |cards|)
       <==> OneKind(cards, kind)
  {
    if OneKind(cards, kind) {
      forall run | Valid(Start(cards), run) && OfKinds(Start(cards), run, kind)
        ensures |Run(Start(cards), run).submitted| <= |cards|
      {
        OneKindNeverRemounts(Start(cards), run, kind);
        SerialUnlessFreshInput(cards, run);
        SerialSessionTerminates(cards, run, Run(Start(cards), run));
      }
    } else {
      var i :| 0 <= i < |cards| - 1 && kind(cards[i]) != kind(cards[i + 1]);
      var l := OneTooMany(cards, kind, i);
      var run :| Valid(Start(cards), run) && OfKinds(Start(cards), run, kind) && Run(Start(cards), run) == l;
      assert !(|Run(Start(cards), run).submitted| <= |cards|);
    }
  }

  // ---- the bound is reached ------------------------------------------------------------

  ghost predicate AllAsked(ms: seq<Message>) { forall k :: 0 <= k < |ms| ==> ms[k].Asked? }

  /** Every dealt card sent before any reply. */
  lemma {:induction false} SendThrough(cards: seq<string>, kind: string -> int, k: nat) returns (l: Loop)
    requires k < |cards| && forall i :: 0 <= i < |cards| - 1 ==> kind(cards[i]) != kind(cards[i + 1])
    ensures Reaches(cards, kind, l) && l.page.cards == l.server.cards == cards && AllAsked(l.onWay)
    ensures l.page.phase.Answering? && l.page.cardIndex == k && l.page.current == cards[k]
    ensures |l.onWay| == k + 1 && l.server.answered == |l.submitted| == 0
  {
    if k == 0 {
      l := ReadyAt(cards, kind, 0);
    } else {
      l := SendThrough(cards, kind, k - 1);
      l := Reach(cards, kind, l, Skip(true));
    }
    l := Reach(cards, kind, l, Send);
  }

  /** Serving and delivering what is on its way. */
  lemma {:induction false} ServeRest(cards: seq<string>, kind: string -> int, l: Loop) returns (l': Loop)
    requires Reaches(cards, kind, l) && AllAsked(l.onWay)
    ensures Reaches(cards, kind, l') && |l'.submitted| == |l.submitted| + |l.onWay|
    decreases |l.onWay|
  {
    l' := l;
    if l.onWay != [] {
      l' := Reach(cards, kind, l', Serve(0, Success(true)));
      l' := Reach(cards, kind, l', Deliver(0));
      l' := ServeRest(cards, kind, l');
    }
  }

  /** Each reply that names a card brings a fresh input and so one more answer. */
  lemma {:induction false} ServeAndSend(cards: seq<string>, kind: string -> int, l: Loop) returns (l': Loop)
    requires Reaches(cards, kind, l) && l.page.cards == l.server.cards == cards && AllAsked(l.onWay)
    requires l.server.answered == |l.submitted| && |l.submitted| + |l.onWay| >= |cards|
    ensures Reaches(cards, kind, l')
    ensures |l'.submitted| == |l.submitted| + |l.onWay| + Rest(|cards|, l.server.answered)
    decreases Rest(|cards|, l.server.answered)
  {
    if l.server.answered + 1 < |cards| {
      l' := Reach(cards, kind, l, Serve(0, Success(true)));
      l' := Reach(cards, kind, l', Deliver(0));
      l' := Reach(cards, kind, l', Continue);
      l' := Reach(cards, kind, l', Send);
      l' := ServeAndSend(cards, kind, l');
    } else {
      l' := ServeRest(cards, kind, l);
    }
  }

  /** A deck whose neighbouring cards all need different kinds of input can count 2·Total - 1 answers. */
  lemma BoundIsReached(cards: seq<string>, kind: string -> int) returns (run: seq<Action>)
    requires cards != [] && forall i :: 0 <= i < |cards| - 1 ==> kind(cards[i]) != kind(cards[i + 1])
    ensures Valid(Start(cards), run) && OfKinds(Start(cards), run, kind)
    ensures |Run(Start(cards), run).submitted| == 2 * |cards| - 1
  {
    var l := SendThrough(cards, kind, |cards| - 1);
    l := ServeAndSend(cards, kind, l);
    run :| Valid(Start(cards), run) && OfKinds(Start(cards), run, kind) && Run(Start(cards), run) == l;
  }

  // ---- what replies say when answers overlap -------------------------------------------

  /** The progress after some of the verdicts counted so far, the first `m`. */
  ghost predicate Reports(p: Progress, total: nat, h: seq<bool>) {
    exists m: nat :: m <= |h| && p == Progress(m, total, CountOf(h[..m], true), CountOf(h[..m], false))
  }

  lemma ReportsGrow(p: Progress, total: nat, h: seq<bool>, v: seq<bool>)
    requires Reports(p, total, h)
    ensures Reports(p, total, h + v)
  {
    var m: nat :| m <= |h| && p == Progress(m, total, CountOf(h[..m], true), CountOf(h[..m], false));
    assert (h + v)[..m] == h[..m];
  }

  lemma ReportsAll(ss: SessionState, h: seq<bool>)
    requires ss.answered == |h| && ss.correct == CountOf(h, true)
    ensures Reports(ProgressOf(ss), |ss.cards|, h)
  {
    CountsAddUp(h);
    assert h[..|h|] == h;
  }

  ghost predicate AllReport(l: Loop, h: seq<bool>) {
    var n := |l.server.cards|;
    && l.server.answered == |h| && l.server.correct == CountOf(h, true)
    && Reports(l.page.progress, n, h)
    && forall k :: 0 <= k < |l.onWay| && l.onWay[k].Replied? && l.onWay[k].reply.Some? ==>
         Reports(l.onWay[k].reply.value.progress, n, h)
  }

  lemma StepReports(l: Loop, a: Action, h: seq<bool>)
    requires AllReport(l, h) && Enabled(l, a)
    ensures AllReport(Next(l, a), h + VerdictOf(a))
  {
    var l', h' := Next(l, a), h + VerdictOf(a);
    CountAppend(h, VerdictOf(a), true);
    assert VerdictOf(a) != [] ==> VerdictOf(a)[..0] == [];
    ReportsGrow(l.page.progress, |l.server.cards|, h, VerdictOf(a));
    ReportsAll(l'.server, h');
    forall k | 0 <= k < |l.onWay| && l.onWay[k].Replied? && l.onWay[k].reply.Some?
      ensures Reports(l.onWay[k].reply.value.progress, |l.server.cards|, h')
    {
      ReportsGrow(l.onWay[k].reply.value.progress, |l.server.cards|, h, VerdictOf(a));
    }
  }

  lemma {:induction false} RunReports(l: Loop, run: seq<Action>, h: seq<bool>, all: seq<bool>)
    requires AllReport(l, h) && Valid(l, run) && all == h + VerdictsOf(run)
    ensures AllReport(Run(l, run), all)
    decreases run
  {
    if run != [] {
      StepReports(l, run[0], h);
      AppendAssociates(h, VerdictOf(run[0]), VerdictsOf(run[1..]));
      RunReports(Next(l, run[0]), run[1..], h + VerdictOf(run[0]), all);
    } else {
      assert all == h;
    }
  }

  /** In every session the progress shown is the one after the first so many of the answers counted so far. */
  lemma {:induction false} ProgressIsOfAPrefix(cards: seq<string>, run: seq<Action>, l: Loop)
    requires Valid(Start(cards), run) && l == Run(Start(cards), run) && cards != []
    ensures Reports(l.page.progress, |cards|, VerdictsOf(run))
  {
    StartReports(cards);
    assert [] + VerdictsOf(run) == VerdictsOf(run);
    RunReports(Start(cards), run, [], VerdictsOf(run));
    ServerKeepsCards(Start(cards), run);
  }

  lemma StartReports(cards: seq<string>)
    requires cards != []
    ensures AllReport(Start(cards), [])
  {
    var none: seq<bool> := [];
    assert none[..0] == none;
    assert Reports(Start(cards).page.progress, |cards|, none);
  }

  lemma {:induction false} RunCountsSubmitted(l: Loop, run: seq<Action>)
    requires Valid(l, run) && |l.submitted| == l.server.answered
    ensures |Run(l, run).submitted| == Run(l, run).server.answered
    decreases run
  {
    if run != [] {
      RunCountsSubmitted(Next(l, run[0]), run[1..]);
    }
  }

  lemma {:induction false} FirstUnansweredAt(cards: seq<string>, submitted: seq<string>) returns (j: nat)
    ensures j <= |cards| && (forall i :: 0 <= i < j ==> cards[i] in submitted)
    ensures j < |cards| ==> cards[j] !in submitted
    ensures FirstUnanswered(cards, submitted) == if j < |cards| then Some(cards[j]) else None
  {
    if cards == [] || cards[0] !in submitted {
      j := 0;
    } else {
      j := FirstUnansweredAt(cards[1..], submitted);
      j := j + 1;
      forall i | 0 <= i < j ensures cards[i] in submitted { assert i > 0 ==> cards[i] == cards[1..][i - 1]; }
    }
  }

  /**
   * In every session over distinct cards: a reply names the next unanswered card exactly when every
   * card dealt before the count it reports has been answered.
   */
  lemma NamesTheNextExactly(cards: seq<string>, run: seq<Action>, l: Loop, a: Action)
    requires Valid(Start(cards), run) && l == Run(Start(cards), run) && NoDup(cards)
    requires Enabled(l, a) && MakesReply(a)
    ensures var l' := Next(l, a);
      NamesTheNext(l, a) <==> forall i :: 0 <= i < |cards| && i < l'.server.answered ==> cards[i] in l'.submitted
  {
    RunCountsSubmitted(Start(cards), run);
    ServerKeepsCards(Start(cards), run);
    var l' := Next(l, a);
    var m := l'.server.answered;
    var j := FirstUnansweredAt(cards, l'.submitted);
    if m < |cards| && forall i :: 0 <= i < m ==> cards[i] in l'.submitted {
      NoneBeyond(cards, l'.submitted, m);
    }
  }

  /** As many answers as cards before `m`, all of which were answered: card `m` was not. */
  lemma NoneBeyond(cards: seq<string>, submitted: seq<string>, m: nat)
    requires NoDup(cards) && |submitted| == m < |cards| && forall i :: 0 <= i < m ==> cards[i] in submitted
    ensures cards[m] !in submitted
  {
    if cards[m] in submitted {
      var p := cards[..m + 1];
      forall x | x in p ensures x in submitted {
        var i :| 0 <= i < |p| && p[i] == x;
        assert cards[i] == x;
      }
      Pigeonhole(p, submitted);
    }
  }
}
