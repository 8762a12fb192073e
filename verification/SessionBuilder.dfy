/**
 * `BuildSession` of `engine.go`: classify, shuffle, take each bucket's quota, backfill, shuffle.
 * The shuffles are arbitrary permutations, so everything here holds for every outcome of them.
 */
module SessionBuilder {
  import opened Seqs
  import opened Mastery

  /** `content` stands for the fields the selection never looks at. */
  datatype Card = Card(id: string, content: string)

  datatype SessionCard = SessionCard(card: Card, stage: int, options: nat, hint: Bucket)

  datatype Quotas = Quotas(sessionSize: nat, struggling: nat, review: nat, unseen: nat, maxNew: nat, mastered: nat)

  /** The constants of the program. */
  const STANDARD: Quotas := Quotas(20, 8, 6, 4, 3, 2)

  function Min(a: nat, b: nat): nat { if a < b then a else b }

  function Target(q: Quotas, b: Bucket): nat {
    match b
    case Struggling => q.struggling
    case Review => q.review
    case New => Min(q.unseen, q.maxNew)
    case Mastered => q.mastered
  }

  function Lookup(mastery: map<string, Row>, id: string): Record {
    if id in mastery then Record(mastery[id]) else NoRecord
  }

  function BucketOf(mastery: map<string, Row>, c: Card): Bucket {
    ClassifyCard(Lookup(mastery, c.id))
  }

  /** The cards of one bucket, in the order given. */
  function InBucket(cards: seq<Card>, mastery: map<string, Row>, b: Bucket): seq<Card> {
    if cards == [] then []
    else
      var front, last := cards[..|cards| - 1], cards[|cards| - 1];
      InBucket(front, mastery, b) + if BucketOf(mastery, last) == b then [last] else []
  }

  /** The session's cards that are labelled with bucket `b`. */
  function Chosen(session: seq<SessionCard>, b: Bucket): seq<Card> {
    if session == [] then []
    else (if session[0].hint == b then [session[0].card] else []) + Chosen(session[1..], b)
  }

  function CardsOf(session: seq<SessionCard>): (r: seq<Card>)
    ensures |r| == |session| && forall i :: 0 <= i < |r| ==> r[i] == session[i].card
  {
    seq(|session|, i requires 0 <= i < |session| => session[i].card)
  }

  // ---- how many cards come from each bucket --------------------------------------------

  /** Counts per bucket: struggling, review, new, mastered. */
  datatype Counts = Counts(s: nat, r: nat, n: nat, m: nat)

  function At(c: Counts, b: Bucket): nat {
    match b case Struggling => c.s case Review => c.r case New => c.n case Mastered => c.m
  }

  /** The quota of a bucket, as far as its cards go. */
  function Base(avail: Counts, q: Quotas, b: Bucket): nat {
    Min(Target(q, b), At(avail, b))
  }

  /**
   * What the allocator owes: no slot wasted, no more than a bucket holds, new cards capped,
   * quotas served in priority order before anything else, and surplus taken from review first,
   * then struggling, then mastered.
   */
  ghost predicate Allocates(c: Counts, avail: Counts, q: Quotas) {
    var bs, br, bn, bm := Base(avail, q, Struggling), Base(avail, q, Review), Base(avail, q, New),
                          Base(avail, q, Mastered);
    && c.s <= avail.s && c.r <= avail.r && c.n <= bn && c.m <= avail.m
    && c.s + c.r + c.n + c.m == Min(q.sessionSize, bn + avail.s + avail.r + avail.m)
    && (c.r > 0 ==> c.s >= bs)
    && (c.n > 0 ==> c.s >= bs && c.r >= br)
    && (c.m > 0 ==> c.s >= bs && c.r >= br && c.n >= bn)
    && (c.r > br ==> c.s >= bs && c.n >= bn && c.m >= bm)
    && (c.s > bs ==> c.n >= bn && c.m >= bm && c.r == avail.r)
    && (c.m > bm ==> c.r == avail.r && c.s == avail.s)
  }

  /** Those rules leave no choice. */
  lemma AllocationUnique(a: Counts, b: Counts, avail: Counts, q: Quotas)
    requires Allocates(a, avail, q) && Allocates(b, avail, q)
    ensures a == b
  {
  }

  // ---- the code ------------------------------------------------------------------------

  /** `rand.Shuffle`: swap each position, from the last down, with some position not after it. */
  method Shuffle<T>(s: seq<T>) returns (r: seq<T>)
    ensures multiset(r) == multiset(s) && |r| == |s|
  {
    r := s;
    var i := |s|;
    while i > 1
      invariant |r| == |s| && multiset(r) == multiset(s) && i <= |s|
    {
      i := i - 1;
      var j :| 0 <= j <= i;
      r := r[i := r[j]][j := r[i]];
    }
  }

  function ToSession(c: Card, mastery: map<string, Row>, b: Bucket): SessionCard {
    var stage := match Lookup(mastery, c.id) case Record(m) => m.stage case NoRecord => 0;
    SessionCard(c, stage, OptionsForStage(stage), b)
  }

  /** Every session card carries the stage, option count and bucket of its own mastery record. */
  ghost predicate Labelled(session: seq<SessionCard>, mastery: map<string, Row>) {
    forall i :: 0 <= i < |session| ==>
      var sc := session[i];
      && sc.hint == BucketOf(mastery, sc.card)
      && (sc.card.id in mastery ==> sc.stage == mastery[sc.card.id].stage)
      && (sc.card.id !in mastery ==> sc.stage == 0)
      && sc.options == (if sc.stage <= 0 then 4 else if sc.stage == 1 then 3 else 0)
  }

  /** How many of the session's cards carry each label. */
  ghost function CountsOf(session: seq<SessionCard>): Counts {
    Counts(|Chosen(session, Struggling)|, |Chosen(session, Review)|, |Chosen(session, New)|,
           |Chosen(session, Mastered)|)
  }

  // ---- bookkeeping for the loops -------------------------------------------------------

  /** The order in which the first pass visits the buckets. */
  function FillOrder(k: nat): Bucket
    requires k < 4
  {
    if k == 0 then Struggling else if k == 1 then Review else if k == 2 then New else Mastered
  }

  /** The order in which the backfill does. */
  function BackfillOrder(k: nat): Bucket
    requires k < 3
  {
    if k == 0 then Review else if k == 1 then Struggling else Mastered
  }

  function Raised(c: Counts, b: Bucket, n: nat): Counts {
    match b
    case Struggling => c.(s := n)
    case Review => c.(r := n)
    case New => c.(n := n)
    case Mastered => c.(m := n)
  }

  /** The bucket map: its four keys are there from the start. */
  datatype Buckets = Buckets(s: seq<Card>, r: seq<Card>, n: seq<Card>, m: seq<Card>)

  function Of(bs: Buckets, b: Bucket): seq<Card> {
    match b case Struggling => bs.s case Review => bs.r case New => bs.n case Mastered => bs.m
  }

  function Put(bs: Buckets, b: Bucket, cards: seq<Card>): (r: Buckets)
    ensures Of(r, b) == cards && forall x: Bucket :: x != b ==> Of(r, x) == Of(bs, x)
  {
    match b
    case Struggling => bs.(s := cards)
    case Review => bs.(r := cards)
    case New => bs.(n := cards)
    case Mastered => bs.(m := cards)
  }

  function Sizes(buckets: Buckets): Counts {
    Counts(|buckets.s|, |buckets.r|, |buckets.n|, |buckets.m|)
  }

  ghost predicate Sorted(buckets: Buckets, cards: seq<Card>, mastery: map<string, Row>) {
    forall b: Bucket :: multiset(Of(buckets, b)) == multiset(InBucket(cards, mastery, b))
  }

  /** The session's cards from bucket `b` are the first `n` of its cards. */
  ghost predicate HoldsOf(session: seq<SessionCard>, b: Bucket, bucket: seq<Card>, n: nat) {
    n <= |bucket| && Chosen(session, b) == bucket[..n]
  }

  /** The session holds the first `used` cards of each bucket, rightly labelled, and nothing else. */
  ghost predicate Holds(session: seq<SessionCard>, used: Counts, buckets: Buckets, mastery: map<string, Row>) {
    && |session| == used.s + used.r + used.n + used.m
    && Labelled(session, mastery)
    && HoldsOf(session, Struggling, buckets.s, used.s) && HoldsOf(session, Review, buckets.r, used.r)
    && HoldsOf(session, New, buckets.n, used.n) && HoldsOf(session, Mastered, buckets.m, used.m)
  }

  lemma {:induction false} ChosenAppend(s: seq<SessionCard>, sc: SessionCard, b: Bucket)
    ensures Chosen(s + [sc], b) == Chosen(s, b) + if sc.hint == b then [sc.card] else []
  {
    if s != [] {
      assert (s + [sc])[1..] == s[1..] + [sc];
      ChosenAppend(s[1..], sc, b);
    }
  }

  lemma {:induction false} InBucketClass(cards: seq<Card>, mastery: map<string, Row>, b: Bucket)
    ensures forall c | c in InBucket(cards, mastery, b) :: BucketOf(mastery, c) == b && c in cards
  {
    if cards != [] {
      InBucketClass(cards[..|cards| - 1], mastery, b);
    }
  }

  lemma SortedClass(buckets: Buckets, cards: seq<Card>, mastery: map<string, Row>, b: Bucket, i: nat)
    requires Sorted(buckets, cards, mastery) && i < |Of(buckets, b)|
    ensures BucketOf(mastery, Of(buckets, b)[i]) == b
  {
    InBucketClass(cards, mastery, b);
    assert Of(buckets, b)[i] in multiset(InBucket(cards, mastery, b));
  }

  lemma TakeOne(session: seq<SessionCard>, used: Counts, buckets: Buckets,
                cards: seq<Card>, mastery: map<string, Row>, b: Bucket)
    requires Sorted(buckets, cards, mastery) && Holds(session, used, buckets, mastery)
    requires At(used, b) < |Of(buckets, b)|
    ensures Holds(session + [ToSession(Of(buckets, b)[At(used, b)], mastery, b)], Raised(used, b, At(used, b) + 1),
            buckets, mastery)
  {
    var n := At(used, b);
    var bucket := Of(buckets, b);
    var sc := ToSession(bucket[n], mastery, b);
    SortedClass(buckets, cards, mastery, b, n);
    HoldsOneMore(session, sc, Struggling, buckets.s, used.s);
    HoldsOneMore(session, sc, Review, buckets.r, used.r);
    HoldsOneMore(session, sc, New, buckets.n, used.n);
    HoldsOneMore(session, sc, Mastered, buckets.m, used.m);
    LabelledAppend(session, sc, mastery);
  }

  lemma HoldsOneMore(session: seq<SessionCard>, sc: SessionCard, b: Bucket, bucket: seq<Card>, n: nat)
    requires HoldsOf(session, b, bucket, n)
    ensures sc.hint != b ==> HoldsOf(session + [sc], b, bucket, n)
    ensures sc.hint == b && n < |bucket| && sc.card == bucket[n] ==> HoldsOf(session + [sc], b, bucket, n + 1)
  {
    ChosenAppend(session, sc, b);
    if n < |bucket| {
      TakeOneMore(bucket, n);
    }
  }

  lemma TakeNext(session: seq<SessionCard>, used: Counts, buckets: Buckets,
                 cards: seq<Card>, mastery: map<string, Row>, b: Bucket, i: nat)
    requires Sorted(buckets, cards, mastery) && Holds(session, Raised(used, b, i), buckets, mastery)
    requires i < |Of(buckets, b)|
    ensures Holds(session + [ToSession(Of(buckets, b)[i], mastery, b)], Raised(used, b, i + 1), buckets, mastery)
  {
    RaisedAt(used, b, i);
    TakeOne(session, Raised(used, b, i), buckets, cards, mastery, b);
  }

  lemma RaisedAt(used: Counts, b: Bucket, n: nat)
    ensures At(Raised(used, b, n), b) == n
    ensures forall x: Bucket :: x != b ==> At(Raised(used, b, n), x) == At(used, x)
    ensures Raised(used, b, n).s + Raised(used, b, n).r + Raised(used, b, n).n + Raised(used, b, n).m ==
            used.s + used.r + used.n + used.m - At(used, b) + n
  {
  }

  lemma LabelledAppend(session: seq<SessionCard>, sc: SessionCard, mastery: map<string, Row>)
    requires Labelled(session, mastery) && Labelled([sc], mastery)
    ensures Labelled(session + [sc], mastery)
  {
    forall i | 0 <= i < |session| + 1 ensures (session + [sc])[i] == if i < |session| then session[i] else [sc][0] {
    }
  }

  method Classify(cards: seq<Card>, mastery: map<string, Row>) returns (buckets: Buckets)
    ensures forall b: Bucket :: Of(buckets, b) == InBucket(cards, mastery, b)
  {
    buckets := Buckets([], [], [], []);
    var i := 0;
    while i < |cards|
      invariant i <= |cards|
      invariant forall b: Bucket :: Of(buckets, b) == InBucket(cards[..i], mastery, b)
    {
      var b := BucketOf(mastery, cards[i]);
      assert cards[..i + 1][..i] == cards[..i];
      buckets := Put(buckets, b, Of(buckets, b) + [cards[i]]);
      i := i + 1;
    }
    assert cards[..i] == cards;
  }

  method ShuffleEach(classified: Buckets) returns (buckets: Buckets)
    ensures forall b: Bucket :: multiset(Of(buckets, b)) == multiset(Of(classified, b))
                                && |Of(buckets, b)| == |Of(classified, b)|
  {
    buckets := classified;
    var k := 0;
    while k < 4
      invariant k <= 4
      invariant forall b: Bucket :: multiset(Of(buckets, b)) == multiset(Of(classified, b))
                                    && |Of(buckets, b)| == |Of(classified, b)|
    {
      var shuffled := Shuffle(Of(buckets, FillOrder(k)));
      buckets := Put(buckets, FillOrder(k), shuffled);
      k := k + 1;
    }
  }

  /** Append the cards `from, .., to - 1` of a bucket. */
  method Take(session: seq<SessionCard>, ghost used: Counts, buckets: Buckets,
              ghost cards: seq<Card>, mastery: map<string, Row>, b: Bucket, from: nat, to: nat)
    returns (r: seq<SessionCard>)
    requires Sorted(buckets, cards, mastery) && Holds(session, used, buckets, mastery)
    requires At(used, b) == from <= to <= |Of(buckets, b)|
    ensures Holds(r, Raised(used, b, to), buckets, mastery)
    ensures |r| == |session| + to - from
  {
    r := session;
    var i := from;
    assert Raised(used, b, from) == used;
    while i < to
      invariant from <= i <= to && Holds(r, Raised(used, b, i), buckets, mastery)
      invariant |r| == |session| + i - from
    {
      TakeNext(r, used, buckets, cards, mastery, b, i);
      r := r + [ToSession(Of(buckets, b)[i], mastery, b)];
      i := i + 1;
    }
  }

  /** Where the first pass stands after `k` buckets: counts taken, quotas that can be served, slots left. */
  ghost predicate Fill(s: nat, r: nat, n: nat, m: nat, bs: nat, br: nat, bn: nat, bm: nat, k: nat, remaining: nat) {
    && s <= bs && r <= br && n <= bn && m <= bm
    && (k < 4 ==> m == 0) && (k < 3 ==> n == 0) && (k < 2 ==> r == 0) && (k < 1 ==> s == 0)
    && (remaining > 0 && k > 0 ==> s == bs) && (remaining > 0 && k > 1 ==> r == br)
    && (remaining > 0 && k > 2 ==> n == bn) && (remaining > 0 && k > 3 ==> m == bm)
    && (r > 0 ==> s == bs)
    && (n > 0 ==> s == bs && r == br)
    && (m > 0 ==> s == bs && r == br && n == bn)
  }

  ghost predicate Filling(used: Counts, avail: Counts, q: Quotas, k: nat, remaining: nat) {
    && used.s + used.r + used.n + used.m + remaining == q.sessionSize
    && Fill(used.s, used.r, used.n, used.m, Base(avail, q, Struggling), Base(avail, q, Review),
            Base(avail, q, New), Base(avail, q, Mastered), k, remaining)
  }

  /** Where the backfill stands after `k` buckets. */
  ghost predicate Backfilling(used: Counts, avail: Counts, q: Quotas, k: nat, remaining: nat) {
    var bs, br, bn, bm := Base(avail, q, Struggling), Base(avail, q, Review), Base(avail, q, New),
                          Base(avail, q, Mastered);
    && used.s + used.r + used.n + used.m + remaining == q.sessionSize
    && bs <= used.s <= avail.s && br <= used.r <= avail.r && used.n == bn && bm <= used.m <= avail.m
    && (k < 3 ==> used.m == bm) && (k < 2 ==> used.s == bs) && (k < 1 ==> used.r == br)
    && (remaining > 0 && k > 0 ==> used.r == avail.r) && (remaining > 0 && k > 1 ==> used.s == avail.s)
    && (remaining > 0 && k > 2 ==> used.m == avail.m)
    && (used.s > bs ==> used.r == avail.r)
    && (used.m > bm ==> used.r == avail.r && used.s == avail.s)
  }

  lemma SizeAt(buckets: Buckets, b: Bucket)
    ensures At(Sizes(buckets), b) == |Of(buckets, b)|
  {
  }

  lemma FillStep(used: Counts, avail: Counts, q: Quotas, k: nat, remaining: nat, target: nat)
    requires k < 4 && Filling(used, avail, q, k, remaining)
    requires target == Min(Base(avail, q, FillOrder(k)), remaining)
    ensures At(used, FillOrder(k)) == 0
    ensures Filling(Raised(used, FillOrder(k), target), avail, q, k + 1, remaining - target)
  {
    var bs, br, bn, bm := Base(avail, q, Struggling), Base(avail, q, Review), Base(avail, q, New),
                          Base(avail, q, Mastered);
    if k == 0 {
      FillNext(used.s, used.r, used.n, used.m, bs, br, bn, bm, k, remaining, target);
    } else if k == 1 {
      FillNext(used.s, used.r, used.n, used.m, bs, br, bn, bm, k, remaining, target);
    } else if k == 2 {
      FillNext(used.s, used.r, used.n, used.m, bs, br, bn, bm, k, remaining, target);
    } else {
      FillNext(used.s, used.r, used.n, used.m, bs, br, bn, bm, k, remaining, target);
    }
  }

  lemma FillNext(s: nat, r: nat, n: nat, m: nat, bs: nat, br: nat, bn: nat, bm: nat, k: nat, remaining: nat, t: nat)
    requires k < 4 && Fill(s, r, n, m, bs, br, bn, bm, k, remaining) && t <= remaining
    requires var base := if k == 0 then bs else if k == 1 then br else if k == 2 then bn else bm;
             t <= base && (t < base ==> t == remaining)
    ensures k == 0 ==> s == 0 && Fill(t, r, n, m, bs, br, bn, bm, k + 1, remaining - t)
    ensures k == 1 ==> r == 0 && Fill(s, t, n, m, bs, br, bn, bm, k + 1, remaining - t)
    ensures k == 2 ==> n == 0 && Fill(s, r, t, m, bs, br, bn, bm, k + 1, remaining - t)
    ensures k == 3 ==> m == 0 && Fill(s, r, n, t, bs, br, bn, bm, k + 1, remaining - t)
  {
  }

  lemma BackfillStart(used: Counts, avail: Counts, q: Quotas, remaining: nat)
    requires remaining > 0 && Filling(used, avail, q, 4, remaining)
    ensures Backfilling(used, avail, q, 0, remaining)
  {
  }

  lemma BackfillStep(used: Counts, avail: Counts, q: Quotas, k: nat, remaining: nat, stop: nat)
    requires k < 3 && Backfilling(used, avail, q, k, remaining)
    requires stop == var base := Base(avail, q, BackfillOrder(k));
             base + Min(At(avail, BackfillOrder(k)) - base, remaining)
    ensures At(used, BackfillOrder(k)) == Base(avail, q, BackfillOrder(k))
    ensures Backfilling(Raised(used, BackfillOrder(k), stop), avail, q, k + 1,
            remaining - (stop - At(used, BackfillOrder(k))))
  {
  }

  lemma BackfillBucket(used: Counts, buckets: Buckets, q: Quotas, k: nat, remaining: nat, alreadyUsed: nat, stop: nat)
    requires k < 3 && Backfilling(used, Sizes(buckets), q, k, remaining)
    requires alreadyUsed == Min(Target(q, BackfillOrder(k)), |Of(buckets, BackfillOrder(k))|)
    requires stop == alreadyUsed + Min(|Of(buckets, BackfillOrder(k))| - alreadyUsed, remaining)
    ensures At(used, BackfillOrder(k)) == alreadyUsed
    ensures Backfilling(Raised(used, BackfillOrder(k), stop), Sizes(buckets), q, k + 1,
            remaining - (stop - alreadyUsed))
  {
    SizeAt(buckets, BackfillOrder(k));
    BackfillStep(used, Sizes(buckets), q, k, remaining, stop);
  }

  method FillQuotas(buckets: Buckets, ghost cards: seq<Card>, mastery: map<string, Row>, q: Quotas)
    returns (session: seq<SessionCard>, remaining: nat)
    requires Sorted(buckets, cards, mastery)
    ensures Holds(session, CountsOf(session), buckets, mastery)
    ensures Filling(CountsOf(session), Sizes(buckets), q, 4, remaining)
  {
    session, remaining := [], q.sessionSize;
    ghost var used := Counts(0, 0, 0, 0);
    var k := 0;
    while k < 4
      invariant k <= 4 && Holds(session, used, buckets, mastery)
      invariant Filling(used, Sizes(buckets), q, k, remaining)
    {
      var b := FillOrder(k);
      SizeAt(buckets, b);
      var target := Target(q, b);
      if target > remaining { target := remaining; }
      if target > |Of(buckets, b)| { target := |Of(buckets, b)|; }
      FillStep(used, Sizes(buckets), q, k, remaining, target);
      session := Take(session, used, buckets, cards, mastery, b, 0, target);
      used := Raised(used, b, target);
      remaining := remaining - target;
      k := k + 1;
    }
    HeldCounts(session, used, buckets, mastery);
  }

  lemma HeldCounts(session: seq<SessionCard>, used: Counts, buckets: Buckets, mastery: map<string, Row>)
    requires Holds(session, used, buckets, mastery)
    ensures CountsOf(session) == used
  {
  }

  method Backfill(filled: seq<SessionCard>, left: nat, buckets: Buckets, ghost cards: seq<Card>,
                  mastery: map<string, Row>, q: Quotas)
    returns (session: seq<SessionCard>, ghost remaining: nat)
    requires Sorted(buckets, cards, mastery) && Holds(filled, CountsOf(filled), buckets, mastery)
    requires left > 0 && Filling(CountsOf(filled), Sizes(buckets), q, 4, left)
    ensures Holds(session, CountsOf(session), buckets, mastery)
    ensures Backfilling(CountsOf(session), Sizes(buckets), q, 3, remaining)
  {
    session := filled;
    var slots: nat := left;
    ghost var used := CountsOf(filled);
    var k := 0;
    BackfillStart(used, Sizes(buckets), q, slots);
    while k < 3
      invariant k <= 3 && Holds(session, used, buckets, mastery)
      invariant Backfilling(used, Sizes(buckets), q, k, slots)
    {
      var b := BackfillOrder(k);
      var available := |Of(buckets, b)|;
      var alreadyUsed := Target(q, b);
      if alreadyUsed > available { alreadyUsed := available; }
      var stop := if available - alreadyUsed < slots then available else alreadyUsed + slots;
      BackfillBucket(used, buckets, q, k, slots, alreadyUsed, stop);
      session := Take(session, used, buckets, cards, mastery, b, alreadyUsed, stop);
      used := Raised(used, b, stop);
      slots := slots - (stop - alreadyUsed);
      k := k + 1;
    }
    HeldCounts(session, used, buckets, mastery);
    remaining := slots;
  }

  lemma FilledAllocates(used: Counts, avail: Counts, q: Quotas)
    requires Filling(used, avail, q, 4, 0)
    ensures Allocates(used, avail, q)
  {
  }

  lemma BackfilledAllocates(used: Counts, avail: Counts, q: Quotas, remaining: nat)
    requires Backfilling(used, avail, q, 3, remaining)
    ensures Allocates(used, avail, q)
  {
  }

  // ---- the whole function --------------------------------------------------------------

  ghost function Available(cards: seq<Card>, mastery: map<string, Row>): Counts {
    Counts(|InBucket(cards, mastery, Struggling)|, |InBucket(cards, mastery, Review)|,
           |InBucket(cards, mastery, New)|, |InBucket(cards, mastery, Mastered)|)
  }

  /** What a session owes its input, whatever the shuffles did. */
  ghost predicate IsSession(session: seq<SessionCard>, cards: seq<Card>, mastery: map<string, Row>, q: Quotas) {
    && Labelled(session, mastery)
    && (forall b: Bucket :: multiset(Chosen(session, b)) <= multiset(InBucket(cards, mastery, b)))
    && Allocates(CountsOf(session), Available(cards, mastery), q)
  }

  method BuildSession(cards: seq<Card>, mastery: map<string, Row>, q: Quotas) returns (session: seq<SessionCard>)
    ensures IsSession(session, cards, mastery, q)
  {
    var classified := Classify(cards, mastery);
    var buckets := ShuffleEach(classified);
    var filled, remaining := FillQuotas(buckets, cards, mastery, q);
    if remaining > 0 {
      ghost var left;
      filled, left := Backfill(filled, remaining, buckets, cards, mastery, q);
      BackfilledAllocates(CountsOf(filled), Sizes(buckets), q, left);
    } else {
      FilledAllocates(CountsOf(filled), Sizes(buckets), q);
    }
    HeldIsSession(filled, CountsOf(filled), buckets, cards, mastery, q);
    session := Shuffle(filled);
    SessionShuffles(filled, session, cards, mastery, q);
  }

  lemma HeldIsSession(session: seq<SessionCard>, used: Counts, buckets: Buckets, cards: seq<Card>,
                      mastery: map<string, Row>, q: Quotas)
    requires Sorted(buckets, cards, mastery) && Holds(session, used, buckets, mastery)
    requires Allocates(used, Sizes(buckets), q)
    ensures IsSession(session, cards, mastery, q)
  {
    SizesMatch(buckets, cards, mastery);
    assert CountsOf(session) == used;
    forall b: Bucket ensures multiset(Chosen(session, b)) <= multiset(InBucket(cards, mastery, b)) {
      HeldSubMultiset(session, used, buckets, cards, mastery, b);
    }
    IsSessionFrom(session, cards, mastery, q);
  }

  lemma HeldSubMultiset(session: seq<SessionCard>, used: Counts, buckets: Buckets, cards: seq<Card>,
                        mastery: map<string, Row>, b: Bucket)
    requires Sorted(buckets, cards, mastery) && Holds(session, used, buckets, mastery)
    ensures multiset(Chosen(session, b)) <= multiset(InBucket(cards, mastery, b))
  {
    assert HoldsOf(session, b, Of(buckets, b), At(used, b));
    PrefixSubMultiset(Of(buckets, b), At(used, b));
  }

  lemma IsSessionFrom(session: seq<SessionCard>, cards: seq<Card>, mastery: map<string, Row>, q: Quotas)
    requires Labelled(session, mastery)
    requires forall b: Bucket :: multiset(Chosen(session, b)) <= multiset(InBucket(cards, mastery, b))
    requires Allocates(CountsOf(session), Available(cards, mastery), q)
    ensures IsSession(session, cards, mastery, q)
  {
  }

  lemma SizesMatch(buckets: Buckets, cards: seq<Card>, mastery: map<string, Row>)
    requires Sorted(buckets, cards, mastery)
    ensures Sizes(buckets) == Available(cards, mastery)
  {
    SameSize(Of(buckets, Struggling), InBucket(cards, mastery, Struggling));
    SameSize(Of(buckets, Review), InBucket(cards, mastery, Review));
    SameSize(Of(buckets, New), InBucket(cards, mastery, New));
    SameSize(Of(buckets, Mastered), InBucket(cards, mastery, Mastered));
  }

  lemma SameSize<T>(a: seq<T>, b: seq<T>)
    requires multiset(a) == multiset(b)
    ensures |a| == |b|
  {
    assert |multiset(a)| == |a| && |multiset(b)| == |b|;
  }

  lemma PrefixSubMultiset<T>(s: seq<T>, n: nat)
    requires n <= |s|
    ensures multiset(s[..n]) <= multiset(s)
  {
    assert s == s[..n] + s[n..];
  }

  // ---- a shuffle changes nothing that counts -------------------------------------------

  /** The contribution of one session card to a label's cards. */
  ghost function Own(sc: SessionCard, x: Bucket): multiset<Card> {
    if sc.hint == x then multiset{sc.card} else multiset{}
  }

  ghost function ChosenBag(s: seq<SessionCard>, x: Bucket): multiset<Card> {
    if s == [] then multiset{} else Own(s[0], x) + ChosenBag(s[1..], x)
  }

  lemma {:induction false} ChosenAsBag(s: seq<SessionCard>, x: Bucket)
    ensures multiset(Chosen(s, x)) == ChosenBag(s, x)
  {
    if s != [] {
      ChosenAsBag(s[1..], x);
    }
  }

  lemma {:induction false} BagWithout(s: seq<SessionCard>, k: nat, x: Bucket)
    requires k < |s|
    ensures ChosenBag(s, x) == Own(s[k], x) + ChosenBag(Without(s, k), x)
  {
    if k == 0 {
      assert Without(s, 0) == s[1..];
    } else {
      BagWithout(s[1..], k - 1, x);
      assert Without(s, k)[1..] == Without(s[1..], k - 1) && Without(s, k)[0] == s[0];
      SwapFirst(Own(s[0], x), Own(s[k], x), ChosenBag(Without(s[1..], k - 1), x));
    }
  }

  lemma SwapFirst(a: multiset<Card>, b: multiset<Card>, c: multiset<Card>)
    ensures a + (b + c) == b + (a + c)
  {
  }

  lemma {:induction false} BagRespectsMultiset(a: seq<SessionCard>, b: seq<SessionCard>, x: Bucket)
    requires multiset(a) == multiset(b)
    ensures ChosenBag(a, x) == ChosenBag(b, x)
  {
    SameSize(a, b);
    if a != [] {
      assert a[0] in multiset(b);
      var k :| 0 <= k < |b| && b[k] == a[0];
      CancelHead(a, b, k);
      BagRespectsMultiset(a[1..], Without(b, k), x);
      BagWithout(b, k, x);
    }
  }

  /** Cards with a given label, counted: independent of the listing order. */
  lemma ChosenRespectsMultiset(a: seq<SessionCard>, b: seq<SessionCard>, x: Bucket)
    requires multiset(a) == multiset(b)
    ensures multiset(Chosen(a, x)) == multiset(Chosen(b, x))
  {
    BagRespectsMultiset(a, b, x);
    ChosenAsBag(a, x);
    ChosenAsBag(b, x);
  }

  lemma SessionShuffles(a: seq<SessionCard>, b: seq<SessionCard>, cards: seq<Card>, mastery: map<string, Row>,
                        q: Quotas)
    requires multiset(a) == multiset(b) && IsSession(a, cards, mastery, q)
    ensures IsSession(b, cards, mastery, q)
  {
    forall x: Bucket ensures multiset(Chosen(a, x)) == multiset(Chosen(b, x)) {
      ChosenRespectsMultiset(a, b, x);
    }
    CountsShuffle(a, b);
    LabelledShuffles(a, b, mastery);
    IsSessionFrom(b, cards, mastery, q);
  }

  lemma CountsShuffle(a: seq<SessionCard>, b: seq<SessionCard>)
    requires forall x: Bucket :: multiset(Chosen(a, x)) == multiset(Chosen(b, x))
    ensures CountsOf(a) == CountsOf(b)
  {
    SameSize(Chosen(a, Struggling), Chosen(b, Struggling));
    SameSize(Chosen(a, Review), Chosen(b, Review));
    SameSize(Chosen(a, New), Chosen(b, New));
    SameSize(Chosen(a, Mastered), Chosen(b, Mastered));
  }

  lemma LabelledShuffles(a: seq<SessionCard>, b: seq<SessionCard>, mastery: map<string, Row>)
    requires multiset(a) == multiset(b) && Labelled(a, mastery)
    ensures Labelled(b, mastery)
  {
    forall i | 0 <= i < |b| ensures exists j :: 0 <= j < |a| && a[j] == b[i] {
      assert b[i] in multiset(a);
    }
  }

  // ---- what a session promises its user ------------------------------------------------

  lemma {:induction false} ChosenSizes(session: seq<SessionCard>)
    ensures |session| == |Chosen(session, Struggling)| + |Chosen(session, Review)|
            + |Chosen(session, New)| + |Chosen(session, Mastered)|
  {
    if session != [] {
      ChosenSizes(session[1..]);
    }
  }

  /** The session is as long as the cards allow: no slot is wasted. */
  lemma SessionLength(session: seq<SessionCard>, cards: seq<Card>, mastery: map<string, Row>, q: Quotas)
    requires IsSession(session, cards, mastery, q)
    ensures var avail := Available(cards, mastery);
            |session| == Min(q.sessionSize, Min(Min(q.unseen, q.maxNew), avail.n) + avail.s + avail.r + avail.m)
  {
    ChosenSizes(session);
  }

  /** With the program's constants: at most twenty cards, at most three of them new. */
  lemma StandardSession(session: seq<SessionCard>, cards: seq<Card>, mastery: map<string, Row>)
    requires IsSession(session, cards, mastery, STANDARD)
    ensures var avail := Available(cards, mastery);
            |session| == Min(20, Min(3, avail.n) + avail.s + avail.r + avail.m)
    ensures |Chosen(session, New)| <= 3
  {
    SessionLength(session, cards, mastery, STANDARD);
    assert CountsOf(session).n <= Base(Available(cards, mastery), STANDARD, New);
  }

  /** The program's quotas: with enough cards of every kind, 8 struggling, 6 review and one more, 3 new, 2 mastered. */
  lemma StandardQuotas(session: seq<SessionCard>, cards: seq<Card>, mastery: map<string, Row>)
    requires IsSession(session, cards, mastery, STANDARD)
    requires var a := Available(cards, mastery); a.s >= 8 && a.r >= 7 && a.n >= 3 && a.m >= 2
    ensures CountsOf(session) == Counts(8, 7, 3, 2)
  {
    AllocationUnique(CountsOf(session), Counts(8, 7, 3, 2), Available(cards, mastery), STANDARD);
  }

  // ---- unseen cards --------------------------------------------------------------------

  /** A card is new exactly when the learner has no record of it. */
  lemma NewMeansNoRecord(mastery: map<string, Row>, c: Card)
    ensures BucketOf(mastery, c) == New <==> c.id !in mastery
  {
  }

  /** How many of the cards have no record. */
  function UnseenIn(cards: seq<Card>, mastery: map<string, Row>): nat {
    if cards == [] then 0 else UnseenIn(cards[1..], mastery) + if cards[0].id !in mastery then 1 else 0
  }

  lemma {:induction false} UnseenAppend(a: seq<Card>, b: seq<Card>, mastery: map<string, Row>)
    ensures UnseenIn(a + b, mastery) == UnseenIn(a, mastery) + UnseenIn(b, mastery)
  {
    if a == [] {
      assert a + b == b;
    } else {
      assert (a + b)[1..] == a[1..] + b;
      UnseenAppend(a[1..], b, mastery);
    }
  }

  lemma {:induction false} UnseenAvailable(cards: seq<Card>, mastery: map<string, Row>)
    ensures |InBucket(cards, mastery, New)| == UnseenIn(cards, mastery)
  {
    if cards != [] {
      var front, last := cards[..|cards| - 1], cards[|cards| - 1];
      UnseenAvailable(front, mastery);
      UnseenAppend(front, [last], mastery);
      assert cards == front + [last] && [last][1..] == [];
      NewMeansNoRecord(mastery, last);
    }
  }

  lemma {:induction false} UnseenChosen(session: seq<SessionCard>, mastery: map<string, Row>)
    requires Labelled(session, mastery)
    ensures |Chosen(session, New)| == UnseenIn(CardsOf(session), mastery)
  {
    if session != [] {
      UnseenChosen(session[1..], mastery);
      assert session[0].hint == BucketOf(mastery, session[0].card);
      NewMeansNoRecord(mastery, session[0].card);
      assert CardsOf(session)[1..] == CardsOf(session[1..]);
    }
  }

  lemma {:induction false} AllUnseen(cards: seq<Card>, mastery: map<string, Row>)
    requires forall c | c in cards :: c.id !in mastery
    ensures UnseenIn(cards, mastery) == |cards|
    ensures Available(cards, mastery) == Counts(0, 0, |cards|, 0)
  {
    if cards != [] {
      var front, last := cards[..|cards| - 1], cards[|cards| - 1];
      AllUnseen(front, mastery);
      NewMeansNoRecord(mastery, last);
      UnseenAvailable(cards, mastery);
    }
  }

  /**
   * Every session holds at most the capped number of cards the learner has no record of, labelled
   * new; and when there is no record of any card it is made of exactly that many.
   */
  lemma UnseenCardsAreCapped(session: seq<SessionCard>, cards: seq<Card>, mastery: map<string, Row>, q: Quotas)
    requires IsSession(session, cards, mastery, q)
    ensures UnseenIn(CardsOf(session), mastery) <= Min(q.unseen, q.maxNew)
    ensures forall i :: 0 <= i < |session| ==> (session[i].hint == New <==> session[i].card.id !in mastery)
    ensures (forall c | c in cards :: c.id !in mastery) ==>
              |session| == UnseenIn(CardsOf(session), mastery)
                        == Min(q.sessionSize, Min(Min(q.unseen, q.maxNew), |cards|))
  {
    UnseenChosen(session, mastery);
    assert CountsOf(session).n <= Base(Available(cards, mastery), q, New);
    forall i | 0 <= i < |session| ensures session[i].hint == New <==> session[i].card.id !in mastery {
      NewMeansNoRecord(mastery, session[i].card);
    }
    if forall c | c in cards :: c.id !in mastery {
      AllUnseen(cards, mastery);
      SessionLength(session, cards, mastery, q);
      ChosenSizes(session);
    }
  }

  lemma {:induction false} BagMultiplicity(session: seq<SessionCard>, mastery: map<string, Row>, c: Card)
    requires Labelled(session, mastery)
    ensures multiset(CardsOf(session))[c] == ChosenBag(session, BucketOf(mastery, c))[c]
  {
    if session != [] {
      BagMultiplicity(session[1..], mastery, c);
      CardsHead(session);
      assert session[0].hint == BucketOf(mastery, session[0].card);
    }
  }

  lemma CardsHead(session: seq<SessionCard>)
    requires session != []
    ensures multiset(CardsOf(session)) == multiset{session[0].card} + multiset(CardsOf(session[1..]))
  {
    assert CardsOf(session) == [session[0].card] + CardsOf(session[1..]);
  }

  lemma {:induction false} InBucketMultiplicity(cards: seq<Card>, mastery: map<string, Row>, c: Card)
    ensures multiset(cards)[c] == multiset(InBucket(cards, mastery, BucketOf(mastery, c)))[c]
  {
    if cards != [] {
      var front := cards[..|cards| - 1];
      InBucketMultiplicity(front, mastery, c);
      assert cards == front + [cards[|cards| - 1]];
    }
  }

  /** No card is invented or repeated. */
  lemma SessionIsSubMultiset(session: seq<SessionCard>, cards: seq<Card>, mastery: map<string, Row>, q: Quotas)
    requires IsSession(session, cards, mastery, q)
    ensures multiset(CardsOf(session)) <= multiset(cards)
  {
    forall c: Card ensures multiset(CardsOf(session))[c] <= multiset(cards)[c] {
      BagMultiplicity(session, mastery, c);
      ChosenAsBag(session, BucketOf(mastery, c));
      InBucketMultiplicity(cards, mastery, c);
    }
  }

  ghost predicate DistinctIds(cards: seq<Card>) {
    forall i, j :: 0 <= i < j < |cards| ==> cards[i].id != cards[j].id
  }

  lemma SessionKeepsIdsDistinct(session: seq<SessionCard>, cards: seq<Card>, mastery: map<string, Row>, q: Quotas)
    requires IsSession(session, cards, mastery, q) && DistinctIds(cards)
    ensures DistinctIds(CardsOf(session))
  {
    SessionIsSubMultiset(session, cards, mastery, q);
    var out := CardsOf(session);
    NoDupMultiplicity(cards);
    forall i, j | 0 <= i < j < |out| ensures out[i].id != out[j].id {
      TwiceListedCountsTwo(out, i, j);
      assert out[i] in multiset(out) && out[j] in multiset(out);
      assert out[i] in cards && out[j] in cards;
    }
  }
}
