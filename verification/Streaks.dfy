/**
 * The practice-streak queries. Dates are day numbers; the table has one row per user and date,
 * so a user's practice dates form a finite set.
 */
module Streaks {

  // ---- the meaning ---------------------------------------------------------------------

  /** `len` consecutive practice days, the last of them `last`. */
  ghost predicate IsRun(dates: set<int>, last: int, len: nat) {
    forall d :: last - len < d <= last ==> d in dates
  }

  ghost predicate IsLongestRun(dates: set<int>, len: nat) {
    && (exists last :: IsRun(dates, last, len))
    && (forall last, other: nat :: IsRun(dates, last, other) ==> other <= len)
  }

  // ---- gaps and islands ----------------------------------------------------------------

  ghost predicate Ascending(ds: seq<int>) {
    forall i, j :: 0 <= i < j < |ds| ==> ds[i] < ds[j]
  }

  /** `ROW_NUMBER() OVER (ORDER BY practice_date)` lists the dates in order; rows count from 1. */
  ghost predicate Lists(ds: seq<int>, dates: set<int>) {
    Ascending(ds) && forall d :: d in ds <==> d in dates
  }

  /** `practice_date - row_number`. */
  function Grp(ds: seq<int>, i: nat): int
    requires i < |ds|
  {
    ds[i] - (i + 1)
  }

  /** `GROUP BY grp`: the rows of one group. */
  ghost function Group(ds: seq<int>, g: int): set<int> {
    set i | 0 <= i < |ds| && Grp(ds, i) == g
  }

  ghost function GroupCounts(ds: seq<int>): set<int> {
    set i | 0 <= i < |ds| :: |Group(ds, Grp(ds, i))|
  }

  /** `COALESCE(MAX(streak_length), 0)`. */
  ghost predicate IsMaxOrZero(counts: set<int>, m: nat) {
    && (counts == {} ==> m == 0)
    && (counts != {} ==> m in counts && forall c | c in counts :: c <= m)
  }

  /** `GetBestDailyStreak`. */
  ghost predicate IsBestDailyStreak(dates: set<int>, best: nat) {
    exists ds :: Lists(ds, dates) && IsMaxOrZero(GroupCounts(ds), best)
  }

  /** Dates keep at least their distance in rows. */
  lemma {:induction false} GrpMonotone(ds: seq<int>, i: nat, j: nat)
    requires Ascending(ds) && i <= j < |ds|
    ensures Grp(ds, i) <= Grp(ds, j)
    decreases j - i
  {
    if i < j {
      GrpMonotone(ds, i, j - 1);
    }
  }

  /** The integers `lo, .., hi - 1`. */
  ghost function Interval(lo: int, hi: int): (r: set<int>)
    ensures forall i :: i in r <==> lo <= i < hi
    ensures |r| == if lo <= hi then hi - lo else 0
    decreases hi - lo
  {
    if lo >= hi then {} else Interval(lo, hi - 1) + {hi - 1}
  }

  lemma SubsetCount(a: set<int>, b: set<int>)
    requires a <= b
    ensures |a| <= |b|
  {
    assert b == a + (b - a);
  }

  /** The last row of a group. */
  lemma LastOfGroup(ds: seq<int>, i: nat) returns (hi: nat)
    requires Ascending(ds) && i < |ds|
    ensures i <= hi < |ds| && Grp(ds, hi) == Grp(ds, i)
    ensures forall j | hi < j < |ds| :: Grp(ds, j) != Grp(ds, i)
  {
    hi := i;
    while hi + 1 < |ds| && Grp(ds, hi + 1) == Grp(ds, i)
      invariant i <= hi < |ds| && Grp(ds, hi) == Grp(ds, i)
    {
      hi := hi + 1;
    }
    forall j | hi < j < |ds| ensures Grp(ds, j) != Grp(ds, i) {
      GrpMonotone(ds, hi, hi + 1);
      GrpMonotone(ds, hi + 1, j);
    }
  }

  lemma FirstOfGroup(ds: seq<int>, i: nat) returns (lo: nat)
    requires Ascending(ds) && i < |ds|
    ensures lo <= i && Grp(ds, lo) == Grp(ds, i)
    ensures forall j | 0 <= j < lo :: Grp(ds, j) != Grp(ds, i)
  {
    lo := i;
    while lo > 0 && Grp(ds, lo - 1) == Grp(ds, i)
      invariant lo <= i && Grp(ds, lo) == Grp(ds, i)
    {
      lo := lo - 1;
    }
    forall j | 0 <= j < lo ensures Grp(ds, j) != Grp(ds, i) {
      GrpMonotone(ds, lo - 1, lo);
      GrpMonotone(ds, j, lo - 1);
    }
  }

  /** A group is an unbroken block of rows, and its dates are consecutive days. */
  lemma GroupIsRun(ds: seq<int>, dates: set<int>, i: nat)
    requires Lists(ds, dates) && i < |ds|
    ensures exists last :: IsRun(dates, last, |Group(ds, Grp(ds, i))|)
  {
    var lo := FirstOfGroup(ds, i);
    var hi := LastOfGroup(ds, i);
    var g := Grp(ds, i);
    forall k | lo <= k <= hi ensures Grp(ds, k) == g {
      GrpMonotone(ds, lo, k);
      GrpMonotone(ds, k, hi);
    }
    assert Group(ds, g) == Interval(lo, hi + 1);
    forall d | ds[hi] - (hi + 1 - lo) < d <= ds[hi] ensures d in dates {
      var k := hi - (ds[hi] - d);
      assert Grp(ds, k) == g;
      assert ds[k] == d && ds[k] in ds;
    }
    assert IsRun(dates, ds[hi], |Group(ds, g)|);
  }

  /** Row number of a date. */
  lemma RowOf(ds: seq<int>, dates: set<int>, d: int) returns (i: nat)
    requires Lists(ds, dates) && d in dates
    ensures i < |ds| && ds[i] == d
  {
    assert d in ds;
    i :| 0 <= i < |ds| && ds[i] == d;
  }

  /** Consecutive days stand in consecutive rows. */
  lemma {:induction false} RunIsBlock(ds: seq<int>, dates: set<int>, last: int, len: nat, hi: nat)
    requires Lists(ds, dates) && IsRun(dates, last, len) && len > 0 && hi < |ds| && ds[hi] == last
    ensures len <= hi + 1
    ensures forall k | hi + 1 - len <= k <= hi :: ds[k] == last - (hi - k)
  {
    if len > 1 {
      RunIsBlock(ds, dates, last, len - 1, hi);
      var k := RowOf(ds, dates, last - (len - 1));
      var next := hi + 2 - len;
      assert ds[next] == last - (len - 2);
      assert k < next;
      GrpMonotone(ds, k, next);
    }
  }

  lemma RunFitsGroup(ds: seq<int>, dates: set<int>, last: int, len: nat)
    requires Lists(ds, dates) && IsRun(dates, last, len) && len > 0
    ensures exists c :: c in GroupCounts(ds) && len <= c
  {
    var hi := RowOf(ds, dates, last);
    RunIsBlock(ds, dates, last, len, hi);
    var g := Grp(ds, hi);
    var block := Interval(hi + 1 - len, hi + 1);
    forall k | k in block ensures k in Group(ds, g) {
      assert Grp(ds, k) == g;
    }
    SubsetCount(block, Group(ds, g));
    assert |Group(ds, g)| in GroupCounts(ds);
  }

  /** Grouping by date minus row number and taking the largest group finds the longest run. */
  lemma BestDailyStreakIsLongestRun(dates: set<int>, best: nat)
    ensures IsBestDailyStreak(dates, best) <==> IsLongestRun(dates, best)
  {
    var ds := ListDates(dates);
    var m := MaxOrZero(GroupCounts(ds));
    GroupedMaxIsLongest(ds, dates, m);
    if IsBestDailyStreak(dates, best) {
      var ds' :| Lists(ds', dates) && IsMaxOrZero(GroupCounts(ds'), best);
      GroupedMaxIsLongest(ds', dates, best);
    }
    if IsLongestRun(dates, best) {
      assert best == m;
    }
  }

  /** The query always has an answer. */
  lemma BestDailyStreakExists(dates: set<int>) returns (best: nat)
    ensures IsBestDailyStreak(dates, best)
  {
    var ds := ListDates(dates);
    best := MaxOrZero(GroupCounts(ds));
  }

  lemma GroupedMaxIsLongest(ds: seq<int>, dates: set<int>, best: nat)
    requires Lists(ds, dates) && IsMaxOrZero(GroupCounts(ds), best)
    ensures IsLongestRun(dates, best)
  {
    if GroupCounts(ds) == {} {
      assert IsRun(dates, 0, 0);
    } else {
      var i :| 0 <= i < |ds| && |Group(ds, Grp(ds, i))| == best;
      GroupIsRun(ds, dates, i);
    }
    forall last, other: nat | IsRun(dates, last, other) ensures other <= best {
      if other > 0 {
        RunFitsGroup(ds, dates, last, other);
      }
    }
  }

  lemma Inhabited(s: set<int>)
    ensures s == {} || exists x :: x in s
  {
    if forall x :: x !in s {
      assert s == {};
    }
  }

  lemma MaxOrZero(counts: set<int>) returns (m: nat)
    requires forall c | c in counts :: c >= 0
    ensures IsMaxOrZero(counts, m)
  {
    if counts == {} {
      m := 0;
    } else {
      Inhabited(counts);
      var some: int :| some in counts;
      m := some;
      var rest := counts - {m};
      assert counts == rest + {m};
      if rest != {} {
        var r := MaxOrZero(rest);
        if r > m { m := r; }
      }
    }
  }

  lemma Latest(dates: set<int>) returns (last: int)
    requires dates != {}
    ensures last in dates && forall d | d in dates :: d <= last
  {
    Inhabited(dates);
    last :| last in dates;
    var rest := dates - {last};
    assert dates == rest + {last};
    if rest != {} {
      var r := Latest(rest);
      if r > last { last := r; }
    }
  }

  lemma ListDates(dates: set<int>) returns (ds: seq<int>)
    ensures Lists(ds, dates)
  {
    if dates == {} {
      ds := [];
    } else {
      var last := Latest(dates);
      var before := ListDates(dates - {last});
      ds := before + [last];
      assert forall i | 0 <= i < |before| :: before[i] in before;
    }
  }

  // ---- the recursive chain -------------------------------------------------------------

  /** Rows that `streak_chain` adds below a day: itself, then the day before while it is present. */
  function ChainLength(dates: set<int>, day: int): nat
    requires day in dates
    decreases dates
  {
    if day - 1 in dates - {day} then 1 + ChainLength(dates - {day}, day - 1) else 1
  }

  /** `GetDailyStreakCount`: the chain from the latest date, 0 without rows. */
  ghost predicate IsDailyStreakCount(dates: set<int>, count: nat) {
    && (dates == {} ==> count == 0)
    && (dates != {} ==>
        exists last :: last in dates && (forall d | d in dates :: d <= last) && count == ChainLength(dates, last))
  }

  /** The chain is the whole run that ends at its day, and cannot be extended. */
  lemma {:induction false} ChainIsMaximalRun(dates: set<int>, day: int)
    requires day in dates
    ensures IsRun(dates, day, ChainLength(dates, day)) && day - ChainLength(dates, day) !in dates
    decreases dates
  {
    if day - 1 in dates - {day} {
      var rest := dates - {day};
      ChainIsMaximalRun(rest, day - 1);
      var n := ChainLength(rest, day - 1);
      forall d | day - (n + 1) < d <= day ensures d in dates {
        if d < day {
          assert (day - 1) - n < d <= day - 1;
          assert d in rest;
        }
      }
    }
  }

  /** The run of practice days that ends at `last` and starts after a day off. */
  ghost predicate IsCurrentRun(dates: set<int>, last: int, len: nat) {
    IsRun(dates, last, len) && last - len !in dates
  }

  lemma CurrentRunUnique(dates: set<int>, last: int, a: nat, b: nat)
    requires IsCurrentRun(dates, last, a) && IsCurrentRun(dates, last, b)
    ensures a == b
  {
    assert a < b ==> last - a in dates;
    assert b < a ==> last - b in dates;
  }

  /** The chain counts exactly the consecutive days ending at the latest practice date. */
  lemma DailyStreakCountIsCurrentRun(dates: set<int>, last: int, count: nat)
    requires last in dates && forall d | d in dates :: d <= last
    ensures IsDailyStreakCount(dates, count) <==> IsCurrentRun(dates, last, count)
  {
    ChainIsMaximalRun(dates, last);
    if IsCurrentRun(dates, last, count) {
      CurrentRunUnique(dates, last, count, ChainLength(dates, last));
    }
  }

  /** The current streak never exceeds the best one. */
  lemma CurrentAtMostBest(dates: set<int>, current: nat, best: nat)
    requires IsDailyStreakCount(dates, current) && IsBestDailyStreak(dates, best)
    ensures current <= best
  {
    BestDailyStreakIsLongestRun(dates, best);
    if dates != {} {
      var last :| last in dates && (forall d | d in dates :: d <= last) && current == ChainLength(dates, last);
      ChainIsMaximalRun(dates, last);
    }
  }

  // ---- the table -----------------------------------------------------------------------

  datatype StreakRow = StreakRow(correctStreak: int, bestStreak: int)

  /** One posted result. */
  datatype Post = Post(date: int, correctStreak: int, bestStreak: int)

  function Greatest(a: int, b: int): int { if a >= b then a else b }

  function Upserted(rows: map<int, StreakRow>, p: Post): map<int, StreakRow> {
    rows[p.date := StreakRow(p.correctStreak,
                             if p.date in rows then Greatest(rows[p.date].bestStreak, p.bestStreak)
                             else p.bestStreak)]
  }

  /** The rows of one user, keyed by practice date. */
  class StreakTable {
    var rows: map<int, StreakRow>

    constructor ()
      ensures rows == map[]
    {
      rows := map[];
    }

    method UpsertStreak(p: Post) returns (row: StreakRow)
      modifies this
      ensures rows == Upserted(old(rows), p) && row == rows[p.date]
    {
      if p.date !in rows {
        row := StreakRow(p.correctStreak, p.bestStreak);
      } else {
        var best := rows[p.date].bestStreak;
        row := StreakRow(p.correctStreak, if best >= p.bestStreak then best else p.bestStreak);
      }
      rows := rows[p.date := row];
    }
  }

  function TableAfter(posts: seq<Post>): map<int, StreakRow> {
    if posts == [] then map[]
    else Upserted(TableAfter(posts[..|posts| - 1]), posts[|posts| - 1])
  }

  /** What each day's row says about everything posted for that day. */
  ghost predicate RowMatches(posts: seq<Post>, date: int, row: StreakRow) {
    && (exists i :: 0 <= i < |posts| && posts[i].date == date && posts[i].bestStreak == row.bestStreak)
    && (forall i :: 0 <= i < |posts| && posts[i].date == date ==> posts[i].bestStreak <= row.bestStreak)
    && (exists i :: && 0 <= i < |posts| && posts[i].date == date && posts[i].correctStreak == row.correctStreak
                    && forall j :: i < j < |posts| ==> posts[j].date != date)
  }

  /** Each day's best is the maximum of all values posted for it, its current value the last one. */
  lemma {:induction false} TableMatchesPosts(posts: seq<Post>)
    ensures forall date :: date in TableAfter(posts) <==> exists i :: 0 <= i < |posts| && posts[i].date == date
    ensures forall date | date in TableAfter(posts) :: RowMatches(posts, date, TableAfter(posts)[date])
  {
    if posts != [] {
      var n := |posts| - 1;
      var front, p := posts[..n], posts[n];
      TableMatchesPosts(front);
      var after := TableAfter(posts);
      assert posts == front + [p] && after == Upserted(TableAfter(front), p);
      forall date ensures date in after <==> exists i :: 0 <= i < |posts| && posts[i].date == date {
        DateExtends(front, p, date);
      }
      forall date | date in after ensures RowMatches(posts, date, after[date]) {
        RowExtends(front, p, date);
      }
    }
  }

  lemma DateExtends(front: seq<Post>, p: Post, date: int)
    requires date in TableAfter(front) <==> exists i :: 0 <= i < |front| && front[i].date == date
    ensures date in Upserted(TableAfter(front), p)
       <==> exists i :: 0 <= i < |front + [p]| && (front + [p])[i].date == date
  {
    var posts := front + [p];
    assert posts[|front|] == p;
    if date in TableAfter(front) {
      var i :| 0 <= i < |front| && front[i].date == date;
      assert posts[i].date == date;
    }
    if i :| 0 <= i < |posts| && posts[i].date == date {
      assert i < |front| ==> front[i].date == date;
    }
  }

  lemma RowExtends(front: seq<Post>, p: Post, date: int)
    requires forall d :: d in TableAfter(front) <==> exists i :: 0 <= i < |front| && front[i].date == d
    requires date in TableAfter(front) ==> RowMatches(front, date, TableAfter(front)[date])
    requires date in Upserted(TableAfter(front), p)
    ensures RowMatches(front + [p], date, Upserted(TableAfter(front), p)[date])
  {
    var posts := front + [p];
    var before := TableAfter(front);
    if date in before {
      var b :| 0 <= b < |front| && front[b].date == date && front[b].bestStreak == before[date].bestStreak;
      var c :| && 0 <= c < |front| && front[c].date == date && front[c].correctStreak == before[date].correctStreak
               && forall j :: c < j < |front| ==> front[j].date != date;
      assert posts[b] == front[b] && posts[c] == front[c] && posts[|front|] == p;
    } else {
      assert posts[|front|] == p;
      assert forall i | 0 <= i < |front| :: front[i].date != date;
    }
  }

  /** A run in a smaller set of dates is a run in a larger one. */
  lemma MoreDatesLongerBest(a: set<int>, b: set<int>, bestA: nat, bestB: nat)
    requires a <= b && IsBestDailyStreak(a, bestA) && IsBestDailyStreak(b, bestB)
    ensures bestA <= bestB
  {
    BestDailyStreakIsLongestRun(a, bestA);
    BestDailyStreakIsLongestRun(b, bestB);
    var last :| IsRun(a, last, bestA);
    assert IsRun(b, last, bestA);
  }

  /** Over any sequence of posts the best daily streak never falls. */
  lemma BestNeverFalls(posts: seq<Post>, more: seq<Post>, before: nat, after: nat)
    requires IsBestDailyStreak(TableAfter(posts).Keys, before)
    requires IsBestDailyStreak(TableAfter(posts + more).Keys, after)
    ensures before <= after
  {
    TableMatchesPosts(posts);
    TableMatchesPosts(posts + more);
    forall d | d in TableAfter(posts).Keys ensures d in TableAfter(posts + more).Keys {
      var i :| 0 <= i < |posts| && posts[i].date == d;
      assert (posts + more)[i].date == d;
    }
    MoreDatesLongerBest(TableAfter(posts).Keys, TableAfter(posts + more).Keys, before, after);
  }
}
