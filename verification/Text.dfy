/** Strings: joining, splitting, trimming, ordering and decimal numerals. */
module Text {
  import opened Sorting

  // ---- join and split ------------------------------------------------------------------

  function Join(ts: seq<string>, sep: string): string {
    if ts == [] then ""
    else if |ts| == 1 then ts[0]
    else ts[0] + sep + Join(ts[1..], sep)
  }

  /** Cut at every `c`. */
  function SplitOn(s: string, c: char): (r: seq<string>)
    ensures r != []
  {
    if s == "" then [""]
    else
      var r := SplitOn(s[1..], c);
      if s[0] == c then [""] + r else [[s[0]] + r[0]] + r[1..]
  }

  lemma {:induction false} SplitOnToken(t: string, rest: string, c: char)
    requires c !in t
    ensures SplitOn(t, c) == [t]
    ensures SplitOn(t + [c] + rest, c) == [t] + SplitOn(rest, c)
  {
    if t == "" {
      assert (t + [c] + rest)[1..] == rest;
    } else {
      SplitOnToken(t[1..], rest, c);
      assert (t + [c] + rest)[1..] == t[1..] + [c] + rest;
      assert t == [t[0]] + t[1..];
    }
  }

  lemma {:induction false} SplitUndoesJoin(ts: seq<string>, c: char)
    requires ts != [] && forall i :: 0 <= i < |ts| ==> c !in ts[i]
    ensures SplitOn(Join(ts, [c]), c) == ts
  {
    if |ts| == 1 {
      SplitOnToken(ts[0], "", c);
    } else {
      SplitUndoesJoin(ts[1..], c);
      SplitOnToken(ts[0], Join(ts[1..], [c]), c);
      assert ts == [ts[0]] + ts[1..];
    }
  }

  // ---- words ---------------------------------------------------------------------------

  ghost predicate Free(t: string, sep: char -> bool) {
    forall i :: 0 <= i < |t| ==> !sep(t[i])
  }

  /** Length of the longest prefix on which `p` holds. */
  function PrefixLen(s: string, p: char -> bool): (n: nat)
    ensures n <= |s|
    ensures forall i :: 0 <= i < n ==> p(s[i])
    ensures n < |s| ==> !p(s[n])
  {
    if s == "" || !p(s[0]) then 0 else 1 + PrefixLen(s[1..], p)
  }

  lemma {:induction false} PrefixLenIs(s: string, p: char -> bool, n: nat)
    requires n <= |s| && (forall i :: 0 <= i < n ==> p(s[i])) && (n < |s| ==> !p(s[n]))
    ensures PrefixLen(s, p) == n
  {
    if n > 0 {
      PrefixLenIs(s[1..], p, n - 1);
    }
  }

  /** The maximal separator-free runs of `s`, in order. */
  function Words(s: string, sep: char -> bool): (r: seq<string>)
    decreases |s|
  {
    if s == "" then []
    else if sep(s[0]) then Words(s[1..], sep)
    else
      var n := PrefixLen(s, c => !sep(c));
      [s[..n]] + Words(s[n..], sep)
  }

  lemma {:induction false} WordsAreNonEmptyAndFree(s: string, sep: char -> bool)
    ensures forall t | t in Words(s, sep) :: t != "" && Free(t, sep)
    decreases |s|
  {
    if s != "" {
      if sep(s[0]) {
        WordsAreNonEmptyAndFree(s[1..], sep);
      } else {
        WordsAreNonEmptyAndFree(s[PrefixLen(s, c => !sep(c))..], sep);
      }
    }
  }

  /** `s[i..j]` is a separator-free run that cannot be prolonged. */
  ghost predicate MaximalRun(s: string, sep: char -> bool, i: int, j: int) {
    && 0 <= i < j <= |s| && (forall k :: i <= k < j ==> !sep(s[k]))
    && (i > 0 ==> sep(s[i - 1])) && (j < |s| ==> sep(s[j]))
  }

  /** The run that starts at `i` is the word `w`. */
  ghost predicate RunIs(s: string, sep: char -> bool, i: nat, w: string) {
    MaximalRun(s, sep, i, i + |w|) && s[i..i + |w|] == w
  }

  /** `starts[k]` is where the `k`-th word starts. */
  ghost predicate StartsOf(s: string, sep: char -> bool, words: seq<string>, starts: seq<nat>) {
    && |starts| == |words|
    && (forall k, m :: 0 <= k < m < |starts| ==> starts[k] < starts[m])
    && (forall k :: 0 <= k < |starts| ==> RunIs(s, sep, starts[k], words[k]))
    && (forall i, j :: MaximalRun(s, sep, i, j) ==> i in starts)
  }

  /** Dropping `n` characters, the last of them a separator or the next one, shifts a run. */
  lemma RunShifts(s: string, sep: char -> bool, n: nat, i: int, j: int)
    requires n <= |s| && 0 <= i && (i == 0 ==> n == 0 || sep(s[n - 1]))
    ensures MaximalRun(s[n..], sep, i, j) <==> MaximalRun(s, sep, i + n, j + n)
  {
    if MaximalRun(s[n..], sep, i, j) {
      forall k | i + n <= k < j + n ensures !sep(s[k]) { assert s[k] == s[n..][k - n]; }
    }
    if MaximalRun(s, sep, i + n, j + n) {
      forall k | i <= k < j ensures !sep(s[n..][k]) { assert s[n..][k] == s[k + n]; }
    }
  }

  function Shifted(starts: seq<nat>, n: nat): (r: seq<nat>)
    ensures |r| == |starts| && forall k :: 0 <= k < |r| ==> r[k] == starts[k] + n
  {
    if starts == [] then [] else [starts[0] + n] + Shifted(starts[1..], n)
  }

  lemma StartIs(s: string, sep: char -> bool, words: seq<string>, starts: seq<nat>, k: nat)
    requires StartsOf(s, sep, words, starts) && k < |starts|
    ensures |words| == |starts| && RunIs(s, sep, starts[k], words[k])
  {
  }

  lemma StartsAscend(s: string, sep: char -> bool, words: seq<string>, starts: seq<nat>, k: nat, m: nat)
    requires StartsOf(s, sep, words, starts) && k < |starts| && m < |starts|
    ensures k <= m ==> starts[k] <= starts[m]
  {
  }

  lemma LaterRun(s: string, sep: char -> bool, n: nat, i: nat, w: string)
    requires 0 < n <= |s| && (sep(s[n - 1]) || (n < |s| ==> sep(s[n]))) && RunIs(s[n..], sep, i, w)
    ensures RunIs(s, sep, i + n, w)
  {
    RunShifts(s, sep, n, i, i + |w|);
    assert s[n..][i..i + |w|] == s[i + n..i + n + |w|];
  }

  /** The runs of what follows, seen from the whole. */
  lemma LaterRuns(s: string, sep: char -> bool, n: nat, words: seq<string>, later: seq<nat>)
    requires 0 < n <= |s| && (sep(s[n - 1]) || (n < |s| ==> sep(s[n])))
    requires |words| == |later| && forall k :: 0 <= k < |later| ==> RunIs(s[n..], sep, later[k], words[k])
    ensures forall k :: 0 <= k < |later| ==> RunIs(s, sep, Shifted(later, n)[k], words[k])
  {
    forall k | 0 <= k < |later| ensures RunIs(s, sep, Shifted(later, n)[k], words[k]) {
      LaterRunAt(s, sep, n, words, later, k);
    }
  }

  lemma LaterRunAt(s: string, sep: char -> bool, n: nat, words: seq<string>, later: seq<nat>, k: nat)
    requires 0 < n <= |s| && (sep(s[n - 1]) || (n < |s| ==> sep(s[n])))
    requires |words| == |later| && k < |later| && RunIs(s[n..], sep, later[k], words[k])
    ensures RunIs(s, sep, Shifted(later, n)[k], words[k])
  {
    LaterRun(s, sep, n, later[k], words[k]);
  }

  lemma LaterRunIsListed(s: string, sep: char -> bool, n: nat, words: seq<string>, later: seq<nat>, i: int, j: int)
    requires 0 < n <= |s| && StartsOf(s[n..], sep, words, later)
    requires MaximalRun(s, sep, i, j) && i >= n && (i == n ==> sep(s[n - 1]))
    ensures i in Shifted(later, n)
  {
    RunShifts(s, sep, n, i - n, j - n);
    assert MaximalRun(s[n..], sep, i - n, j - n);
    var k :| 0 <= k < |later| && later[k] == i - n;
    assert Shifted(later, n)[k] == i;
  }

  /** The words are the maximal runs, all of them, in the order in which they stand. */
  lemma {:induction false} WordsAreTheRuns(s: string, sep: char -> bool) returns (starts: seq<nat>)
    ensures StartsOf(s, sep, Words(s, sep), starts)
    decreases |s|
  {
    if s == "" {
      starts := [];
    } else if sep(s[0]) {
      var later := WordsAreTheRuns(s[1..], sep);
      starts := Shifted(later, 1);
      SeparatorThen(s, sep, Words(s[1..], sep), later);
    } else {
      var n := PrefixLen(s, c => !sep(c));
      var later := WordsAreTheRuns(s[n..], sep);
      starts := [0] + Shifted(later, n);
      WordThen(s, sep, n, Words(s[n..], sep), later);
    }
  }

  lemma SeparatorThen(s: string, sep: char -> bool, words: seq<string>, later: seq<nat>)
    requires s != "" && sep(s[0]) && StartsOf(s[1..], sep, words, later)
    ensures StartsOf(s, sep, words, Shifted(later, 1))
  {
    LaterRuns(s, sep, 1, words, later);
    ShiftedAscend(later, 1);
    forall i, j | MaximalRun(s, sep, i, j) ensures i in Shifted(later, 1) {
      AfterSeparator(s, sep, words, later, i, j);
    }
  }

  lemma AfterSeparator(s: string, sep: char -> bool, words: seq<string>, later: seq<nat>, i: int, j: int)
    requires s != "" && sep(s[0]) && StartsOf(s[1..], sep, words, later) && MaximalRun(s, sep, i, j)
    ensures i in Shifted(later, 1)
  {
    assert i > 0;
    LaterRunIsListed(s, sep, 1, words, later, i, j);
  }

  lemma ShiftedAscend(starts: seq<nat>, n: nat)
    requires forall k, m :: 0 <= k < m < |starts| ==> starts[k] < starts[m]
    ensures forall k, m :: 0 <= k < m < |Shifted(starts, n)| ==> Shifted(starts, n)[k] < Shifted(starts, n)[m]
  {
  }

  lemma WordThen(s: string, sep: char -> bool, n: nat, words: seq<string>, later: seq<nat>)
    requires 0 < n <= |s| && (forall k :: 0 <= k < n ==> !sep(s[k])) && (n < |s| ==> sep(s[n]))
    requires StartsOf(s[n..], sep, words, later)
    ensures StartsOf(s, sep, [s[..n]] + words, [0] + Shifted(later, n))
  {
    LaterRuns(s, sep, n, words, later);
    assert s[0..n] == s[..n] && RunIs(s, sep, 0, s[..n]);
    FirstThenRuns(s, sep, s[..n], words, Shifted(later, n));
    FirstThenAscend(later, n);
    forall i, j | MaximalRun(s, sep, i, j) ensures i in [0] + Shifted(later, n) {
      FirstOrLater(s, sep, n, words, later, i, j);
    }
  }

  lemma FirstThenRuns(s: string, sep: char -> bool, w: string, words: seq<string>, starts: seq<nat>)
    requires RunIs(s, sep, 0, w) && |words| == |starts|
    requires forall k :: 0 <= k < |starts| ==> RunIs(s, sep, starts[k], words[k])
    ensures forall k :: 0 <= k < |starts| + 1 ==> RunIs(s, sep, ([0] + starts)[k], ([w] + words)[k])
  {
    forall k | 0 <= k < |starts| + 1 ensures RunIs(s, sep, ([0] + starts)[k], ([w] + words)[k]) {
      if k > 0 { assert ([0] + starts)[k] == starts[k - 1] && ([w] + words)[k] == words[k - 1]; }
    }
  }

  lemma FirstThenAscend(later: seq<nat>, n: nat)
    requires n > 0 && forall k, m :: 0 <= k < m < |later| ==> later[k] < later[m]
    ensures var starts := [0] + Shifted(later, n);
      forall k, m :: 0 <= k < m < |starts| ==> starts[k] < starts[m]
  {
    var starts := [0] + Shifted(later, n);
    forall k, m | 0 <= k < m < |starts| ensures starts[k] < starts[m] {
      assert starts[m] == later[m - 1] + n && (k > 0 ==> starts[k] == later[k - 1] + n);
    }
  }

  lemma FirstOrLater(s: string, sep: char -> bool, n: nat, words: seq<string>, later: seq<nat>, i: int, j: int)
    requires 0 < n <= |s| && (forall k :: 0 <= k < n ==> !sep(s[k])) && StartsOf(s[n..], sep, words, later)
    requires MaximalRun(s, sep, i, j)
    ensures i in [0] + Shifted(later, n)
  {
    if i > 0 {
      assert i > n;
      LaterRunIsListed(s, sep, n, words, later, i, j);
    } else {
      assert ([0] + Shifted(later, n))[0] == i;
    }
  }

  function Letters(s: string, sep: char -> bool): string {
    if s == "" then "" else (if sep(s[0]) then "" else [s[0]]) + Letters(s[1..], sep)
  }

  function Concat(ts: seq<string>): string {
    if ts == [] then "" else ts[0] + Concat(ts[1..])
  }

  lemma {:induction false} LettersOfWordThen(s: string, n: nat, sep: char -> bool)
    requires n <= |s| && forall i :: 0 <= i < n ==> !sep(s[i])
    ensures Letters(s, sep) == s[..n] + Letters(s[n..], sep)
  {
    if n > 0 {
      LettersOfWordThen(s[1..], n - 1, sep);
      assert s[1..][..n - 1] == s[1..n] && s[1..][n - 1..] == s[n..];
      assert s[..n] == [s[0]] + s[1..n];
    } else {
      assert s[0..] == s;
    }
  }

  /** The words hold every character that is not a separator, in order. */
  lemma {:induction false} WordsKeepEveryLetter(s: string, sep: char -> bool)
    ensures Concat(Words(s, sep)) == Letters(s, sep)
    decreases |s|
  {
    if s != "" {
      if sep(s[0]) {
        WordsKeepEveryLetter(s[1..], sep);
      } else {
        var n := PrefixLen(s, c => !sep(c));
        WordsKeepEveryLetter(s[n..], sep);
        LettersOfWordThen(s, n, sep);
      }
    }
  }

  lemma WordsOfWordThen(t: string, rest: string, sep: char -> bool)
    requires t != "" && Free(t, sep)
    requires rest == "" || sep(rest[0])
    ensures Words(t + rest, sep) == [t] + Words(rest, sep)
  {
    var s := t + rest;
    var n := PrefixLen(s, c => !sep(c));
    assert s[0] == t[0];
    PrefixLenIs(s, c => !sep(c), |t|);
    assert s[..n] == t && s[n..] == rest;
  }

  lemma WordsOfSeparated(t: string, rest: string, sep: char -> bool)
    requires sep(',') && sep(' ') && t != "" && Free(t, sep)
    ensures Words(t + ", " + rest, sep) == [t] + Words(rest, sep)
  {
    WordsOfWordThen(t, ", " + rest, sep);
    assert t + ", " + rest == t + (", " + rest);
    assert (", " + rest)[1..] == " " + rest;
    assert (" " + rest)[1..] == rest;
  }

  lemma {:induction false} WordsUndoJoin(ts: seq<string>, sep: char -> bool)
    requires sep(',') && sep(' ')
    requires forall t | t in ts :: t != "" && Free(t, sep)
    ensures Words(Join(ts, ", "), sep) == ts
  {
    if ts != [] {
      assert ts[0] in ts && forall t | t in ts[1..] :: t in ts;
      if |ts| == 1 {
        WordsOfWordThen(ts[0], "", sep);
        assert ts[0] + "" == ts[0];
      } else {
        WordsUndoJoin(ts[1..], sep);
        WordsOfSeparated(ts[0], Join(ts[1..], ", "), sep);
      }
    }
  }

  // ---- trimming ------------------------------------------------------------------------

  function TrimLeft(s: string, ws: char -> bool): string {
    if s != "" && ws(s[0]) then TrimLeft(s[1..], ws) else s
  }

  function TrimRight(s: string, ws: char -> bool): string {
    if s != "" && ws(s[|s| - 1]) then TrimRight(s[..|s| - 1], ws) else s
  }

  function Trim(s: string, ws: char -> bool): string {
    TrimRight(TrimLeft(s, ws), ws)
  }

  /** `s[i..j]` with nothing but `ws` characters around it. */
  ghost predicate PaddedBy(s: string, ws: char -> bool, i: int, j: int) {
    && 0 <= i <= j <= |s|
    && (forall k :: 0 <= k < i ==> ws(s[k])) && (forall k :: j <= k < |s| ==> ws(s[k]))
  }

  lemma {:induction false} TrimLeftIs(s: string, ws: char -> bool) returns (i: nat)
    ensures i <= |s| && TrimLeft(s, ws) == s[i..] && (forall k :: 0 <= k < i ==> ws(s[k]))
    ensures i < |s| ==> !ws(s[i])
  {
    if s != "" && ws(s[0]) {
      var k := TrimLeftIs(s[1..], ws);
      i := k + 1;
      assert s[1..][k..] == s[i..];
      assert forall m | 0 < m < i :: s[m] == s[1..][m - 1];
    } else {
      i := 0;
      assert s[0..] == s;
    }
  }

  lemma {:induction false} TrimRightIs(s: string, ws: char -> bool) returns (j: nat)
    ensures j <= |s| && TrimRight(s, ws) == s[..j] && (forall k :: j <= k < |s| ==> ws(s[k]))
    ensures j > 0 ==> !ws(s[j - 1])
  {
    if s != "" && ws(s[|s| - 1]) {
      j := TrimRightIs(s[..|s| - 1], ws);
      assert s[..|s| - 1][..j] == s[..j];
      assert forall m | j <= m < |s| - 1 :: s[m] == s[..|s| - 1][m];
    } else {
      j := |s|;
      assert s[..j] == s;
    }
  }

  /** Trimming finds the part between the outer spaces. */
  lemma TrimIs(s: string, ws: char -> bool) returns (i: nat, j: nat)
    ensures PaddedBy(s, ws, i, j) && Trim(s, ws) == s[i..j]
    ensures i < j ==> !ws(s[i]) && !ws(s[j - 1])
  {
    i := TrimLeftIs(s, ws);
    var m := TrimRightIs(s[i..], ws);
    j := i + m;
    assert s[i..][..m] == s[i..j];
    assert forall k | j <= k < |s| :: s[k] == s[i..][k - i];
    assert m > 0 ==> s[i..][m - 1] == s[j - 1];
  }

  /** There is only one such part. */
  lemma TrimFinds(s: string, ws: char -> bool, i: nat, j: nat)
    requires PaddedBy(s, ws, i, j) && i < j && !ws(s[i]) && !ws(s[j - 1])
    ensures Trim(s, ws) == s[i..j]
  {
    var a, b := TrimIs(s, ws);
    assert a <= i && b >= j;
  }

  // ---- order ---------------------------------------------------------------------------

  /** The default order of `Array.prototype.sort` on strings. */
  predicate StringLeq(a: string, b: string) {
    if a == "" then true
    else if b == "" then false
    else if a[0] == b[0] then StringLeq(a[1..], b[1..])
    else a[0] < b[0]
  }

  lemma {:induction false} StringLeqTotal(a: string, b: string)
    ensures StringLeq(a, b) || StringLeq(b, a)
    ensures StringLeq(a, b) && StringLeq(b, a) ==> a == b
  {
    if a != "" && b != "" && a[0] == b[0] {
      StringLeqTotal(a[1..], b[1..]);
      assert a == [a[0]] + a[1..] && b == [b[0]] + b[1..];
    }
  }

  lemma {:induction false} StringLeqTransitive(a: string, b: string, c: string)
    requires StringLeq(a, b) && StringLeq(b, c)
    ensures StringLeq(a, c)
  {
    if a != "" && b != "" && c != "" && a[0] == b[0] && b[0] == c[0] {
      StringLeqTransitive(a[1..], b[1..], c[1..]);
    }
  }

  lemma StringOrder()
    ensures TotalPreorder(StringLeq)
    ensures forall x, y :: StringLeq(x, y) && StringLeq(y, x) ==> x == y
  {
    forall x, y ensures StringLeq(x, y) || StringLeq(y, x) { StringLeqTotal(x, y); }
    forall x, y, z | StringLeq(x, y) && StringLeq(y, z) ensures StringLeq(x, z) { StringLeqTransitive(x, y, z); }
    forall x, y | StringLeq(x, y) && StringLeq(y, x) ensures x == y { StringLeqTotal(x, y); }
  }

  /** Alphabetical order: a prefix comes first, else the smaller character at the first difference. */
  ghost predicate Alphabetical(a: string, b: string) {
    || a <= b
    || exists k :: 0 <= k < |a| && k < |b| && a[..k] == b[..k] && a[k] < b[k]
  }

  lemma {:induction false} StringLeqIsAlphabetical(a: string, b: string)
    ensures StringLeq(a, b) <==> Alphabetical(a, b)
  {
    if a != "" && b != "" {
      StringLeqIsAlphabetical(a[1..], b[1..]);
      if a[0] == b[0] {
        SameHead(a, b);
      } else {
        if a[0] < b[0] { assert a[..0] == b[..0]; }
        if k :| 0 <= k < |a| && k < |b| && a[..k] == b[..k] && a[k] < b[k] {
          assert k > 0 ==> a[..k][0] == b[..k][0];
        }
      }
    }
  }

  lemma SameHead(a: string, b: string)
    requires a != "" && b != "" && a[0] == b[0]
    ensures Alphabetical(a, b) <==> Alphabetical(a[1..], b[1..])
  {
    if Alphabetical(a, b) { TailsAlphabetical(a, b); }
    if Alphabetical(a[1..], b[1..]) { HeadsAlphabetical(a[0], a[1..], b[1..]); }
    assert a == [a[0]] + a[1..] && b == [b[0]] + b[1..];
  }

  lemma TailsAlphabetical(a: string, b: string)
    requires a != "" && b != "" && a[0] == b[0] && Alphabetical(a, b)
    ensures Alphabetical(a[1..], b[1..])
  {
    if k :| 0 <= k < |a| && k < |b| && a[..k] == b[..k] && a[k] < b[k] {
      assert a[1..][..k - 1] == a[..k][1..] && b[1..][..k - 1] == b[..k][1..];
      assert a[1..][k - 1] == a[k] && b[1..][k - 1] == b[k];
    }
  }

  lemma HeadsAlphabetical(c: char, a: string, b: string)
    requires Alphabetical(a, b)
    ensures Alphabetical([c] + a, [c] + b)
  {
    if k :| 0 <= k < |a| && k < |b| && a[..k] == b[..k] && a[k] < b[k] {
      assert ([c] + a)[..k + 1] == [c] + a[..k] && ([c] + b)[..k + 1] == [c] + b[..k];
      assert ([c] + a)[k + 1] == a[k] && ([c] + b)[k + 1] == b[k];
    } else {
      assert ([c] + b)[..|a| + 1] == [c] + b[..|a|];
    }
  }

  lemma SortedStrings(ts: seq<string>)
    ensures forall i, j :: 0 <= i < j < |SortStrings(ts)| ==> Alphabetical(SortStrings(ts)[i], SortStrings(ts)[j])
  {
    StringOrder();
    StableSortIsStable(StringLeq, ts);
    forall i, j | 0 <= i < j < |SortStrings(ts)| ensures Alphabetical(SortStrings(ts)[i], SortStrings(ts)[j]) {
      StringLeqIsAlphabetical(SortStrings(ts)[i], SortStrings(ts)[j]);
    }
  }

  /** The canonical list of a bag of strings. */
  function SortStrings(ts: seq<string>): seq<string> {
    StableSort(StringLeq, ts)
  }

  lemma SortStringsIsCanonical(a: seq<string>, b: seq<string>)
    ensures SortStrings(a) == SortStrings(b) <==> multiset(a) == multiset(b)
  {
    StringOrder();
    SortForgetsOrder(StringLeq, a, b);
  }

  // ---- numerals ------------------------------------------------------------------------

  function Digit(d: nat): (c: char)
    requires d < 10
    ensures '0' <= c <= '9'
  {
    '0' + d as char
  }

  function Decimal(n: nat): (s: string)
    ensures s != "" && forall i :: 0 <= i < |s| ==> '0' <= s[i] <= '9'
  {
    if n < 10 then [Digit(n)] else Decimal(n / 10) + [Digit(n % 10)]
  }

  lemma {:induction false} DecimalInjective(m: nat, n: nat)
    requires Decimal(m) == Decimal(n)
    ensures m == n
  {
    var a, b := Decimal(m), Decimal(n);
    assert |Decimal(m / 10)| >= 1 && |Decimal(n / 10)| >= 1;
    assert a[|a| - 1] == Digit(m % 10) && b[|b| - 1] == Digit(n % 10);
    if m >= 10 && n >= 10 {
      assert Decimal(m / 10) == a[..|a| - 1] && Decimal(n / 10) == b[..|b| - 1];
      DecimalInjective(m / 10, n / 10);
    }
  }
}
