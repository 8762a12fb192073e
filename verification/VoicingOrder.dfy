/**
 * The order in which the search meets voicings. It decides how ties are listed and what the limit
 * cuts off, so it is stated here by comparison, without the enumerations that produce it; and the
 * returned list is then determined by the playable voicings alone.
 */
module VoicingOrder {
  import opened Seqs
  import opened Sorting
  import opened Notes
  import opened Enumeration
  import opened Voicings
  import opened VoicingTheorems
  import opened VoicingResults

  // ---- comparisons ---------------------------------------------------------------------

  /** At the first place where the lists differ, the left one has the smaller number. */
  ghost predicate LexLess(a: seq<nat>, b: seq<nat>) {
    exists k :: 0 <= k < |a| && k < |b| && a[..k] == b[..k] && a[k] < b[k]
  }

  /** `p` stands before `q` in `tones`. */
  ghost predicate Earlier<T>(tones: seq<T>, p: T, q: T) {
    exists i, j :: 0 <= i < j < |tones| && tones[i] == p && tones[j] == q
  }

  /** At the first place where the orderings differ, the left one has the tone that stands earlier in the chord. */
  ghost predicate ToneLess<T>(tones: seq<T>, a: seq<T>, b: seq<T>) {
    exists k :: 0 <= k < |a| && k < |b| && a[..k] == b[..k] && Earlier(tones, a[k], b[k])
  }

  /** By strings, then by the tones on them in the chord's order, then by frets. */
  ghost predicate FoundBefore(tones: seq<Pitch>, v: Voicing, w: Voicing) {
    || LexLess(Strings(v), Strings(w))
    || (Strings(v) == Strings(w) && ToneLess(tones, Labels(v), Labels(w)))
    || (Strings(v) == Strings(w) && Labels(v) == Labels(w) && LexLess(Frets(v), Frets(w)))
  }

  lemma FirstDifference<T>(a: seq<T>, b: seq<T>, k: nat, m: nat)
    requires k < |a| && k < |b| && a[..k] == b[..k] && a[k] != b[k]
    requires m < |a| && m < |b| && a[..m] == b[..m] && a[m] != b[m]
    ensures k == m
  {
    assert forall i | 0 <= i < k :: a[..k][i] == a[i] && b[..k][i] == b[i];
    assert forall i | 0 <= i < m :: a[..m][i] == a[i] && b[..m][i] == b[i];
  }

  lemma EarlierDiffers<T>(tones: seq<T>, p: T, q: T)
    requires NoDup(tones) && Earlier(tones, p, q)
    ensures p != q && !Earlier(tones, q, p)
  {
  }

  lemma LexAsymmetric(a: seq<nat>, b: seq<nat>)
    ensures !(LexLess(a, b) && (LexLess(b, a) || a == b))
  {
    if LexLess(a, b) && LexLess(b, a) {
      var k :| 0 <= k < |a| && k < |b| && a[..k] == b[..k] && a[k] < b[k];
      var m :| 0 <= m < |a| && m < |b| && b[..m] == a[..m] && b[m] < a[m];
      FirstDifference(a, b, k, m);
    }
  }

  lemma ToneAsymmetric<T>(tones: seq<T>, a: seq<T>, b: seq<T>)
    requires NoDup(tones)
    ensures !(ToneLess(tones, a, b) && (ToneLess(tones, b, a) || a == b))
  {
    if ToneLess(tones, a, b) && ToneLess(tones, b, a) {
      var k :| 0 <= k < |a| && k < |b| && a[..k] == b[..k] && Earlier(tones, a[k], b[k]);
      var m :| 0 <= m < |a| && m < |b| && b[..m] == a[..m] && Earlier(tones, b[m], a[m]);
      EarlierDiffers(tones, a[k], b[k]);
      EarlierDiffers(tones, b[m], a[m]);
      FirstDifference(a, b, k, m);
    }
  }

  lemma FoundAsymmetric(tones: seq<Pitch>, v: Voicing, w: Voicing)
    requires NoDup(tones)
    ensures !(FoundBefore(tones, v, w) && FoundBefore(tones, w, v))
  {
    LexAsymmetric(Strings(v), Strings(w));
    LexAsymmetric(Strings(w), Strings(v));
    ToneAsymmetric(tones, Labels(v), Labels(w));
    ToneAsymmetric(tones, Labels(w), Labels(v));
    LexAsymmetric(Frets(v), Frets(w));
  }

  // ---- the enumerations ----------------------------------------------------------------

  ghost predicate LexAscending(s: seq<seq<nat>>) {
    forall i, j :: 0 <= i < j < |s| ==> LexLess(s[i], s[j])
  }

  lemma LexAscendingAppend(a: seq<seq<nat>>, b: seq<seq<nat>>)
    requires LexAscending(a) && LexAscending(b) && forall x, y | x in a && y in b :: LexLess(x, y)
    ensures LexAscending(a + b)
  {
    forall i, j | 0 <= i < j < |a + b| ensures LexLess((a + b)[i], (a + b)[j]) {
      if i < |a| <= j { assert (a + b)[i] in a && (a + b)[j] in b; }
    }
  }

  lemma {:induction false} CombosAscend(picked: seq<nat>, start: nat, n: nat, size: nat)
    ensures LexAscending(Combos(picked, start, n, size))
    decreases n - start
  {
    if |picked| != size && start < n {
      var a, b := Combos(picked + [start], start + 1, n, size), Combos(picked, start + 1, n, size);
      CombosAscend(picked + [start], start + 1, n, size);
      CombosAscend(picked, start + 1, n, size);
      forall x, y | x in a && y in b ensures LexLess(x, y) {
        CombosExact(picked + [start], start + 1, n, size, x);
        CombosExact(picked, start + 1, n, size, y);
        var k := |picked|;
        assert y[k] == y[k..][0] && x[..k] == picked == y[..k];
      }
      LexAscendingAppend(a, b);
    }
  }

  ghost predicate ToneAscending<T>(tones: seq<T>, s: seq<seq<T>>) {
    forall i, j :: 0 <= i < j < |s| ==> ToneLess(tones, s[i], s[j])
  }

  lemma ToneAscendingAppend<T>(tones: seq<T>, a: seq<seq<T>>, b: seq<seq<T>>)
    requires ToneAscending(tones, a) && ToneAscending(tones, b)
    requires forall x, y | x in a && y in b :: ToneLess(tones, x, y)
    ensures ToneAscending(tones, a + b)
  {
    forall i, j | 0 <= i < j < |a + b| ensures ToneLess(tones, (a + b)[i], (a + b)[j]) {
      if i < |a| <= j { assert (a + b)[i] in a && (a + b)[j] in b; }
    }
  }

  lemma {:induction false} PermsAscend<T>(arr: seq<T>, used: seq<bool>, cur: seq<T>)
    requires Marks(arr, used, cur)
    ensures ToneAscending(arr, Perms(arr, used, cur))
    decreases |arr| - |cur|, |arr| + 1
  {
    if |cur| < |arr| {
      PermsFromAscend(arr, used, cur, 0);
    }
  }

  lemma {:induction false} PermsFromAscend<T>(arr: seq<T>, used: seq<bool>, cur: seq<T>, i: nat)
    requires Marks(arr, used, cur) && |cur| < |arr| && i <= |arr|
    ensures ToneAscending(arr, PermsFrom(arr, used, cur, i))
    decreases |arr| - |cur|, |arr| - i
  {
    if i < |arr| {
      PermsFromAscend(arr, used, cur, i + 1);
      if !used[i] {
        MarkNext(arr, used, cur, i);
        PermsAscend(arr, used[i := true], cur + [arr[i]]);
        var a, b := Perms(arr, used[i := true], cur + [arr[i]]), PermsFrom(arr, used, cur, i + 1);
        forall x, y | x in a && y in b ensures ToneLess(arr, x, y) {
          NextToneLater(arr, used, cur, i, x, y);
        }
        ToneAscendingAppend(arr, a, b);
      }
    }
  }

  lemma NextToneLater<T>(arr: seq<T>, used: seq<bool>, cur: seq<T>, i: nat, x: seq<T>, y: seq<T>)
    requires Marks(arr, used, cur) && |cur| < |arr| && i < |arr| && !used[i]
    requires x in Perms(arr, used[i := true], cur + [arr[i]]) && y in PermsFrom(arr, used, cur, i + 1)
    ensures ToneLess(arr, x, y)
  {
    MarkNext(arr, used, cur, i);
    PermsExact(arr, used[i := true], cur + [arr[i]], x);
    PermsFromExact(arr, used, cur, i + 1, y);
    var j :| i + 1 <= j < |arr| && arr[j] == y[|cur|];
    LongerPrefix(cur, arr[i], x);
    assert x[..|cur|] == cur == y[..|cur|] && Earlier(arr, x[|cur|], y[|cur|]);
  }

  ghost predicate Rising(fs: seq<nat>) {
    forall i, j :: 0 <= i < j < |fs| ==> fs[i] < fs[j]
  }

  lemma {:induction false} ProductAscends(choices: seq<seq<nat>>, accum: seq<nat>)
    requires |accum| <= |choices| && forall k :: 0 <= k < |choices| ==> Rising(choices[k])
    ensures LexAscending(Product(choices, accum))
    decreases |choices| - |accum|, 0
  {
    if |accum| < |choices| {
      ProductFromAscends(choices, accum, choices[|accum|]);
    }
  }

  lemma {:induction false} ProductFromAscends(choices: seq<seq<nat>>, accum: seq<nat>, rest: seq<nat>)
    requires |accum| < |choices| && Rising(rest) && forall k :: 0 <= k < |choices| ==> Rising(choices[k])
    ensures LexAscending(ProductFrom(choices, accum, rest))
    decreases |choices| - |accum| - 1, |rest| + 1
  {
    if rest != [] {
      var a, b := Product(choices, accum + [rest[0]]), ProductFrom(choices, accum, rest[1..]);
      ProductAscends(choices, accum + [rest[0]]);
      ProductFromAscends(choices, accum, rest[1..]);
      forall x, y | x in a && y in b ensures LexLess(x, y) {
        ProductExact(choices, accum + [rest[0]], x);
        ProductFromExact(choices, accum, rest[1..], y);
        LongerPrefix(accum, rest[0], x);
        var j :| 0 <= j < |rest[1..]| && rest[1..][j] == y[|accum|];
        assert x[..|accum|] == accum == y[..|accum|] && rest[0] < rest[j + 1];
      }
      LexAscendingAppend(a, b);
    }
  }

  lemma {:induction false} WindowFretsRise(open: Pitch, tone: Pitch, lo: nat, hi: int)
    ensures Rising(WindowFrets(open, tone, lo, hi))
    decreases hi - lo
  {
    if lo <= hi {
      WindowFretsRise(open, tone, lo + 1, hi);
      WindowFretsExact(open, tone, lo + 1, hi);
      var rest := WindowFrets(open, tone, lo + 1, hi);
      assert forall i | 0 <= i < |rest| :: rest[i] in rest;
    }
  }

  lemma FretsForRise(open: Pitch, tone: Pitch, o: Options)
    ensures Rising(FretsFor(open, tone, o))
  {
    WindowFretsRise(open, tone, o.minFret, o.maxFret);
    WindowFretsExact(open, tone, o.minFret, o.maxFret);
    var window := WindowFrets(open, tone, o.minFret, o.maxFret);
    assert forall i | 0 <= i < |window| :: window[i] in window;
  }

  // ---- the leaves ----------------------------------------------------------------------

  ghost predicate InOrder(tones: seq<Pitch>, vs: seq<Voicing>) {
    forall i, j :: 0 <= i < j < |vs| ==> FoundBefore(tones, vs[i], vs[j])
  }

  lemma InOrderAppend(tones: seq<Pitch>, a: seq<Voicing>, b: seq<Voicing>)
    requires InOrder(tones, a) && InOrder(tones, b) && forall v, w | v in a && w in b :: FoundBefore(tones, v, w)
    ensures InOrder(tones, a + b)
  {
    forall i, j | 0 <= i < j < |a + b| ensures FoundBefore(tones, (a + b)[i], (a + b)[j]) {
      if i < |a| <= j { assert (a + b)[i] in a && (a + b)[j] in b; }
    }
  }

  lemma LeavesInOrder(tones: seq<Pitch>, open: seq<Pitch>, o: Options, strings: seq<nat>, perm: seq<Pitch>)
    requires StringsFit(open, |perm|, strings)
    ensures InOrder(tones, Leaves(open, o, strings, perm))
  {
    var choices := Choices(open, o, strings, perm);
    forall k | 0 <= k < |choices| ensures Rising(choices[k]) { FretsForRise(open[strings[k]], perm[k], o); }
    ProductAscends(choices, []);
    ProductLengths(choices, []);
    var fss, vs := Product(choices, []), Leaves(open, o, strings, perm);
    forall i, j | 0 <= i < j < |vs| ensures FoundBefore(tones, vs[i], vs[j]) {
      assert fss[i] in fss && fss[j] in fss && LexLess(fss[i], fss[j]);
      assert vs[i] == Place(strings, perm, fss[i]) && vs[j] == Place(strings, perm, fss[j]);
    }
  }

  lemma {:induction false} LeavesForPermsInOrder(
      tones: seq<Pitch>, open: seq<Pitch>, o: Options, strings: seq<nat>, perms: seq<seq<Pitch>>)
    requires ToneAscending(tones, perms) && forall p | p in perms :: StringsFit(open, |p|, strings)
    ensures InOrder(tones, LeavesForPerms(open, o, strings, perms))
  {
    if perms != [] {
      assert perms[0] in perms && forall p | p in perms[1..] :: p in perms;
      var a, b := Leaves(open, o, strings, perms[0]), LeavesForPerms(open, o, strings, perms[1..]);
      LeavesInOrder(tones, open, o, strings, perms[0]);
      LeavesForPermsInOrder(tones, open, o, strings, perms[1..]);
      forall v, w | v in a && w in b ensures FoundBefore(tones, v, w) {
        LeavesExact(open, o, strings, perms[0], v);
        LeavesForPermsExact(open, o, strings, perms[1..], w);
        var j :| 0 <= j < |perms[1..]| && perms[1..][j] == Labels(w);
        assert ToneLess(tones, perms[0], perms[j + 1]);
      }
      InOrderAppend(tones, a, b);
    }
  }

  lemma {:induction false} LeavesForCombosInOrder(
      tones: seq<Pitch>, open: seq<Pitch>, o: Options, combos: seq<seq<nat>>, perms: seq<seq<Pitch>>)
    requires LexAscending(combos) && ToneAscending(tones, perms) && AllFit(open, combos, perms)
    ensures InOrder(tones, LeavesForCombos(open, o, combos, perms))
  {
    if combos != [] {
      assert combos[0] in combos && forall c | c in combos[1..] :: c in combos;
      var a, b := LeavesForPerms(open, o, combos[0], perms), LeavesForCombos(open, o, combos[1..], perms);
      LeavesForPermsInOrder(tones, open, o, combos[0], perms);
      LeavesForCombosInOrder(tones, open, o, combos[1..], perms);
      forall v, w | v in a && w in b ensures FoundBefore(tones, v, w) {
        LeavesForPermsExact(open, o, combos[0], perms, v);
        LeavesForCombosExact(open, o, combos[1..], perms, w);
        var j :| 0 <= j < |combos[1..]| && combos[1..][j] == Strings(w);
        assert LexLess(combos[0], combos[j + 1]);
      }
      InOrderAppend(tones, a, b);
    }
  }

  lemma {:induction false} FilterInOrder(tones: seq<Pitch>, p: Voicing -> bool, vs: seq<Voicing>)
    requires InOrder(tones, vs)
    ensures InOrder(tones, Filter(p, vs))
  {
    if vs != [] {
      FilterInOrder(tones, p, vs[1..]);
      forall w | w in Filter(p, vs[1..]) ensures FoundBefore(tones, vs[0], w) {
        InFilter(p, vs[1..], w);
        var j :| 0 <= j < |vs[1..]| && vs[1..][j] == w;
        assert w == vs[j + 1];
      }
      InOrderAppend(tones, if p(vs[0]) then [vs[0]] else [], Filter(p, vs[1..]));
    }
  }

  /** The search collects voicings by strings, then by tones in the chord's order, then by frets. */
  lemma CollectedInOrder(tones: seq<Pitch>, open: seq<Pitch>, o: Options)
    requires NoDup(tones) && tones != []
    ensures InOrder(tones, Collected(tones, open, o))
  {
    EnumerationsFit(tones, open);
    CombosAscend([], 0, |open|, |tones|);
    PermsAscend(tones, NoneUsed(|tones|), []);
    LeavesForCombosInOrder(tones, open, o, AllCombos(tones, open), AllPerms(tones));
    SeenNeverRejects(tones, open, o);
    FilterInOrder(tones, KeptTest(o), AllLeaves(tones, open, o));
  }

  // ---- the returned list ---------------------------------------------------------------

  /** Where a voicing stands in the answer: by rank, and among ties by the order of the search. */
  ghost predicate Precedes(tones: seq<Pitch>, v: Voicing, w: Voicing) {
    RanksBefore(v, w) && (RanksBefore(w, v) ==> FoundBefore(tones, v, w))
  }

  ghost predicate Listed(tones: seq<Pitch>, vs: seq<Voicing>) {
    forall i, j :: 0 <= i < j < |vs| ==> Precedes(tones, vs[i], vs[j])
  }

  lemma PrecedesTransfers(tones: seq<Pitch>, v: Voicing, w: Voicing)
    requires FoundBefore(tones, v, w)
    ensures RanksBefore(v, w) ==> Precedes(tones, v, w)
    ensures !RanksBefore(v, w) ==> Precedes(tones, w, v)
  {
  }

  lemma {:induction false} InsertListed(tones: seq<Pitch>, x: Voicing, s: seq<Voicing>)
    requires Listed(tones, s) && forall w | w in s :: FoundBefore(tones, x, w)
    ensures Listed(tones, Insert(RanksBefore, x, s))
  {
    if s != [] {
      var tail := Insert(RanksBefore, x, s[1..]);
      assert s[0] in s && forall w | w in s[1..] :: w in s;
      InsertListed(tones, x, s[1..]);
      InsertPermutes(RanksBefore, x, s[1..]);
      if RanksBefore(x, s[0]) {
        AheadOfAll(tones, x, s);
        ListedCons(tones, x, s);
      } else {
        PrecedesTransfers(tones, x, s[0]);
        forall w | w in tail ensures Precedes(tones, s[0], w) {
          assert w in multiset(tail) && (w == x || w in s[1..]);
          HeadPrecedes(tones, s, w);
        }
        ListedCons(tones, s[0], tail);
      }
    }
  }

  lemma HeadPrecedes(tones: seq<Pitch>, s: seq<Voicing>, w: Voicing)
    requires Listed(tones, s) && s != []
    ensures w in s[1..] ==> Precedes(tones, s[0], w)
  {
    if j :| 0 <= j < |s[1..]| && s[1..][j] == w {
      assert s[j + 1] == w;
    }
  }

  lemma AheadOfAll(tones: seq<Pitch>, x: Voicing, s: seq<Voicing>)
    requires Listed(tones, s) && s != [] && RanksBefore(x, s[0]) && forall w | w in s :: FoundBefore(tones, x, w)
    ensures forall w | w in s :: Precedes(tones, x, w)
  {
    forall w | w in s ensures Precedes(tones, x, w) {
      var j :| 0 <= j < |s| && s[j] == w;
      assert j > 0 ==> RanksBefore(s[0], s[j]);
    }
  }

  lemma ListedCons(tones: seq<Pitch>, x: Voicing, s: seq<Voicing>)
    requires Listed(tones, s) && forall w | w in s :: Precedes(tones, x, w)
    ensures Listed(tones, [x] + s)
  {
    var r := [x] + s;
    forall i, j | 0 <= i < j < |r| ensures Precedes(tones, r[i], r[j]) {
      assert r[j] == s[j - 1] && s[j - 1] in s && (i > 0 ==> r[i] == s[i - 1]);
    }
  }

  lemma {:induction false} SortListed(tones: seq<Pitch>, c: seq<Voicing>)
    requires InOrder(tones, c)
    ensures Listed(tones, StableSort(RanksBefore, c))
  {
    if c != [] {
      var tail := StableSort(RanksBefore, c[1..]);
      SortListed(tones, c[1..]);
      forall w | w in tail ensures FoundBefore(tones, c[0], w) {
        assert w in multiset(tail) && w in multiset(c[1..]);
        var j :| 0 <= j < |c[1..]| && c[1..][j] == w;
        assert w == c[j + 1];
      }
      InsertListed(tones, c[0], tail);
    }
  }

  lemma ListedAsymmetric(tones: seq<Pitch>, v: Voicing, w: Voicing)
    requires NoDup(tones)
    ensures !(Precedes(tones, v, w) && Precedes(tones, w, v))
  {
    FoundAsymmetric(tones, v, w);
  }

  /** Two listings of the same voicings are the same list. */
  lemma {:induction false} ListingUnique(tones: seq<Pitch>, a: seq<Voicing>, b: seq<Voicing>)
    requires NoDup(tones) && Listed(tones, a) && Listed(tones, b) && forall v :: v in a <==> v in b
    ensures a == b
    decreases |a|
  {
    if a == [] {
      HasMember(b);
    } else {
      assert a[0] in b && b != [] && b[0] in a;
      HeadsAgree(tones, a, b);
      forall v ensures v in a[1..] <==> v in b[1..] {
        InTail(tones, a, v);
        InTail(tones, b, v);
      }
      ListingUnique(tones, a[1..], b[1..]);
      assert a == [a[0]] + a[1..] && b == [b[0]] + b[1..];
    }
  }

  lemma HasMember(b: seq<Voicing>)
    ensures b == [] || exists v :: v in b
  {
    assert b != [] ==> b[0] in b;
  }

  lemma HeadsAgree(tones: seq<Pitch>, a: seq<Voicing>, b: seq<Voicing>)
    requires NoDup(tones) && Listed(tones, a) && Listed(tones, b) && a != [] && b != []
    requires a[0] in b && b[0] in a
    ensures a[0] == b[0]
  {
    var i :| 0 <= i < |b| && b[i] == a[0];
    var j :| 0 <= j < |a| && a[j] == b[0];
    ListedAsymmetric(tones, a[0], b[0]);
  }

  lemma InTail(tones: seq<Pitch>, a: seq<Voicing>, v: Voicing)
    requires NoDup(tones) && Listed(tones, a) && a != []
    ensures v in a[1..] <==> v in a && v != a[0]
  {
    forall j | 0 < j < |a| ensures a[j] != a[0] { ListedAsymmetric(tones, a[0], a[j]); }
    assert a == [a[0]] + a[1..];
    assert forall j | 0 <= j < |a[1..]| :: a[1..][j] == a[j + 1];
  }

  /**
   * The answer, determined by the playable voicings alone: list all of them by rank and, among
   * ties, by the order of the search; what is returned is that list cut at the limit.
   */
  lemma RankedIsTheListing(tones: seq<Pitch>, open: seq<Pitch>, o: Options, all: seq<Voicing>)
    requires NoDup(tones) && tones != []
    requires Listed(tones, all) && forall v :: v in all <==> Playable(tones, open, o, v)
    ensures Ranked(tones, open, o) <= all
    ensures o.limit >= 0 ==> |Ranked(tones, open, o)| == if o.limit < |all| then o.limit else |all|
    ensures o.limit < 0 ==> |Ranked(tones, open, o)| == if |all| + o.limit < 0 then 0 else |all| + o.limit
  {
    var c := Collected(tones, open, o);
    var s := StableSort(RanksBefore, c);
    CollectedInOrder(tones, open, o);
    SortListed(tones, c);
    forall v ensures v in all <==> v in s {
      CollectedExact(tones, open, o, v);
      assert v in multiset(s) <==> v in multiset(c);
    }
    ListingUnique(tones, all, s);
    SliceIsPrefix(s, o.limit);
  }

  /** Such a list exists. */
  lemma ListingExists(tones: seq<Pitch>, open: seq<Pitch>, o: Options) returns (all: seq<Voicing>)
    requires NoDup(tones) && tones != []
    ensures Listed(tones, all) && forall v :: v in all <==> Playable(tones, open, o, v)
  {
    var c := Collected(tones, open, o);
    all := StableSort(RanksBefore, c);
    CollectedInOrder(tones, open, o);
    SortListed(tones, c);
    forall v ensures v in all <==> Playable(tones, open, o, v) {
      CollectedExact(tones, open, o, v);
      assert v in multiset(all) <==> v in multiset(c);
    }
  }

  // ---- the chord's order of tones ------------------------------------------------------

  /** The note at the chord's `a`-th interval. */
  function ToneAt(root: Pitch, intervals: seq<nat>, a: nat): int
    requires a < |intervals|
  {
    (root + intervals[a]) % 12
  }

  /** `p` is met among `ps` before `q` is. */
  ghost predicate MetBefore(ps: seq<Pitch>, p: Pitch, q: Pitch) {
    exists a :: 0 <= a < |ps| && ps[a] == p && forall b :: 0 <= b <= a ==> ps[b] != q
  }

  lemma {:induction false} AddAllKeepsOrder(acc: seq<Pitch>, ps: seq<Pitch>)
    requires NoDup(acc)
    ensures var r := AddAll(acc, ps);
      && NoDup(r) && acc <= r
      && forall i, j :: |acc| <= i < j < |r| ==> MetBefore(ps, r[i], r[j])
    decreases ps
  {
    AddAllExact(acc, ps);
    if ps != [] {
      var next := if ps[0] in acc then acc else acc + [ps[0]];
      var r := AddAll(acc, ps);
      AddAllKeepsOrder(next, ps[1..]);
      forall i, j | |acc| <= i < j < |r| ensures MetBefore(ps, r[i], r[j]) {
        assert ps[0] in next && r[j] != ps[0] by { FirstIsNotLater(next, r, ps[0], j, |acc|); }
        if i < |next| {
          assert ps[0] == r[i];
        } else {
          MetLater(ps, r[i], r[j]);
        }
      }
    }
  }

  lemma FirstIsNotLater(next: seq<Pitch>, r: seq<Pitch>, p: Pitch, j: nat, n: nat)
    requires NoDup(r) && next <= r && p in next && n < j < |r| && |next| <= n + 1
    ensures r[j] != p
  {
    var k :| 0 <= k < |next| && next[k] == p;
    assert r[k] == p;
  }

  lemma MetLater(ps: seq<Pitch>, p: Pitch, q: Pitch)
    requires ps != [] && ps[0] != q && MetBefore(ps[1..], p, q)
    ensures MetBefore(ps, p, q)
  {
    var a :| 0 <= a < |ps[1..]| && ps[1..][a] == p && forall b :: 0 <= b <= a ==> ps[1..][b] != q;
    forall b | 0 <= b <= a + 1 ensures ps[b] != q { assert b > 0 ==> ps[b] == ps[1..][b - 1]; }
    assert ps[a + 1] == p;
  }

  /** The chord lists its tones in the order in which the intervals first sound them. */
  lemma ChordTonesInOrder(root: Pitch, intervals: seq<nat>, i: nat, j: nat)
    requires i < j < |ChordTones(root, intervals)|
    ensures var tones := ChordTones(root, intervals);
      exists a :: 0 <= a < |intervals| && ToneAt(root, intervals, a) == tones[i]
        && forall b :: 0 <= b <= a ==> ToneAt(root, intervals, b) != tones[j]
  {
    var ps := IntervalTones(root, intervals);
    AddAllKeepsOrder([], ps);
    var tones := ChordTones(root, intervals);
    assert MetBefore(ps, tones[i], tones[j]);
    var a :| 0 <= a < |ps| && ps[a] == tones[i] && forall b :: 0 <= b <= a ==> ps[b] != tones[j];
    assert ToneAt(root, intervals, a) == ps[a];
    assert forall b | 0 <= b <= a :: ToneAt(root, intervals, b) == ps[b];
  }

  // ---- the whole function --------------------------------------------------------------

  /** By default: at most eight voicings, no fret above the twelfth, fretted strings within four frets. */
  lemma DefaultAnswer(root: Pitch, intervals: seq<nat>, tuning: seq<Option<Pitch>>)
    ensures var r := VoicingsOf(Some(root), intervals, tuning, DEFAULT_OPTIONS);
      r.Answer? ==>
        |r.voicings| <= 8
        && forall v: Voicing | v in r.voicings :: forall i, j :: 0 <= i < |v| && 0 <= j < |v| ==>
             v[i].fret <= 12 && (v[i].fret > 0 && v[j].fret > 0 ==> v[i].fret - v[j].fret <= 4)
  {
    var r := VoicingsOf(Some(root), intervals, tuning, DEFAULT_OPTIONS);
    var tones := ChordTones(root, intervals);
    ChordTonesExact(root, intervals);
    if r.Answer? && r.voicings != [] {
      RankedExact(tones, Map(OrZero, tuning), DEFAULT_OPTIONS);
      SliceIsPrefix(StableSort(RanksBefore, Collected(tones, Map(OrZero, tuning), DEFAULT_OPTIONS)), 8);
    }
  }

  /** What `getChordVoicings` returns for readable names: the listing of the playable voicings, cut at the limit. */
  lemma ChordVoicingsIsTheListing(root: Pitch, intervals: seq<nat>, tuning: seq<Option<Pitch>>, o: Options,
                                  all: seq<Voicing>)
    requires intervals != [] && None !in tuning && o.limit >= 0
    requires Listed(ChordTones(root, intervals), all)
    requires forall v :: v in all <==> Playable(ChordTones(root, intervals), Map(OrZero, tuning), o, v)
    ensures var r := VoicingsOf(Some(root), intervals, tuning, o);
      r.Answer? && r.voicings <= all && |r.voicings| == if o.limit < |all| then o.limit else |all|
  {
    var tones, open := ChordTones(root, intervals), Map(OrZero, tuning);
    ChordTonesExact(root, intervals);
    NoTonesNoIntervals(root, intervals);
    if |tones| <= |tuning| {
      RankedIsTheListing(tones, open, o, all);
    } else if all != [] {
      assert all[0] in all;
      AscendingFits(Strings(all[0]), |open|);
    }
  }
}
