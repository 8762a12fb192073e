/**
 * The three enumerations of the voicing search, as functions: string subsets, tone orderings
 * and fret choices. Each is proved to list exactly what it should, each thing once.
 */
module Enumeration {
  import opened Seqs

  // ---- string subsets ------------------------------------------------------------------

  /** Everything `pickStrings(start, picked)` emits, in order. */
  function Combos(picked: seq<nat>, start: nat, n: nat, size: nat): seq<seq<nat>>
    decreases n - start
  {
    if |picked| == size then [picked]
    else if start >= n then []
    else Combos(picked + [start], start + 1, n, size) + Combos(picked, start + 1, n, size)
  }

  /** Strictly ascending, all entries in `[lo, hi)`. */
  ghost predicate Ascending(s: seq<nat>, lo: nat, hi: nat) {
    && (forall i :: 0 <= i < |s| ==> lo <= s[i] < hi)
    && (forall i, j :: 0 <= i < j < |s| ==> s[i] < s[j])
  }

  lemma AscendingHead(r: seq<nat>, lo: nat, hi: nat)
    requires r != [] && lo < hi
    ensures Ascending(r, lo, hi) <==> (r[0] == lo && Ascending(r[1..], lo + 1, hi)) || Ascending(r, lo + 1, hi)
  {
    if r[0] == lo && Ascending(r[1..], lo + 1, hi) {
      forall i, j | 0 <= i < j < |r| ensures r[i] < r[j] && lo <= r[i] < hi && lo <= r[j] < hi {
        assert r[j] == r[1..][j - 1];
        if i > 0 { assert r[i] == r[1..][i - 1]; }
      }
    }
  }

  lemma {:induction false} CombosExact(picked: seq<nat>, start: nat, n: nat, size: nat, c: seq<nat>)
    ensures c in Combos(picked, start, n, size)
       <==> |c| == size && picked <= c && Ascending(c[|picked|..], start, n)
    decreases n - start
  {
    if |picked| == size {
      assert |c| == size && picked <= c ==> c == picked;
    } else if start >= n {
      assert |c| == size && picked <= c && |picked| < size ==> c[|picked|..][0] == c[|picked|];
    } else {
      CombosExact(picked + [start], start + 1, n, size, c);
      CombosExact(picked, start + 1, n, size, c);
      LongerPrefix(picked, start, c);
      if |c| == size && picked <= c && |picked| < size {
        AscendingHead(c[|picked|..], start, n);
        assert c[|picked| + 1..] == c[|picked|..][1..];
      }
    }
  }

  lemma {:induction false} CombosNoDup(picked: seq<nat>, start: nat, n: nat, size: nat)
    ensures NoDup(Combos(picked, start, n, size))
    decreases n - start
  {
    if |picked| != size && start < n {
      CombosNoDup(picked + [start], start + 1, n, size);
      CombosNoDup(picked, start + 1, n, size);
      var a, b := Combos(picked + [start], start + 1, n, size), Combos(picked, start + 1, n, size);
      forall c | c in a ensures c !in b {
        CombosExact(picked + [start], start + 1, n, size, c);
        CombosExact(picked, start + 1, n, size, c);
        assert c[|picked|..][0] == start;
      }
      NoDupAppend(a, b);
    }
  }

  function Factorial(n: nat): nat {
    if n == 0 then 1 else n * Factorial(n - 1)
  }

  /** Pascal's rule. */
  function Binomial(m: nat, k: nat): nat {
    if k == 0 then 1 else if m == 0 then 0 else Binomial(m - 1, k - 1) + Binomial(m - 1, k)
  }

  lemma {:induction false} BinomialIsFactorialRatio(m: nat, k: nat)
    ensures k > m ==> Binomial(m, k) == 0
    ensures k <= m ==> Binomial(m, k) * (Factorial(k) * Factorial(m - k)) == Factorial(m)
  {
    if k != 0 && m != 0 {
      BinomialIsFactorialRatio(m - 1, k - 1);
      BinomialIsFactorialRatio(m - 1, k);
      if k <= m {
        PascalStep(Binomial(m - 1, k - 1), Binomial(m - 1, k), k, m - k,
                   Factorial(k - 1), if k < m then Factorial(m - 1 - k) else 0, Factorial(m - k), Factorial(m - 1));
      }
    }
  }

  lemma PascalStep(a: nat, b: nat, k: nat, j: nat, x: nat, z: nat, y: nat, f: nat)
    requires a * (x * y) == f
    requires if j > 0 then y == j * z && b * ((k * x) * z) == f else b == 0
    ensures (a + b) * ((k * x) * y) == (k + j) * f
  {
    assert a * ((k * x) * y) == k * (a * (x * y));
    if j > 0 {
      var w := k * x;
      assert b * (w * (j * z)) == j * (b * (w * z)) by { MulShuffle(b, w, j, z); }
    }
  }

  lemma MulShuffle(b: nat, w: nat, j: nat, z: nat)
    ensures b * (w * (j * z)) == j * (b * (w * z))
  {
  }

  lemma {:induction false} CombosCount(picked: seq<nat>, start: nat, n: nat, size: nat)
    requires |picked| <= size && start <= n
    ensures |Combos(picked, start, n, size)| == Binomial(n - start, size - |picked|)
    decreases n - start
  {
    if |picked| != size && start < n {
      CombosCount(picked + [start], start + 1, n, size);
      CombosCount(picked, start + 1, n, size);
    }
  }

  // ---- tone orderings ------------------------------------------------------------------

  /** Everything `permute(arr, out, used, cur)` emits, in order. */
  function Perms<T>(arr: seq<T>, used: seq<bool>, cur: seq<T>): seq<seq<T>>
    requires |used| == |arr| && |cur| <= |arr|
    decreases |arr| - |cur|, |arr| + 1
  {
    if |cur| == |arr| then [cur] else PermsFrom(arr, used, cur, 0)
  }

  /** What the loop of `permute` still emits from index `i` on. */
  function PermsFrom<T>(arr: seq<T>, used: seq<bool>, cur: seq<T>, i: nat): seq<seq<T>>
    requires |used| == |arr| && |cur| < |arr|
    decreases |arr| - |cur|, |arr| - i
  {
    if i >= |arr| then []
    else (if used[i] then [] else Perms(arr, used[i := true], cur + [arr[i]])) + PermsFrom(arr, used, cur, i + 1)
  }

  /** `used` marks exactly the entries of `arr` that stand in `cur`. */
  ghost predicate Marks<T>(arr: seq<T>, used: seq<bool>, cur: seq<T>) {
    && NoDup(arr) && NoDup(cur)
    && |used| == |arr| && |cur| <= |arr|
    && (forall i :: 0 <= i < |arr| ==> (used[i] <==> arr[i] in cur))
    && (forall x | x in cur :: x in arr)
  }

  ghost predicate PermutationOf<T>(arr: seq<T>, p: seq<T>) {
    |p| == |arr| && NoDup(p) && forall x | x in p :: x in arr
  }

  lemma MarkNext<T>(arr: seq<T>, used: seq<bool>, cur: seq<T>, i: nat)
    requires Marks(arr, used, cur) && |cur| < |arr| && i < |arr| && !used[i]
    ensures Marks(arr, used[i := true], cur + [arr[i]])
  {
    assert NoDup(cur + [arr[i]]);
  }

  lemma {:induction false} PermsExact<T>(arr: seq<T>, used: seq<bool>, cur: seq<T>, p: seq<T>)
    requires Marks(arr, used, cur)
    ensures p in Perms(arr, used, cur) <==> cur <= p && PermutationOf(arr, p)
    decreases |arr| - |cur|, |arr| + 1
  {
    if |cur| < |arr| {
      PermsFromExact(arr, used, cur, 0, p);
      if cur <= p && PermutationOf(arr, p) {
        assert p[|cur|] in p;
        var k :| 0 <= k < |arr| && arr[k] == p[|cur|];
      }
    } else if cur <= p && |p| == |arr| {
      assert p == cur;
    }
  }

  lemma LongerPrefix<T>(cur: seq<T>, x: T, p: seq<T>)
    ensures cur + [x] <= p <==> cur <= p && |p| > |cur| && p[|cur|] == x
  {
    assert (cur + [x])[..|cur|] == cur;
  }

  lemma {:induction false} PermsFromExact<T>(arr: seq<T>, used: seq<bool>, cur: seq<T>, i: nat, p: seq<T>)
    requires Marks(arr, used, cur) && |cur| < |arr| && i <= |arr|
    ensures p in PermsFrom(arr, used, cur, i)
       <==> cur <= p && PermutationOf(arr, p) && exists k :: i <= k < |arr| && arr[k] == p[|cur|]
    decreases |arr| - |cur|, |arr| - i
  {
    if i < |arr| {
      PermsFromExact(arr, used, cur, i + 1, p);
      if !used[i] {
        MarkNext(arr, used, cur, i);
        PermsExact(arr, used[i := true], cur + [arr[i]], p);
        LongerPrefix(cur, arr[i], p);
      } else if cur <= p && PermutationOf(arr, p) {
        var j :| 0 <= j < |cur| && cur[j] == arr[i];
        assert p[j] != p[|cur|];
      }
    }
  }

  lemma {:induction false} PermsNoDup<T>(arr: seq<T>, used: seq<bool>, cur: seq<T>)
    requires Marks(arr, used, cur)
    ensures NoDup(Perms(arr, used, cur))
    decreases |arr| - |cur|, |arr| + 1
  {
    if |cur| < |arr| {
      PermsFromNoDup(arr, used, cur, 0);
    }
  }

  lemma {:induction false} PermsFromNoDup<T>(arr: seq<T>, used: seq<bool>, cur: seq<T>, i: nat)
    requires Marks(arr, used, cur) && |cur| < |arr| && i <= |arr|
    ensures NoDup(PermsFrom(arr, used, cur, i))
    decreases |arr| - |cur|, |arr| - i
  {
    if i < |arr| {
      PermsFromNoDup(arr, used, cur, i + 1);
      if !used[i] {
        MarkNext(arr, used, cur, i);
        PermsNoDup(arr, used[i := true], cur + [arr[i]]);
        var a, b := Perms(arr, used[i := true], cur + [arr[i]]), PermsFrom(arr, used, cur, i + 1);
        forall p | p in a ensures p !in b {
          PermsExact(arr, used[i := true], cur + [arr[i]], p);
          PermsFromExact(arr, used, cur, i + 1, p);
          assert p[|cur|] == arr[i];
        }
        NoDupAppend(a, b);
      }
    }
  }

  function CountFalse(used: seq<bool>, i: nat): nat
    decreases |used| - i
  {
    if i >= |used| then 0 else (if used[i] then 0 else 1) + CountFalse(used, i + 1)
  }

  lemma {:induction false} CountFalseMark(used: seq<bool>, i: nat, k: nat)
    requires k < |used| && !used[k] && i <= |used|
    ensures CountFalse(used[k := true], i) == CountFalse(used, i) - if i <= k then 1 else 0
    decreases |used| - i
  {
    if i < |used| {
      CountFalseMark(used, i + 1, k);
    }
  }

  lemma {:induction false} PermsCount<T>(arr: seq<T>, used: seq<bool>, cur: seq<T>)
    requires |used| == |arr| && |cur| <= |arr| && CountFalse(used, 0) == |arr| - |cur|
    ensures |Perms(arr, used, cur)| == Factorial(|arr| - |cur|)
    decreases |arr| - |cur|, |arr| + 1
  {
    if |cur| < |arr| {
      PermsFromCount(arr, used, cur, 0);
    }
  }

  lemma OneMore(n: nat, f: nat)
    ensures f + n * f == (1 + n) * f
  {
  }

  lemma {:induction false} PermsFromCount<T>(arr: seq<T>, used: seq<bool>, cur: seq<T>, i: nat)
    requires |used| == |arr| && |cur| < |arr| && CountFalse(used, 0) == |arr| - |cur| && i <= |arr|
    ensures |PermsFrom(arr, used, cur, i)| == CountFalse(used, i) * Factorial(|arr| - |cur| - 1)
    decreases |arr| - |cur|, |arr| - i
  {
    if i < |arr| {
      PermsFromCount(arr, used, cur, i + 1);
      if !used[i] {
        CountFalseMark(used, 0, i);
        PermsCount(arr, used[i := true], cur + [arr[i]]);
        OneMore(CountFalse(used, i + 1), Factorial(|arr| - |cur| - 1));
      }
    }
  }

  /** Permuting by index does not look at the values: relabelling the tones relabels the orderings. */
  lemma {:induction false} PermsMap<T>(f: T -> T, arr: seq<T>, used: seq<bool>, cur: seq<T>)
    requires |used| == |arr| && |cur| <= |arr|
    ensures Perms(Map(f, arr), used, Map(f, cur)) == MapEach(f, Perms(arr, used, cur))
    decreases |arr| - |cur|, |arr| + 1
  {
    if |cur| < |arr| {
      PermsFromMap(f, arr, used, cur, 0);
    }
  }

  lemma {:induction false} PermsFromMap<T>(f: T -> T, arr: seq<T>, used: seq<bool>, cur: seq<T>, i: nat)
    requires |used| == |arr| && |cur| < |arr| && i <= |arr|
    ensures PermsFrom(Map(f, arr), used, Map(f, cur), i) == MapEach(f, PermsFrom(arr, used, cur, i))
    decreases |arr| - |cur|, |arr| - i
  {
    if i < |arr| {
      PermsFromMap(f, arr, used, cur, i + 1);
      if !used[i] {
        PermsMap(f, arr, used[i := true], cur + [arr[i]]);
        assert Map(f, cur + [arr[i]]) == Map(f, cur) + [Map(f, arr)[i]];
        MapEachAppend(f, Perms(arr, used[i := true], cur + [arr[i]]), PermsFrom(arr, used, cur, i + 1));
      }
    }
  }

  // ---- fret choices --------------------------------------------------------------------

  /** Everything `expand(|accum|, accum)` visits, in order. */
  function Product(choices: seq<seq<nat>>, accum: seq<nat>): seq<seq<nat>>
    requires |accum| <= |choices|
    decreases |choices| - |accum|, 0
  {
    if |accum| == |choices| then [accum]
    else ProductFrom(choices, accum, choices[|accum|])
  }

  /** What the loop of `expand` still visits for the frets `rest`. */
  function ProductFrom(choices: seq<seq<nat>>, accum: seq<nat>, rest: seq<nat>): seq<seq<nat>>
    requires |accum| < |choices|
    decreases |choices| - |accum| - 1, |rest| + 1
  {
    if rest == [] then []
    else Product(choices, accum + [rest[0]]) + ProductFrom(choices, accum, rest[1..])
  }

  /** One choice from every list. */
  ghost predicate ChosenFrom(choices: seq<seq<nat>>, fs: seq<nat>, lo: nat) {
    |fs| == |choices| && forall k :: lo <= k < |fs| ==> fs[k] in choices[k]
  }

  lemma {:induction false} ProductExact(choices: seq<seq<nat>>, accum: seq<nat>, fs: seq<nat>)
    requires |accum| <= |choices|
    ensures fs in Product(choices, accum) <==> accum <= fs && ChosenFrom(choices, fs, |accum|)
    decreases |choices| - |accum|, 0
  {
    if |accum| < |choices| {
      ProductFromExact(choices, accum, choices[|accum|], fs);
    } else if accum <= fs && |fs| == |choices| {
      assert fs == accum;
    }
  }

  lemma {:induction false} ProductFromExact(choices: seq<seq<nat>>, accum: seq<nat>, rest: seq<nat>, fs: seq<nat>)
    requires |accum| < |choices|
    ensures fs in ProductFrom(choices, accum, rest)
       <==> accum <= fs && ChosenFrom(choices, fs, |accum| + 1) && fs[|accum|] in rest
    decreases |choices| - |accum| - 1, |rest| + 1
  {
    if rest != [] {
      ProductExact(choices, accum + [rest[0]], fs);
      ProductFromExact(choices, accum, rest[1..], fs);
      assert accum + [rest[0]] <= fs <==> accum <= fs && |fs| > |accum| && fs[|accum|] == rest[0];
    }
  }

  lemma {:induction false} ProductNoDup(choices: seq<seq<nat>>, accum: seq<nat>)
    requires |accum| <= |choices|
    requires forall k :: 0 <= k < |choices| ==> NoDup(choices[k])
    ensures NoDup(Product(choices, accum))
    decreases |choices| - |accum|, 0
  {
    if |accum| < |choices| {
      ProductFromNoDup(choices, accum, choices[|accum|]);
    }
  }

  lemma {:induction false} ProductFromNoDup(choices: seq<seq<nat>>, accum: seq<nat>, rest: seq<nat>)
    requires |accum| < |choices| && NoDup(rest)
    requires forall k :: 0 <= k < |choices| ==> NoDup(choices[k])
    ensures NoDup(ProductFrom(choices, accum, rest))
    decreases |choices| - |accum| - 1, |rest| + 1
  {
    if rest != [] {
      ProductNoDup(choices, accum + [rest[0]]);
      ProductFromNoDup(choices, accum, rest[1..]);
      var a, b := Product(choices, accum + [rest[0]]), ProductFrom(choices, accum, rest[1..]);
      forall fs | fs in a ensures fs !in b {
        ProductExact(choices, accum + [rest[0]], fs);
        ProductFromExact(choices, accum, rest[1..], fs);
        assert fs[|accum|] == rest[0];
      }
      NoDupAppend(a, b);
    }
  }
}
