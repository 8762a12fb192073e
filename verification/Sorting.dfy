/**
 * What `Array.prototype.sort` promises: a stable ordering of the list by a comparator.
 * The engine's own algorithm is not modelled; `StableSortUnique` says it cannot matter.
 */
module Sorting {
  import opened Seqs

  ghost predicate TotalPreorder<T(!new)>(leq: (T, T) -> bool) {
    && (forall x, y :: leq(x, y) || leq(y, x))
    && (forall x, y, z :: leq(x, y) && leq(y, z) ==> leq(x, z))
  }

  ghost predicate Sorted<T>(leq: (T, T) -> bool, s: seq<T>) {
    forall i, j :: 0 <= i < j < |s| ==> leq(s[i], s[j])
  }

  /** The elements that tie with `x`, in their listed order. */
  ghost function TiesWith<T>(leq: (T, T) -> bool, x: T, s: seq<T>): seq<T> {
    if s == [] then []
    else (if leq(x, s[0]) && leq(s[0], x) then [s[0]] else []) + TiesWith(leq, x, s[1..])
  }

  lemma {:induction false} InTies<T>(leq: (T, T) -> bool, x: T, s: seq<T>, y: T)
    ensures y in TiesWith(leq, x, s) <==> y in s && leq(x, y) && leq(y, x)
  {
    if s != [] {
      InTies(leq, x, s[1..], y);
      assert s == [s[0]] + s[1..];
    }
  }

  /** `r` is `s` put in order, ties left in the order `s` lists them. */
  ghost predicate IsStableSortOf<T(!new)>(leq: (T, T) -> bool, s: seq<T>, r: seq<T>) {
    && Sorted(leq, r)
    && forall x :: TiesWith(leq, x, r) == TiesWith(leq, x, s)
  }

  function Insert<T>(leq: (T, T) -> bool, x: T, s: seq<T>): seq<T> {
    if s == [] then [x]
    else if leq(x, s[0]) then [x] + s
    else [s[0]] + Insert(leq, x, s[1..])
  }

  function StableSort<T>(leq: (T, T) -> bool, s: seq<T>): (r: seq<T>)
    ensures multiset(r) == multiset(s)
  {
    if s == [] then []
    else
      InsertPermutes(leq, s[0], StableSort(leq, s[1..]));
      assert s == [s[0]] + s[1..];
      Insert(leq, s[0], StableSort(leq, s[1..]))
  }

  lemma {:induction false} InsertPermutes<T>(leq: (T, T) -> bool, x: T, s: seq<T>)
    ensures multiset(Insert(leq, x, s)) == multiset{x} + multiset(s)
  {
    if s != [] {
      assert s == [s[0]] + s[1..];
      InsertPermutes(leq, x, s[1..]);
    }
  }

  lemma {:induction false} InsertSorted<T(!new)>(leq: (T, T) -> bool, x: T, s: seq<T>)
    requires TotalPreorder(leq) && Sorted(leq, s)
    ensures Sorted(leq, Insert(leq, x, s))
  {
    if s != [] {
      var tail := Insert(leq, x, s[1..]);
      InsertSorted(leq, x, s[1..]);
      InsertPermutes(leq, x, s[1..]);
      if !leq(x, s[0]) {
        forall j | 0 <= j < |tail| ensures leq(s[0], tail[j]) {
          assert tail[j] in multiset(tail);
          assert tail[j] == x || tail[j] in s[1..];
        }
      }
    }
  }

  lemma {:induction false} InsertTies<T(!new)>(leq: (T, T) -> bool, x: T, s: seq<T>, y: T)
    requires TotalPreorder(leq)
    ensures TiesWith(leq, y, Insert(leq, x, s)) == TiesWith(leq, y, [x] + s)
  {
    if s != [] && !leq(x, s[0]) {
      InsertTies(leq, x, s[1..], y);
      assert ([x] + s)[1..] == s;
      assert ([x] + s[1..])[1..] == s[1..];
    }
  }

  lemma {:induction false} StableSortIsStable<T(!new)>(leq: (T, T) -> bool, s: seq<T>)
    requires TotalPreorder(leq)
    ensures IsStableSortOf(leq, s, StableSort(leq, s))
  {
    if s != [] {
      var tail := StableSort(leq, s[1..]);
      StableSortIsStable(leq, s[1..]);
      InsertSorted(leq, s[0], tail);
      forall x ensures TiesWith(leq, x, Insert(leq, s[0], tail)) == TiesWith(leq, x, s) {
        InsertTies(leq, s[0], tail, x);
        assert ([s[0]] + tail)[1..] == tail;
      }
    }
  }

  /** Two sorted lists whose ties agree are the same list: any correct stable sort gives this one. */
  lemma {:induction false} StableSortUnique<T(!new)>(leq: (T, T) -> bool, s: seq<T>, r: seq<T>)
    requires TotalPreorder(leq)
    requires IsStableSortOf(leq, s, r)
    ensures r == StableSort(leq, s)
  {
    StableSortIsStable(leq, s);
    SortedWithSameTies(leq, r, StableSort(leq, s));
  }

  lemma {:induction false} SortedWithSameTies<T(!new)>(leq: (T, T) -> bool, a: seq<T>, b: seq<T>)
    requires TotalPreorder(leq) && Sorted(leq, a) && Sorted(leq, b)
    requires forall x :: TiesWith(leq, x, a) == TiesWith(leq, x, b)
    ensures a == b
  {
    if a == [] {
      if b != [] {
        HeadTies(leq, b, a);
      }
    } else {
      HeadTies(leq, a, b);
      forall x ensures TiesWith(leq, x, a[1..]) == TiesWith(leq, x, b[1..]) {
        var n := if leq(x, a[0]) && leq(a[0], x) then 1 else 0;
        assert TiesWith(leq, x, a[1..]) == TiesWith(leq, x, a)[n..];
        assert TiesWith(leq, x, b[1..]) == TiesWith(leq, x, b)[n..];
      }
      SortedWithSameTies(leq, a[1..], b[1..]);
    }
  }

  lemma HeadTies<T(!new)>(leq: (T, T) -> bool, a: seq<T>, b: seq<T>)
    requires TotalPreorder(leq) && Sorted(leq, a) && Sorted(leq, b) && a != []
    requires forall x :: TiesWith(leq, x, a) == TiesWith(leq, x, b)
    ensures b != [] && a[0] == b[0]
  {
    assert TiesWith(leq, a[0], a)[0] == a[0];
    assert TiesWith(leq, a[0], a) == TiesWith(leq, a[0], b);
    InTies(leq, a[0], b, a[0]);
    assert a[0] in b;
    InTies(leq, b[0], b, b[0]);
    assert TiesWith(leq, b[0], a) == TiesWith(leq, b[0], b);
    InTies(leq, b[0], a, b[0]);
    assert b[0] in a;
    assert leq(a[0], b[0]) && leq(b[0], a[0]);
    assert TiesWith(leq, a[0], b)[0] == b[0];
  }

  /** With no ties between different values the order of the input is forgotten. */
  lemma {:induction false} SortedUnique<T(!new)>(leq: (T, T) -> bool, a: seq<T>, b: seq<T>)
    requires TotalPreorder(leq) && Sorted(leq, a) && Sorted(leq, b)
    requires forall x, y :: leq(x, y) && leq(y, x) ==> x == y
    requires multiset(a) == multiset(b)
    ensures a == b
  {
    assert |multiset(a)| == |a| && |multiset(b)| == |b|;
    if a != [] {
      assert a[0] in multiset(b) && b[0] in multiset(a);
      assert a[0] in b && b[0] in a;
      assert leq(a[0], b[0]) && leq(b[0], a[0]);
      assert a[0] == b[0];
      assert Without(b, 0) == b[1..];
      CancelHead(a, b, 0);
      SortedUnique(leq, a[1..], b[1..]);
    }
  }

  lemma SortForgetsOrder<T(!new)>(leq: (T, T) -> bool, a: seq<T>, b: seq<T>)
    requires TotalPreorder(leq)
    requires forall x, y :: leq(x, y) && leq(y, x) ==> x == y
    ensures StableSort(leq, a) == StableSort(leq, b) <==> multiset(a) == multiset(b)
  {
    StableSortIsStable(leq, a);
    StableSortIsStable(leq, b);
    if multiset(a) == multiset(b) {
      SortedUnique(leq, StableSort(leq, a), StableSort(leq, b));
    }
  }

  /** Cutting a sorted list short keeps it sorted and drops nothing that belongs strictly earlier. */
  lemma PrefixOfSorted<T>(leq: (T, T) -> bool, s: seq<T>, r: seq<T>)
    requires Sorted(leq, s) && r <= s
    ensures Sorted(leq, r)
    ensures NoDup(s) ==> NoDup(r)
    ensures forall v, w | v in r && w in s && w !in r :: leq(v, w)
  {
    forall v, w | v in r && w in s && w !in r ensures leq(v, w) {
      var i :| 0 <= i < |r| && r[i] == v;
      var j :| 0 <= j < |s| && s[j] == w;
      assert forall k | 0 <= k < |r| :: s[k] in r;
    }
  }

  /** A map the comparator cannot see commutes with the sort. */
  lemma {:induction false} SortMap<T(!new)>(leq: (T, T) -> bool, f: T -> T, s: seq<T>)
    requires forall x, y :: leq(f(x), f(y)) == leq(x, y)
    ensures StableSort(leq, Map(f, s)) == Map(f, StableSort(leq, s))
  {
    if s != [] {
      SortMap(leq, f, s[1..]);
      assert Map(f, s)[1..] == Map(f, s[1..]);
      InsertMap(leq, f, s[0], StableSort(leq, s[1..]));
    }
  }

  lemma {:induction false} InsertMap<T(!new)>(leq: (T, T) -> bool, f: T -> T, x: T, s: seq<T>)
    requires forall x, y :: leq(f(x), f(y)) == leq(x, y)
    ensures Insert(leq, f(x), Map(f, s)) == Map(f, Insert(leq, x, s))
  {
    if s != [] {
      assert Map(f, s)[1..] == Map(f, s[1..]);
      InsertMap(leq, f, x, s[1..]);
    }
  }
}
