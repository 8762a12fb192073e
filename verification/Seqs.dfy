/** Facts about sequences shared by the other modules. */
module Seqs {

  datatype Option<+T> = None | Some(value: T)

  ghost predicate NoDup<T>(s: seq<T>) {
    forall i, j :: 0 <= i < j < |s| ==> s[i] != s[j]
  }

  ghost predicate Disjoint<T>(a: seq<T>, b: seq<T>) {
    forall x | x in a :: x !in b
  }

  function Map<A, B>(f: A -> B, s: seq<A>): (r: seq<B>)
    ensures |r| == |s|
    ensures forall i :: 0 <= i < |s| ==> r[i] == f(s[i])
  {
    if s == [] then [] else [f(s[0])] + Map(f, s[1..])
  }

  /** The nested form, for lists of lists. */
  function MapEach<A, B>(f: A -> B, ss: seq<seq<A>>): (r: seq<seq<B>>)
    ensures |r| == |ss|
    ensures forall i :: 0 <= i < |ss| ==> r[i] == Map(f, ss[i])
  {
    if ss == [] then [] else [Map(f, ss[0])] + MapEach(f, ss[1..])
  }

  function Filter<A>(p: A -> bool, s: seq<A>): seq<A> {
    if s == [] then []
    else (if p(s[0]) then [s[0]] else []) + Filter(p, s[1..])
  }

  lemma NoDupAppend<T>(a: seq<T>, b: seq<T>)
    requires NoDup(a) && NoDup(b) && Disjoint(a, b)
    ensures NoDup(a + b)
  {
    forall i, j | 0 <= i < j < |a + b| ensures (a + b)[i] != (a + b)[j] {
      if i < |a| <= j {
        assert (a + b)[i] in a && (a + b)[j] in b;
      }
    }
  }

  lemma MapAppend<A, B>(f: A -> B, a: seq<A>, b: seq<A>)
    ensures Map(f, a + b) == Map(f, a) + Map(f, b)
  {
  }

  lemma MapEachAppend<A, B>(f: A -> B, a: seq<seq<A>>, b: seq<seq<A>>)
    ensures MapEach(f, a + b) == MapEach(f, a) + MapEach(f, b)
  {
  }

  lemma {:induction false} InFilter<A>(p: A -> bool, s: seq<A>, x: A)
    ensures x in Filter(p, s) <==> x in s && p(x)
  {
    if s != [] {
      InFilter(p, s[1..], x);
      assert s == [s[0]] + s[1..];
    }
  }

  lemma TakeOneMore<T>(s: seq<T>, n: nat)
    requires n < |s|
    ensures s[..n + 1] == s[..n] + [s[n]]
  {
  }

  lemma AppendAssociates<T>(a: seq<T>, b: seq<T>, c: seq<T>)
    ensures a + (b + c) == (a + b) + c
  {
  }

  lemma FilterHead<A>(p: A -> bool, s: seq<A>)
    requires s != []
    ensures Filter(p, s) == (if p(s[0]) then [s[0]] else []) + Filter(p, s[1..])
  {
  }

  lemma {:induction false} FilterNoDup<A>(p: A -> bool, s: seq<A>)
    requires NoDup(s)
    ensures NoDup(Filter(p, s))
  {
    if s != [] {
      FilterNoDup(p, s[1..]);
      InFilter(p, s[1..], s[0]);
    }
  }

  /** A filter that the mapped function does not disturb commutes with the map. */
  lemma {:induction false} FilterMap<A(!new)>(p: A -> bool, f: A -> A, s: seq<A>)
    requires forall x :: p(f(x)) == p(x)
    ensures Filter(p, Map(f, s)) == Map(f, Filter(p, s))
  {
    if s != [] {
      FilterMap(p, f, s[1..]);
      assert Map(f, s)[1..] == Map(f, s[1..]);
      MapAppend(f, if p(s[0]) then [s[0]] else [], Filter(p, s[1..]));
    }
  }

  lemma {:induction false} MultisetOfMap<A, B>(f: A -> B, s: seq<A>, x: A)
    requires forall y | y in s :: f(y) == f(x) ==> y == x
    ensures multiset(Map(f, s))[f(x)] == multiset(s)[x]
  {
    if s != [] {
      assert s == [s[0]] + s[1..];
      assert forall y | y in s[1..] :: y in s;
      MultisetOfMap(f, s[1..], x);
      assert Map(f, s) == [f(s[0])] + Map(f, s[1..]);
    }
  }

  function Without<T>(s: seq<T>, k: nat): seq<T>
    requires k < |s|
  {
    s[..k] + s[k + 1..]
  }

  lemma WithoutAt<T>(s: seq<T>, k: nat, i: nat)
    requires k < |s| && i < |s| - 1
    ensures Without(s, k)[i] == if i < k then s[i] else s[i + 1]
  {
  }

  lemma WithoutMultiset<T>(s: seq<T>, k: nat)
    requires k < |s|
    ensures multiset(s) == multiset{s[k]} + multiset(Without(s, k))
  {
    assert s == s[..k] + [s[k]] + s[k + 1..];
  }

  lemma WithoutKeepsOthers<T>(s: seq<T>, k: nat, x: T)
    requires k < |s| && x in s && x != s[k]
    ensures x in Without(s, k)
  {
    var i :| 0 <= i < |s| && s[i] == x;
    assert Without(s, k)[if i < k then i else i - 1] == x;
  }

  /** Pigeonhole: a repetition-free list is no longer than a list that holds its elements. */
  lemma {:induction false} Pigeonhole<T>(p: seq<T>, s: seq<T>)
    requires NoDup(p) && forall x | x in p :: x in s
    ensures |p| <= |s|
  {
    if p != [] {
      assert p[0] in s;
      var k :| 0 <= k < |s| && s[k] == p[0];
      forall x | x in p[1..] ensures x in Without(s, k) {
        assert x in p;
        WithoutKeepsOthers(s, k, x);
      }
      Pigeonhole(p[1..], Without(s, k));
    }
  }

  lemma CancelHead<T>(a: seq<T>, b: seq<T>, k: nat)
    requires a != [] && k < |b| && a[0] == b[k]
    ensures multiset(a) == multiset(b) <==> multiset(a[1..]) == multiset(Without(b, k))
  {
    assert a == [a[0]] + a[1..];
    WithoutMultiset(b, k);
    var x := multiset{b[k]};
    assert multiset(a) == x + multiset(a[1..]);
    assert multiset(a) - x == multiset(a[1..]);
    assert multiset(b) - x == multiset(Without(b, k));
  }

  lemma MapWithout<A, B>(f: A -> B, s: seq<A>, k: nat)
    requires k < |s|
    ensures Map(f, Without(s, k)) == Without(Map(f, s), k)
  {
    var mapped, short := Map(f, s), Without(s, k);
    forall i | 0 <= i < |short| ensures Map(f, short)[i] == Without(mapped, k)[i] {
      WithoutAt(s, k, i);
      WithoutAt(mapped, k, i);
    }
  }

  /** Equal multisets have equal images. */
  lemma {:induction false} MapRespectsMultiset<A, B>(f: A -> B, a: seq<A>, b: seq<A>)
    requires multiset(a) == multiset(b)
    ensures multiset(Map(f, a)) == multiset(Map(f, b))
  {
    if a == [] {
      assert |multiset(b)| == |b|;
    } else {
      assert a[0] in multiset(b);
      var k :| 0 <= k < |b| && b[k] == a[0];
      CancelHead(a, b, k);
      MapRespectsMultiset(f, a[1..], Without(b, k));
      MapWithout(f, b, k);
      CancelHead(Map(f, a), Map(f, b), k);
    }
  }

  /** An injection on the listed elements reflects multisets. */
  lemma InjectiveReflectsMultiset<A, B>(f: A -> B, a: seq<A>, b: seq<A>)
    requires forall x, y | x in a + b && y in a + b :: f(x) == f(y) ==> x == y
    requires multiset(Map(f, a)) == multiset(Map(f, b))
    ensures multiset(a) == multiset(b)
  {
    forall x ensures multiset(a)[x] == multiset(b)[x] {
      if x in a + b {
        assert forall y | y in a :: y in a + b;
        assert forall y | y in b :: y in a + b;
        MultisetOfMap(f, a, x);
        MultisetOfMap(f, b, x);
      } else {
        assert x !in a && x !in b;
        assert x !in multiset(a) && x !in multiset(b);
      }
    }
  }

  lemma TwiceListedCountsTwo<T>(b: seq<T>, i: nat, j: nat)
    requires i < j < |b|
    ensures b[i] == b[j] ==> multiset(b)[b[j]] >= 2
  {
    assert b == b[..j] + [b[j]] + b[j + 1..];
    assert b[..j][i] in multiset(b[..j]);
  }

  lemma NoDupFromMultiset<T>(a: seq<T>, b: seq<T>)
    requires multiset(a) == multiset(b) && NoDup(a)
    ensures NoDup(b)
  {
    forall i, j | 0 <= i < j < |b| ensures b[i] != b[j] {
      NoDupMultiplicity(a);
      TwiceListedCountsTwo(b, i, j);
      assert b[j] in multiset(a);
    }
  }

  lemma {:induction false} NoDupMultiplicity<T>(a: seq<T>)
    requires NoDup(a)
    ensures forall x | x in a :: multiset(a)[x] == 1
  {
    if a != [] {
      NoDupMultiplicity(a[1..]);
      assert a == [a[0]] + a[1..];
      assert a[0] !in multiset(a[1..]);
    }
  }
}
