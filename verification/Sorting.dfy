/** A stable sort by any linear order: what Python's `sorted` gives. */
module Sorting {

  ghost predicate Linear<T(!new)>(leq: (T, T) -> bool) {
    && (forall a, b :: leq(a, b) || leq(b, a))
    && (forall a, b, c :: leq(a, b) && leq(b, c) ==> leq(a, c))
  }

  ghost predicate Antisymmetric<T(!new)>(leq: (T, T) -> bool) {
    forall a, b :: leq(a, b) && leq(b, a) ==> a == b
  }

  ghost predicate Sorted<T>(leq: (T, T) -> bool, s: seq<T>) {
    forall i, j :: 0 <= i < j < |s| ==> leq(s[i], s[j])
  }

  function Insert<T>(leq: (T, T) -> bool, x: T, s: seq<T>): seq<T> {
    if s == [] || leq(x, s[0]) then [x] + s else [s[0]] + Insert(leq, x, s[1..])
  }

  function Sort<T>(leq: (T, T) -> bool, s: seq<T>): seq<T> {
    if s == [] then [] else Insert(leq, s[0], Sort(leq, s[1..]))
  }

  lemma {:induction false} InsertKeeps<T>(leq: (T, T) -> bool, x: T, s: seq<T>)
    ensures multiset(Insert(leq, x, s)) == multiset([x] + s)
    ensures forall y :: y in Insert(leq, x, s) ==> y == x || y in s
  {
    if s != [] && !leq(x, s[0]) {
      InsertKeeps(leq, x, s[1..]);
      assert s == [s[0]] + s[1..];
    }
  }

  lemma {:induction false} InsertSorts<T(!new)>(leq: (T, T) -> bool, x: T, s: seq<T>)
    requires Linear(leq) && Sorted(leq, s)
    ensures Sorted(leq, Insert(leq, x, s))
  {
    if s != [] && !leq(x, s[0]) {
      var rest := Insert(leq, x, s[1..]);
      InsertSorts(leq, x, s[1..]);
      InsertKeeps(leq, x, s[1..]);
      forall j | 0 <= j < |rest|
        ensures leq(s[0], rest[j])
      {
        assert rest[j] in rest;
      }
    }
  }

  lemma {:induction false} SortSorts<T(!new)>(leq: (T, T) -> bool, s: seq<T>)
    requires Linear(leq)
    ensures Sorted(leq, Sort(leq, s)) && multiset(Sort(leq, s)) == multiset(s)
    ensures |Sort(leq, s)| == |s|
  {
    if s != [] {
      SortSorts(leq, s[1..]);
      InsertSorts(leq, s[0], Sort(leq, s[1..]));
      InsertKeeps(leq, s[0], Sort(leq, s[1..]));
      assert s == [s[0]] + s[1..];
    }
    assert |multiset(Sort(leq, s))| == |Sort(leq, s)|;
  }

  lemma LeastFirst<T(!new)>(leq: (T, T) -> bool, a: seq<T>, x: T)
    requires Linear(leq) && Sorted(leq, a) && x in multiset(a)
    ensures a != [] && leq(a[0], x)
  {
    var j :| 0 <= j < |a| && a[j] == x;
  }

  lemma WithoutFirst<T>(a: seq<T>)
    requires a != []
    ensures multiset(a[1..]) == multiset(a) - multiset{a[0]}
  {
    assert a == [a[0]] + a[1..];
  }

  /** Under an antisymmetric order there is one sorted arrangement. */
  lemma {:induction false} SortedIsUnique<T(!new)>(leq: (T, T) -> bool, a: seq<T>, b: seq<T>)
    requires Linear(leq) && Antisymmetric(leq)
    requires Sorted(leq, a) && Sorted(leq, b) && multiset(a) == multiset(b)
    ensures a == b
  {
    if a == [] {
      assert |multiset(b)| == 0;
    } else {
      assert a[0] in multiset(a);
      LeastFirst(leq, b, a[0]);
      assert b[0] in multiset(b);
      LeastFirst(leq, a, b[0]);
      WithoutFirst(a);
      WithoutFirst(b);
      SortedIsUnique(leq, a[1..], b[1..]);
      assert a == [a[0]] + a[1..] && b == [b[0]] + b[1..];
    }
  }

  /** Sorting forgets the order and nothing else. */
  lemma SortForgetsOrder<T(!new)>(leq: (T, T) -> bool, a: seq<T>, b: seq<T>)
    requires Linear(leq) && Antisymmetric(leq)
    ensures Sort(leq, a) == Sort(leq, b) <==> multiset(a) == multiset(b)
  {
    SortSorts(leq, a);
    SortSorts(leq, b);
    if multiset(a) == multiset(b) {
      SortedIsUnique(leq, Sort(leq, a), Sort(leq, b));
    }
  }

  lemma {:induction false} SortOfSorted<T>(leq: (T, T) -> bool, s: seq<T>)
    requires Sorted(leq, s)
    ensures Sort(leq, s) == s
  {
    if s != [] {
      SortOfSorted(leq, s[1..]);
      assert s == [s[0]] + s[1..];
    }
  }

  lemma {:induction false} DistinctCounts<T>(s: seq<T>, x: T)
    requires forall i, j :: 0 <= i < j < |s| ==> s[i] != s[j]
    ensures multiset(s)[x] <= 1
  {
    if s != [] {
      DistinctCounts(s[1..], x);
      WithoutFirst(s);
      assert s[0] !in s[1..];
    }
  }

  lemma RepeatCounts<T>(s: seq<T>, i: nat, j: nat)
    requires i < j < |s| && s[i] == s[j]
    ensures multiset(s)[s[i]] >= 2
  {
    assert s == s[..j] + [s[j]] + s[j + 1..];
    assert s[i] in s[..j];
  }
}
