/** Sorting and consecutive deduplication by a given order. */
module Sorting {
  ghost predicate Order<T(!new)>(leq: (T, T) -> bool) {
    && (forall x, y :: leq(x, y) || leq(y, x))
    && (forall x, y, z :: leq(x, y) && leq(y, z) ==> leq(x, z))
  }

  /** The order tells the elements of this sequence apart. */
  ghost predicate Antisymmetric<T(!new)>(s: seq<T>, leq: (T, T) -> bool) {
    forall x, y :: x in s && y in s && leq(x, y) && leq(y, x) ==> x == y
  }

  predicate Sorted<T>(s: seq<T>, leq: (T, T) -> bool) {
    forall i, j :: 0 <= i < j < |s| ==> leq(s[i], s[j])
  }

  function Insert<T>(x: T, s: seq<T>, leq: (T, T) -> bool): (r: seq<T>)
    ensures |r| == |s| + 1
    ensures multiset(r) == multiset(s) + multiset{x}
  {
    if s == [] then [x]
    else if leq(x, s[0]) then [x] + s
    else
      assert s == [s[0]] + s[1..];
      [s[0]] + Insert(x, s[1..], leq)
  }

  function Sort<T>(s: seq<T>, leq: (T, T) -> bool): (r: seq<T>)
    ensures |r| == |s|
    ensures multiset(r) == multiset(s)
  {
    if s == [] then []
    else
      assert s == [s[0]] + s[1..];
      Insert(s[0], Sort(s[1..], leq), leq)
  }

  lemma {:induction false} InsertSorts<T(!new)>(x: T, s: seq<T>, leq: (T, T) -> bool)
    requires Order(leq) && Sorted(s, leq)
    ensures Sorted(Insert(x, s, leq), leq)
  {
    if s != [] && !leq(x, s[0]) {
      var rest := Insert(x, s[1..], leq);
      InsertSorts(x, s[1..], leq);
      forall i | 0 <= i < |rest| ensures leq(s[0], rest[i]) {
        assert rest[i] in multiset(rest);
        assert rest[i] == x || rest[i] in s[1..];
      }
    }
  }

  lemma {:induction false} SortSorts<T(!new)>(s: seq<T>, leq: (T, T) -> bool)
    requires Order(leq)
    ensures Sorted(Sort(s, leq), leq)
  {
    if s != [] {
      SortSorts(s[1..], leq);
      InsertSorts(s[0], Sort(s[1..], leq), leq);
    }
  }

  lemma SameElements<T>(a: seq<T>, b: seq<T>, x: T)
    requires multiset(a) == multiset(b)
    ensures x in a <==> x in b
  {
    assert x in multiset(a) <==> x in multiset(b);
  }

  lemma AntisymmetricTail<T(!new)>(s: seq<T>, leq: (T, T) -> bool)
    requires Antisymmetric(s, leq) && s != []
    ensures Antisymmetric(s[1..], leq)
  {
  }

  lemma SameFirst<T(!new)>(a: seq<T>, b: seq<T>, leq: (T, T) -> bool)
    requires Order(leq) && Sorted(a, leq) && Sorted(b, leq) && multiset(a) == multiset(b) && Antisymmetric(a, leq)
    requires a != [] && b != []
    ensures a[0] == b[0]
  {
    SameElements(a, b, a[0]);
    SameElements(a, b, b[0]);
    assert leq(a[0], b[0]) && leq(b[0], a[0]);
  }

  lemma SameRest<T>(a: seq<T>, b: seq<T>)
    requires multiset(a) == multiset(b) && a != [] && b != [] && a[0] == b[0]
    ensures multiset(a[1..]) == multiset(b[1..])
  {
    assert a == [a[0]] + a[1..] && b == [b[0]] + b[1..];
    assert multiset(a[1..]) == multiset(a) - multiset{a[0]};
    assert multiset(b[1..]) == multiset(b) - multiset{b[0]};
  }

  /** A sequence has one sorted arrangement when the order tells its elements apart. */
  lemma {:induction false} SortedUnique<T(!new)>(a: seq<T>, b: seq<T>, leq: (T, T) -> bool)
    requires Order(leq) && Sorted(a, leq) && Sorted(b, leq) && multiset(a) == multiset(b) && Antisymmetric(a, leq)
    ensures a == b
  {
    assert |a| == |multiset(a)| == |multiset(b)| == |b|;
    if a != [] {
      SameFirst(a, b, leq);
      SameRest(a, b);
      AntisymmetricTail(a, leq);
      SortedTail(a, leq);
      SortedTail(b, leq);
      hide Antisymmetric, Sorted, Order;
      SortedUnique(a[1..], b[1..], leq);
      assert a == [a[0]] + a[1..] && b == [b[0]] + b[1..];
    }
  }

  lemma SortedTail<T>(s: seq<T>, leq: (T, T) -> bool)
    requires Sorted(s, leq) && s != []
    ensures Sorted(s[1..], leq)
  {
  }

  /** `Vec::dedup`: drops every element equal to the one before it. */
  function Dedup<T(==,!new)>(s: seq<T>): (r: seq<T>)
    ensures forall x :: x in r <==> x in s
    ensures s != [] ==> r != [] && r[0] == s[0]
  {
    if |s| <= 1 then s
    else if s[0] == s[1] then Dedup(s[1..])
    else [s[0]] + Dedup(s[1..])
  }

  predicate Distinct<T(==)>(s: seq<T>) {
    forall i, j :: 0 <= i < j < |s| ==> s[i] != s[j]
  }

  lemma {:induction false} DedupSorted<T(!new)>(s: seq<T>, leq: (T, T) -> bool)
    requires Order(leq) && Sorted(s, leq) && Antisymmetric(s, leq)
    ensures Sorted(Dedup(s), leq) && Distinct(Dedup(s))
  {
    if |s| > 1 {
      DedupSorted(s[1..], leq);
      if s[0] != s[1] {
        var rest := Dedup(s[1..]);
        forall i | 0 <= i < |rest| ensures leq(s[0], rest[i]) && s[0] != rest[i] {
          assert rest[i] in s[1..];
          var k :| 0 <= k < |s[1..]| && s[1..][k] == rest[i];
          assert leq(s[0], s[1]) && leq(s[1], s[1 + k]);
        }
      }
    }
  }

  lemma {:induction false} DistinctMultiset<T>(s: seq<T>)
    requires Distinct(s)
    ensures forall x :: x in s ==> multiset(s)[x] == 1
  {
    if s != [] {
      assert s == [s[0]] + s[1..];
      DistinctMultiset(s[1..]);
    }
  }

  /** Sorting and deduplicating forgets exactly the order and the repetitions. */
  lemma SortDedupExactly<T(!new)>(a: seq<T>, b: seq<T>, leq: (T, T) -> bool)
    requires Order(leq) && Antisymmetric(a + b, leq)
    ensures Dedup(Sort(a, leq)) == Dedup(Sort(b, leq)) <==> (forall x :: x in a <==> x in b)
  {
    var da, db := Dedup(Sort(a, leq)), Dedup(Sort(b, leq));
    forall x ensures (x in da <==> x in a) && (x in db <==> x in b) {
      SameElements(Sort(a, leq), a, x);
      SameElements(Sort(b, leq), b, x);
    }
    if forall x :: x in a <==> x in b {
      SortSorts(a, leq);
      SortSorts(b, leq);
      SortAntisymmetric(a, leq, a + b);
      SortAntisymmetric(b, leq, a + b);
      DedupSorted(Sort(a, leq), leq);
      DedupSorted(Sort(b, leq), leq);
      DistinctMultiset(da);
      DistinctMultiset(db);
      forall x ensures multiset(da)[x] == multiset(db)[x] {
        assert x in da <==> x in db;
      }
      assert multiset(da) == multiset(db);
      SortedUnique(da, db, leq);
    }
  }

  lemma SortAntisymmetric<T(!new)>(s: seq<T>, leq: (T, T) -> bool, all: seq<T>)
    requires Antisymmetric(all, leq) && forall x :: x in s ==> x in all
    ensures Antisymmetric(Sort(s, leq), leq)
  {
    forall x, y | x in Sort(s, leq) && y in Sort(s, leq) && leq(x, y) && leq(y, x)
      ensures x == y
    {
      SameElements(Sort(s, leq), s, x);
      SameElements(Sort(s, leq), s, y);
    }
  }
}
