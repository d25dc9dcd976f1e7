/** The stable ascending sort by thread count that both the dashboard
    (`sort((a, b) => a.threads - b.threads)`) and the backend
    (`sort(key=lambda x: x['threads'])`) apply. Both library sorts are stable, so elements
    with the same thread count keep their input order. The sort is defined once over any
    element type with an integer key and instantiated for records. */
module ThreadSort {
  import opened Seqs
  import opened Records

  predicate SortedBy<T>(s: seq<T>, key: T -> int) {
    forall i, j :: 0 <= i < j < |s| ==> key(s[i]) <= key(s[j])
  }

  /** Inserts `x` in front of the first element with at least its key. */
  function InsertBy<T>(x: T, s: seq<T>, key: T -> int): (r: seq<T>)
    requires SortedBy(s, key)
    ensures SortedBy(r, key)
    ensures multiset(r) == multiset(s) + multiset{x}
    ensures r[0] == x || (|s| > 0 && r[0] == s[0])
    decreases |s|
  {
    if |s| == 0 || key(x) <= key(s[0]) then [x] + s
    else
      assert s == [s[0]] + s[1..];
      var rest := InsertBy(x, s[1..], key);
      assert key(s[0]) <= key(rest[0]);
      [s[0]] + rest
  }

  /** Stable insertion sort by key. */
  function SortBy<T>(s: seq<T>, key: T -> int): (r: seq<T>)
    ensures SortedBy(r, key)
    ensures multiset(r) == multiset(s)
    decreases |s|
  {
    if |s| == 0 then []
    else
      assert s == [s[0]] + s[1..];
      InsertBy(s[0], SortBy(s[1..], key), key)
  }

  /** The elements whose key is `t`. */
  function KeyIs<T>(key: T -> int, t: int): T -> bool {
    x => key(x) == t
  }

  /** Inserting `x` puts it ahead of the elements with its own key. */
  lemma {:induction false} FilterInsert<T>(x: T, s: seq<T>, key: T -> int, t: int)
    requires SortedBy(s, key)
    ensures Filter(InsertBy(x, s, key), KeyIs(key, t))
         == (if key(x) == t then [x] else []) + Filter(s, KeyIs(key, t))
    decreases |s|
  {
    if |s| == 0 || key(x) <= key(s[0]) {
      assert ([x] + s)[1..] == s;
    } else {
      var rest := InsertBy(x, s[1..], key);
      assert ([s[0]] + rest)[1..] == rest;
      FilterInsert(x, s[1..], key, t);
    }
  }

  /** Stability: for every key, the elements with that key appear in the sorted sequence in
      exactly their input order. */
  lemma {:induction false} SortByStable<T>(s: seq<T>, key: T -> int, t: int)
    ensures Filter(SortBy(s, key), KeyIs(key, t)) == Filter(s, KeyIs(key, t))
    decreases |s|
  {
    if |s| > 0 {
      SortByStable(s[1..], key, t);
      FilterInsert(s[0], SortBy(s[1..], key), key, t);
    }
  }

  /** Sorting commutes with a projection that carries the key over. */
  lemma {:induction false} SortMapCommutes<T, U>(s: seq<T>, f: T -> U, k1: T -> int, k2: U -> int)
    requires forall x :: k2(f(x)) == k1(x)
    ensures SortBy(Map(s, f), k2) == Map(SortBy(s, k1), f)
    decreases |s|
  {
    if |s| > 0 {
      assert Map(s, f)[1..] == Map(s[1..], f);
      SortMapCommutes(s[1..], f, k1, k2);
      InsertMapCommutes(s[0], SortBy(s[1..], k1), f, k1, k2);
    }
  }

  /** A projection that carries the key over keeps a sorted sequence sorted. */
  lemma MapKeepsSorted<T, U>(s: seq<T>, f: T -> U, k1: T -> int, k2: U -> int)
    requires SortedBy(s, k1)
    requires forall x :: k2(f(x)) == k1(x)
    ensures SortedBy(Map(s, f), k2)
  {
  }

  lemma {:induction false} InsertMapCommutes<T, U>(x: T, s: seq<T>, f: T -> U, k1: T -> int, k2: U -> int)
    requires SortedBy(s, k1)
    requires forall y :: k2(f(y)) == k1(y)
    ensures InsertBy(f(x), Map(s, f), k2) == Map(InsertBy(x, s, k1), f)
    decreases |s|
  {
    MapKeepsSorted(s, f, k1, k2);
    var m := Map(s, f);
    if |s| == 0 || k1(x) <= k1(s[0]) {
      assert Map([x] + s, f) == [f(x)] + m;
    } else {
      var rest := InsertBy(x, s[1..], k1);
      InsertMapCommutes(x, s[1..], f, k1, k2);
      assert m[1..] == Map(s[1..], f);
      assert Map([s[0]] + rest, f) == [f(s[0])] + Map(rest, f);
    }
  }

  /** Any projection of the sorted elements is a permutation of the same projection of the
      input. */
  lemma {:induction false} SortProjectionPermutes<T, U>(s: seq<T>, key: T -> int, f: T -> U)
    ensures multiset(Map(SortBy(s, key), f)) == multiset(Map(s, f))
    decreases |s|
  {
    if |s| > 0 {
      var sorted := SortBy(s[1..], key);
      SortProjectionPermutes(s[1..], key, f);
      InsertProjection(s[0], sorted, key, f);
      ConsProjection(s[0], s[1..], f);
      assert s == [s[0]] + s[1..];
    }
  }

  /** The projection of a sequence with a new head holds one more copy of the head's image. */
  lemma ConsProjection<T, U>(x: T, s: seq<T>, f: T -> U)
    ensures multiset(Map([x] + s, f)) == multiset(Map(s, f)) + multiset{f(x)}
  {
    MapCons(x, s, f);
  }

  lemma {:induction false} InsertProjection<T, U>(x: T, s: seq<T>, key: T -> int, f: T -> U)
    requires SortedBy(s, key)
    ensures multiset(Map(InsertBy(x, s, key), f)) == multiset(Map(s, f)) + multiset{f(x)}
    decreases |s|
  {
    if |s| == 0 || key(x) <= key(s[0]) {
      ConsProjection(x, s, f);
    } else {
      var rest := InsertBy(x, s[1..], key);
      InsertProjection(x, s[1..], key, f);
      ConsProjection(s[0], rest, f);
      ConsProjection(s[0], s[1..], f);
      assert s == [s[0]] + s[1..];
    }
  }

  /** The thread count of a record, the sort key of both programs. */
  function ThreadsOf(r: Record): int {
    r.threads
  }

  /** Ascending by thread count. */
  predicate SortedByThreads(s: seq<Record>) {
    SortedBy(s, ThreadsOf)
  }

  /** The records ascending by thread count, equal counts in input order. */
  function SortByThreads(s: seq<Record>): (r: seq<Record>)
    ensures SortedByThreads(r)
    ensures multiset(r) == multiset(s)
  {
    SortBy(s, ThreadsOf)
  }

  /** Stability for records: the records with any one thread count keep their input order. */
  lemma SortByThreadsStable(s: seq<Record>, t: int)
    ensures Filter(SortByThreads(s), HasThreads(t)) == Filter(s, HasThreads(t))
  {
    SortByStable(s, ThreadsOf, t);
    FilterCongruent(SortByThreads(s), KeyIs(ThreadsOf, t), HasThreads(t));
    FilterCongruent(s, KeyIs(ThreadsOf, t), HasThreads(t));
  }

  /** The first record with a given thread count is the same before and after sorting. */
  lemma FindAfterSort(s: seq<Record>, t: int)
    ensures Find(SortByThreads(s), HasThreads(t)) == Find(s, HasThreads(t))
  {
    SortByThreadsStable(s, t);
    FindIsFilterHead(SortByThreads(s), HasThreads(t));
    FindIsFilterHead(s, HasThreads(t));
  }
}
