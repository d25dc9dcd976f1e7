/** Generic sequence operations the aggregation layer is built from: filtering, searching,
    and de-duplication in first-seen order (`[...new Set(xs)]` in JavaScript). */
module Seqs {
  import opened Wrappers

  /** No element occurs twice. */
  predicate NoDup<T(==)>(s: seq<T>) {
    forall i, j :: 0 <= i < j < |s| ==> s[i] != s[j]
  }

  /** Elementwise image of a sequence (`Array.prototype.map`). */
  function Map<T, U>(s: seq<T>, f: T -> U): (r: seq<U>)
    ensures |r| == |s|
    ensures forall i :: 0 <= i < |s| ==> r[i] == f(s[i])
  {
    seq(|s|, i requires 0 <= i < |s| => f(s[i]))
  }

  /** Mapping a sequence with a new head maps the head and the rest. */
  lemma MapCons<T, U>(x: T, s: seq<T>, f: T -> U)
    ensures Map([x] + s, f) == [f(x)] + Map(s, f)
  {
  }

  /** An element occurs in the image exactly when some input maps to it. */
  lemma InMap<T, U>(s: seq<T>, f: T -> U)
    ensures forall y :: y in Map(s, f) <==> exists i :: 0 <= i < |s| && f(s[i]) == y
  {
    var m := Map(s, f);
    forall y | y in m
      ensures exists i :: 0 <= i < |s| && f(s[i]) == y
    {
      var i :| 0 <= i < |m| && m[i] == y;
    }
  }

  /** The elements of `s` that satisfy `p`, in input order (`Array.prototype.filter`,
      or a Python list comprehension with a condition). */
  function Filter<T(==)>(s: seq<T>, p: T -> bool): (r: seq<T>)
    ensures |r| <= |s|
    ensures forall i :: 0 <= i < |r| ==> r[i] in s && p(r[i])
    ensures forall i :: 0 <= i < |s| && p(s[i]) ==> s[i] in r
    decreases |s|
  {
    if |s| == 0 then []
    else if p(s[0]) then [s[0]] + Filter(s[1..], p)
    else Filter(s[1..], p)
  }

  /** Filtering distributes over concatenation, so the filtered elements keep their
      input order. */
  lemma {:induction false} FilterConcat<T>(a: seq<T>, b: seq<T>, p: T -> bool)
    ensures Filter(a + b, p) == Filter(a, p) + Filter(b, p)
    decreases |a|
  {
    if |a| == 0 {
      assert a + b == b;
    } else {
      assert (a + b)[0] == a[0];
      assert (a + b)[1..] == a[1..] + b;
      FilterConcat(a[1..], b, p);
    }
  }

  /** The conjunction of two predicates. */
  function And<T>(p: T -> bool, q: T -> bool): T -> bool {
    x => p(x) && q(x)
  }

  /** Filtering twice is filtering once by the conjunction. */
  lemma {:induction false} FilterFilter<T>(s: seq<T>, p: T -> bool, q: T -> bool)
    ensures Filter(Filter(s, p), q) == Filter(s, And(p, q))
    decreases |s|
  {
    if |s| > 0 {
      FilterFilter(s[1..], p, q);
      if p(s[0]) {
        assert ([s[0]] + Filter(s[1..], p))[1..] == Filter(s[1..], p);
      }
    }
  }

  /** The first element satisfying `p` (`Array.prototype.find`). */
  function Find<T>(s: seq<T>, p: T -> bool): (r: Option<T>)
    ensures r.None? <==> forall i :: 0 <= i < |s| ==> !p(s[i])
    ensures r.Some? ==>
      exists i :: 0 <= i < |s| && s[i] == r.value && p(s[i]) && forall j :: 0 <= j < i ==> !p(s[j])
    decreases |s|
  {
    if |s| == 0 then None
    else if p(s[0]) then Some(s[0])
    else
      var r := Find(s[1..], p);
      assert forall i :: 0 <= i < |s[1..]| ==> s[1..][i] == s[i + 1];
      r
  }

  /** `i` is the first position of `s` satisfying `p`. */
  predicate IsFirst<T>(s: seq<T>, p: T -> bool, i: int) {
    0 <= i < |s| && p(s[i]) && forall j :: 0 <= j < i ==> !p(s[j])
  }

  /** `Find` returns the element at the first satisfying position. */
  lemma FindIsFirst<T>(s: seq<T>, p: T -> bool, i: int)
    requires IsFirst(s, p, i)
    ensures Find(s, p) == Some(s[i])
  {
    var k :| 0 <= k < |s| && s[k] == Find(s, p).value && p(s[k]) && forall j :: 0 <= j < k ==> !p(s[j]);
    assert !(k < i) && !(i < k);
  }

  /** The position `Find` returns: the first satisfying one. */
  lemma FindPosition<T>(s: seq<T>, p: T -> bool) returns (i: int)
    requires Find(s, p).Some?
    ensures IsFirst(s, p, i) && Find(s, p) == Some(s[i])
  {
    i :| 0 <= i < |s| && s[i] == Find(s, p).value && p(s[i]) && forall j :: 0 <= j < i ==> !p(s[j]);
  }

  /** The last element satisfying `p`: the value a sequence of overwrites leaves behind. */
  function FindLast<T>(s: seq<T>, p: T -> bool): Option<T>
    decreases |s|
  {
    if |s| == 0 then None
    else if p(s[|s| - 1]) then Some(s[|s| - 1])
    else FindLast(s[..|s| - 1], p)
  }

  /** `FindLast` finds nothing exactly when no element satisfies `p`, and otherwise an
      element satisfying `p` with no later one that does. */
  lemma {:induction false} FindLastSpec<T>(s: seq<T>, p: T -> bool)
    ensures FindLast(s, p).None? <==> forall i :: 0 <= i < |s| ==> !p(s[i])
    ensures FindLast(s, p).Some? ==>
      exists i :: 0 <= i < |s| && s[i] == FindLast(s, p).value && p(s[i]) && forall j :: i < j < |s| ==> !p(s[j])
    decreases |s|
  {
    if |s| > 0 {
      var n := |s| - 1;
      var prefix := s[..n];
      assert forall i :: 0 <= i < n ==> prefix[i] == s[i];
      if p(s[n]) {
        assert FindLast(s, p) == Some(s[n]);
      } else {
        assert FindLast(s, p) == FindLast(prefix, p);
        FindLastSpec(prefix, p);
        if FindLast(prefix, p).Some? {
          var i :| 0 <= i < n && prefix[i] == FindLast(prefix, p).value && p(prefix[i]) &&
            forall j :: i < j < n ==> !p(prefix[j]);
          assert forall j :: i < j < |s| ==> !p(s[j]);
        }
      }
    }
  }

  /** `find` returns the head of `filter`. */
  lemma {:induction false} FindIsFilterHead<T>(s: seq<T>, p: T -> bool)
    ensures Find(s, p) == if |Filter(s, p)| == 0 then None else Some(Filter(s, p)[0])
    decreases |s|
  {
    if |s| > 0 && !p(s[0]) {
      FindIsFilterHead(s[1..], p);
    }
  }

  /** The index of the first occurrence of `x`. */
  function FirstIndex<T(==)>(s: seq<T>, x: T): (i: nat)
    requires x in s
    ensures i < |s| && s[i] == x
    ensures forall j :: 0 <= j < i ==> s[j] != x
  {
    if s[0] == x then 0 else 1 + FirstIndex(s[1..], x)
  }

  /** A first occurrence inside a prefix is the first occurrence in the whole sequence. */
  lemma FirstIndexPrefix<T>(s: seq<T>, k: nat, x: T)
    requires k <= |s| && x in s[..k]
    ensures FirstIndex(s, x) == FirstIndex(s[..k], x)
  {
    var i' := FirstIndex(s[..k], x);
    assert forall j :: 0 <= j < k ==> s[..k][j] == s[j];
    assert s[i'] == x;
  }

  /** The distinct elements of `s` in first-seen order (`[...new Set(s)]`). */
  function Distinct<T(==)>(s: seq<T>): (r: seq<T>)
    ensures NoDup(r)
    ensures forall i :: 0 <= i < |r| ==> r[i] in s
    ensures forall i :: 0 <= i < |s| ==> s[i] in r
    decreases |s|
  {
    if |s| == 0 then []
    else
      var n := |s| - 1;
      var d := Distinct(s[..n]);
      assert forall i :: 0 <= i < n ==> s[i] == s[..n][i];
      assert forall x :: x in s[..n] ==> x in s;
      if s[n] in d then d else d + [s[n]]
  }

  /** The distinct elements appear in the order of their first occurrence. */
  lemma {:induction false} DistinctFirstSeenOrder<T>(s: seq<T>)
    ensures forall i, j :: 0 <= i < j < |Distinct(s)| ==>
      FirstIndex(s, Distinct(s)[i]) < FirstIndex(s, Distinct(s)[j])
    decreases |s|
  {
    if |s| > 0 {
      var n := |s| - 1;
      var d := Distinct(s[..n]);
      DistinctFirstSeenOrder(s[..n]);
      forall i | 0 <= i < |d|
        ensures FirstIndex(s, d[i]) == FirstIndex(s[..n], d[i]) < n
      {
        FirstIndexPrefix(s, n, d[i]);
      }
      if s[n] !in d {
        var r := d + [s[n]];
        assert Distinct(s) == r;
        assert s[n] !in s[..n];
        assert FirstIndex(s, s[n]) == n;
        forall i, j | 0 <= i < j < |r|
          ensures FirstIndex(s, r[i]) < FirstIndex(s, r[j])
        {
          if j < |d| {
            assert r[i] == d[i] && r[j] == d[j];
          } else {
            assert r[i] == d[i] && r[j] == s[n];
          }
        }
      } else {
        assert Distinct(s) == d;
      }
    }
  }

  /** Keeps the present values of a sequence of options, in order. */
  function Somes<T(==)>(s: seq<Option<T>>): (r: seq<T>)
    ensures |r| <= |s|
    ensures forall i :: 0 <= i < |r| ==> Some(r[i]) in s
    ensures forall i :: 0 <= i < |s| && s[i].Some? ==> s[i].value in r
    decreases |s|
  {
    if |s| == 0 then []
    else match s[0]
      case Some(v) => [v] + Somes(s[1..])
      case None => Somes(s[1..])
  }

  /** Filters by predicates that agree on every element give the same result. */
  lemma {:induction false} FilterCongruent<T>(s: seq<T>, p: T -> bool, q: T -> bool)
    requires forall i :: 0 <= i < |s| ==> p(s[i]) == q(s[i])
    ensures Filter(s, p) == Filter(s, q)
    decreases |s|
  {
    if |s| > 0 {
      FilterCongruent(s[1..], p, q);
    }
  }

  /** When every entry is present, `Somes` just unwraps them. */
  lemma {:induction false} SomesAllPresent<T>(s: seq<Option<T>>)
    requires forall i :: 0 <= i < |s| ==> s[i].Some?
    ensures |Somes(s)| == |s|
    ensures forall i :: 0 <= i < |s| ==> Somes(s)[i] == s[i].value
    decreases |s|
  {
    if |s| > 0 {
      SomesAllPresent(s[1..]);
    }
  }

  /** The positions of `s` where `f` yields a value. */
  function Yields<T, U>(f: T -> Option<U>): T -> bool {
    x => f(x).Some?
  }

  /** `Somes` keeps one entry per element where `f` yields a value, in order: the `i`-th kept
      value is what `f` yields on the `i`-th such element. */
  lemma {:induction false} SomesAligned<T, U>(s: seq<T>, f: T -> Option<U>)
    ensures |Somes(Map(s, f))| == |Filter(s, Yields(f))|
    ensures forall i :: 0 <= i < |Filter(s, Yields(f))| ==>
      f(Filter(s, Yields(f))[i]) == Some(Somes(Map(s, f))[i])
    decreases |s|
  {
    if |s| > 0 {
      assert Map(s, f)[1..] == Map(s[1..], f);
      SomesAligned(s[1..], f);
      if f(s[0]).Some? {
        assert Somes(Map(s, f)) == [f(s[0]).value] + Somes(Map(s[1..], f));
        assert Filter(s, Yields(f)) == [s[0]] + Filter(s[1..], Yields(f));
      }
    }
  }

  /** A filter is nonempty exactly when some element satisfies the predicate. */
  lemma NonEmptyFilter<T>(s: seq<T>, p: T -> bool)
    ensures Filter(s, p) != [] <==> exists i :: 0 <= i < |s| && p(s[i])
  {
    if Filter(s, p) != [] {
      assert Filter(s, p)[0] in s;
    }
  }

  /** When every value `f` yields carries its source element as `key`, the kept values' keys
      are exactly the elements where `f` yields something, in order. */
  lemma {:induction false} SomesKeyed<T, U>(s: seq<T>, f: T -> Option<U>, key: U -> T)
    requires forall i :: 0 <= i < |s| && f(s[i]).Some? ==> key(f(s[i]).value) == s[i]
    ensures Map(Somes(Map(s, f)), key) == Filter(s, Yields(f))
    decreases |s|
  {
    if |s| > 0 {
      assert Map(s, f)[1..] == Map(s[1..], f);
      SomesKeyed(s[1..], f, key);
      var rest := Somes(Map(s[1..], f));
      if f(s[0]).Some? {
        assert Somes(Map(s, f)) == [f(s[0]).value] + rest;
        assert Map([f(s[0]).value] + rest, key) == [key(f(s[0]).value)] + Map(rest, key);
      }
    }
  }

  /** `r` lists the elements of `s` at the strictly increasing positions `idx`. */
  ghost predicate PicksAt<T>(r: seq<T>, s: seq<T>, idx: seq<int>) {
    && |idx| == |r|
    && (forall k :: 0 <= k < |idx| ==> 0 <= idx[k] < |s| && r[k] == s[idx[k]])
    && (forall k, l :: 0 <= k < l < |idx| ==> idx[k] < idx[l])
  }

  /** Reference characterisation of `Filter`: it picks, in order, exactly the positions whose
      element satisfies the predicate. */
  lemma {:induction false} FilterPicks<T>(s: seq<T>, p: T -> bool) returns (idx: seq<int>)
    ensures PicksAt(Filter(s, p), s, idx)
    ensures forall i :: 0 <= i < |s| ==> (p(s[i]) <==> i in idx)
    decreases |s|
  {
    if |s| == 0 {
      idx := [];
    } else {
      var tail := Filter(s[1..], p);
      var rest := FilterPicks(s[1..], p);
      var shifted := Shift(rest);
      ShiftPicks(tail, s, rest);
      assert forall i :: 1 <= i < |s| ==> s[i] == s[1..][i - 1];
      assert 0 !in shifted;
      if p(s[0]) {
        idx := [0] + shifted;
        assert Filter(s, p) == [s[0]] + tail;
        ConsPicks(tail, s, shifted);
      } else {
        idx := shifted;
        assert Filter(s, p) == tail;
      }
    }
  }

  /** Adding the first position in front of picks that avoid it. */
  lemma ConsPicks<T>(r: seq<T>, s: seq<T>, idx: seq<int>)
    requires |s| > 0 && PicksAt(r, s, idx)
    requires forall k :: 0 <= k < |idx| ==> idx[k] >= 1
    ensures PicksAt([s[0]] + r, s, [0] + idx)
  {
  }

  /** Every position moved one place to the right. */
  function Shift(idx: seq<int>): (r: seq<int>)
    ensures |r| == |idx|
    ensures forall k :: 0 <= k < |r| ==> r[k] == idx[k] + 1
  {
    seq(|idx|, k requires 0 <= k < |idx| => idx[k] + 1)
  }

  /** Picks from the tail of `s` are picks from `s` one place further right. */
  lemma ShiftPicks<T>(r: seq<T>, s: seq<T>, idx: seq<int>)
    requires |s| > 0 && PicksAt(r, s[1..], idx)
    ensures PicksAt(r, s, Shift(idx))
    ensures forall i :: 1 <= i < |s| ==> (i in Shift(idx) <==> i - 1 in idx)
    ensures forall k :: 0 <= k < |idx| ==> Shift(idx)[k] >= 1
  {
    var sh := Shift(idx);
    forall i | 1 <= i < |s| && i - 1 in idx
      ensures i in sh
    {
      var k :| 0 <= k < |idx| && idx[k] == i - 1;
      assert sh[k] == i;
    }
  }

  /** `FilterPicks` as a fact usable inside expressions. */
  lemma FilterInOrder<T>(s: seq<T>, p: T -> bool)
    ensures exists idx :: PicksAt(Filter(s, p), s, idx) && forall i :: 0 <= i < |s| ==> (p(s[i]) <==> i in idx)
  {
    var idx := FilterPicks(s, p);
  }
}
