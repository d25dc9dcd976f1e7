/** The default ordering of strings used to lay out the heatmap axes and the lists the
    backend returns: lexicographic by character code, a proper prefix first
    (`Array.prototype.sort` without a comparator, Python `sorted` on `str`). */
module StringOrder {
  import Seqs

  /** `a` sorts no later than `b`. */
  predicate LexLe(a: string, b: string)
    decreases |a|
  {
    |a| == 0 || (|b| > 0 && (a[0] < b[0] || (a[0] == b[0] && LexLe(a[1..], b[1..]))))
  }

  lemma {:induction false} LexLeTotal(a: string, b: string)
    ensures LexLe(a, b) || LexLe(b, a)
    decreases |a|
  {
    if |a| > 0 && |b| > 0 && a[0] == b[0] {
      LexLeTotal(a[1..], b[1..]);
    }
  }

  lemma {:induction false} LexLeAntisymmetric(a: string, b: string)
    requires LexLe(a, b) && LexLe(b, a)
    ensures a == b
    decreases |a|
  {
    if |a| > 0 {
      LexLeAntisymmetric(a[1..], b[1..]);
      assert a == [a[0]] + a[1..];
      assert b == [b[0]] + b[1..];
    }
  }

  lemma {:induction false} LexLeTransitive(a: string, b: string, c: string)
    requires LexLe(a, b) && LexLe(b, c)
    ensures LexLe(a, c)
    decreases |a|
  {
    if |a| > 0 && a[0] == b[0] && b[0] == c[0] {
      LexLeTransitive(a[1..], b[1..], c[1..]);
    }
  }

  /** Every adjacent pair is in order. */
  predicate Sorted(s: seq<string>) {
    forall i :: 0 <= i < |s| - 1 ==> LexLe(s[i], s[i + 1])
  }

  /** Adjacent order gives order between any two positions. */
  lemma {:induction false} SortedPairs(s: seq<string>, i: int, j: int)
    requires Sorted(s) && 0 <= i <= j < |s|
    ensures LexLe(s[i], s[j])
    decreases j - i
  {
    if i == j {
      LexLeReflexive(s[i]);
    } else {
      SortedPairs(s, i + 1, j);
      LexLeTransitive(s[i], s[i + 1], s[j]);
    }
  }

  lemma {:induction false} LexLeReflexive(a: string)
    ensures LexLe(a, a)
    decreases |a|
  {
    if |a| > 0 {
      LexLeReflexive(a[1..]);
    }
  }

  /** Inserts `x` before the first element it sorts no later than. */
  function Insert(x: string, s: seq<string>): (r: seq<string>)
    requires Sorted(s)
    ensures Sorted(r)
    ensures multiset(r) == multiset(s) + multiset{x}
    ensures r[0] == x || (|s| > 0 && r[0] == s[0])
    decreases |s|
  {
    if |s| == 0 || LexLe(x, s[0]) then [x] + s
    else
      LexLeTotal(x, s[0]);
      assert s == [s[0]] + s[1..];
      [s[0]] + Insert(x, s[1..])
  }

  /** Inserting a new element into a duplicate-free sequence keeps it duplicate-free. */
  lemma {:induction false} InsertNoDup(x: string, s: seq<string>)
    requires Sorted(s)
    ensures Seqs.NoDup(s) && x !in s ==> Seqs.NoDup(Insert(x, s))
    decreases |s|
  {
    if Seqs.NoDup(s) && x !in s && |s| > 0 && !LexLe(x, s[0]) {
      assert s == [s[0]] + s[1..];
      assert Seqs.NoDup(s[1..]) && s[0] !in s[1..];
      InsertNoDup(x, s[1..]);
      var t := Insert(x, s[1..]);
      assert s[0] !in multiset(t);
    }
  }

  /** Insertion sort into the default string order. */
  function Sort(s: seq<string>): (r: seq<string>)
    ensures Sorted(r)
    ensures multiset(r) == multiset(s)
    ensures forall y :: y in r <==> y in s
    ensures Seqs.NoDup(s) ==> Seqs.NoDup(r)
    decreases |s|
  {
    if |s| == 0 then []
    else
      assert s == [s[0]] + s[1..];
      assert Seqs.NoDup(s) ==> Seqs.NoDup(s[1..]) && s[0] !in s[1..];
      var sorted := Sort(s[1..]);
      InsertNoDup(s[0], sorted);
      var r := Insert(s[0], sorted);
      assert forall y :: y in r <==> y in multiset(r);
      r
  }

  /** Sorting a duplicate-free sequence gives a strictly increasing one. */
  lemma SortStrictlyIncreasing(s: seq<string>)
    requires Seqs.NoDup(s)
    ensures forall i, j :: 0 <= i < j < |Sort(s)| ==> LexLe(Sort(s)[i], Sort(s)[j]) && Sort(s)[i] != Sort(s)[j]
  {
    var r := Sort(s);
    forall i, j | 0 <= i < j < |r|
      ensures LexLe(r[i], r[j])
    {
      SortedPairs(r, i, j);
    }
  }

  /** The distinct elements in sorted order (`[...new Set(xs)].sort()`, Python
      `sorted(set(xs))`). */
  function SortedSet(s: seq<string>): (r: seq<string>)
    ensures Sorted(r) && Seqs.NoDup(r)
    ensures forall x :: x in r <==> x in s
  {
    var d := Seqs.Distinct(s);
    assert forall x :: x in d <==> x in s;
    Sort(d)
  }
}
