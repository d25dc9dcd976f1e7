/** The throughput heatmap: one row per database and thread count (`<database>_<n>t`),
    one column per workload. The dashboard and the backend's throughput route both build
    it by overwriting, so a later record for a cell replaces an earlier one. Both are
    modelled with the plain decimal row key; the thread counts for which the two render
    differently are listed in the README. */
module Heatmap {
  import opened Wrappers
  import opened Seqs
  import opened Records
  import Text
  import StringOrder

  /** The row key of a record, `${database}_${threads}t`. */
  function RowKey(r: Record): string {
    r.database + "_" + Text.IntToString(r.threads) + "t"
  }

  /** A row key is the database name, an underscore, digits that read back as the thread
      count, and a final `t`. */
  lemma RowKeyParts(r: Record)
    ensures |RowKey(r)| > |r.database| + 2
    ensures RowKey(r)[..|r.database| + 1] == r.database + "_"
    ensures RowKey(r)[|RowKey(r)| - 1] == 't'
    ensures Text.IntValue(RowKey(r)[|r.database| + 1..|RowKey(r)| - 1]) == r.threads
  {
    var k := RowKey(r);
    assert k[|r.database| + 1..|k| - 1] == Text.IntToString(r.threads);
    Text.IntToStringValue(r.threads);
  }

  /** For example, redis at sixteen threads is the row `redis_16t`. */
  lemma RowKeySample(r: Record)
    requires r.database == "redis" && r.threads == 16
    ensures RowKey(r) == "redis_16t"
  {
    Text.ThreadCountStrings();
  }

  /** Row keys tell configurations apart: two records share a key exactly when they share
      database and thread count. The rendered count holds no underscore, so the last
      underscore of a key ends the database name. */
  lemma RowKeyInjective(a: Record, b: Record)
    requires RowKey(a) == RowKey(b)
    ensures a.database == b.database && a.threads == b.threads
  {
    var na, nb := Text.IntToString(a.threads), Text.IntToString(b.threads);
    var ka, kb := RowKey(a), RowKey(b);
    assert ka[|ka| - 1] == 't';
    var pa, pb := ka[..|ka| - 1], kb[..|kb| - 1];
    assert pa == a.database + "_" + na;
    assert pb == b.database + "_" + nb;
    assert pa == pb;
    if |na| < |nb| {
      UnderscoreSplit(a.database, na, b.database, nb);
      assert false;
    } else if |nb| < |na| {
      UnderscoreSplit(b.database, nb, a.database, na);
      assert false;
    }
    assert na == pa[|pa| - |na|..] == pb[|pb| - |nb|..] == nb;
    assert a.database == pa[..|a.database|];
    assert b.database == pb[..|b.database|];
    Text.IntToStringInjective(a.threads, b.threads);
  }

  /** If two `<name>_<suffix>` strings are equal and the first suffix is shorter, the second
      suffix holds the first string's separating underscore. */
  lemma UnderscoreSplit(d1: string, n1: string, d2: string, n2: string)
    requires d1 + "_" + n1 == d2 + "_" + n2
    requires |n1| < |n2|
    ensures n2[|n2| - |n1| - 1] == '_'
  {
    var s := d1 + "_" + n1;
    assert s[|d1|] == '_';
    assert s == d2 + "_" + n2;
    assert s[|d1|] == n2[|d1| - |d2| - 1];
  }

  /** Row key, then workload, to the record written last into that cell. */
  type Matrix = map<string, map<string, Record>>

  /** The matrix built by one pass over the records, each overwriting its cell (the row is
      created on first sight of its key). */
  function Cells(data: seq<Record>): Matrix
    decreases |data|
  {
    if |data| == 0 then map[]
    else
      var m := Cells(data[..|data| - 1]);
      var r := data[|data| - 1];
      var k := RowKey(r);
      var row := if k in m then m[k] else map[];
      m[k := row[r.workload := r]]
  }

  /** The record in a cell, if the cell was ever written. */
  function CellOf(m: Matrix, k: string, w: string): Option<Record> {
    if k in m && w in m[k] then Some(m[k][w]) else None
  }

  /** The records that belong in the cell of row `k` and column `w`. */
  function InCell(k: string, w: string): Record -> bool {
    (r: Record) => RowKey(r) == k && r.workload == w
  }

  /** Reference definition: the last record, searching from the end, that belongs in the
      cell of row `k` and column `w`. */
  function LastMatch(data: seq<Record>, k: string, w: string): Option<Record> {
    FindLast(data, InCell(k, w))
  }

  /** Last write wins: every cell holds the last record that belongs in it. */
  lemma {:induction false} CellsAreLastMatch(data: seq<Record>)
    ensures forall k, w :: CellOf(Cells(data), k, w) == LastMatch(data, k, w)
    decreases |data|
  {
    if |data| > 0 {
      var n := |data| - 1;
      var prefix := data[..n];
      var r := data[n];
      CellsAreLastMatch(prefix);
      forall k, w
        ensures CellOf(Cells(data), k, w) == LastMatch(data, k, w)
      {
        assert LastMatch(data, k, w) == if InCell(k, w)(r) then Some(r) else LastMatch(prefix, k, w);
        assert CellOf(Cells(prefix), k, w) == LastMatch(prefix, k, w);
      }
    }
  }

  /** The matrix has a row exactly for each row key that occurs. */
  lemma {:induction false} CellsRows(data: seq<Record>)
    ensures forall k :: k in Cells(data) <==> k in Map(data, RowKey)
    decreases |data|
  {
    if |data| > 0 {
      var n := |data| - 1;
      CellsRows(data[..n]);
      assert Map(data, RowKey) == Map(data[..n], RowKey) + [RowKey(data[n])];
    }
  }

  /** JavaScript `v || 0` on a number that may be `undefined`. */
  function OrZero(v: Option<real>): (x: real)
    ensures Truthy(v) ==> x == v.value
    ensures !Truthy(v) ==> x == 0.0
  {
    if Truthy(v) then v.value else 0.0
  }

  /** The heatmap trace: x are the workloads, y the row keys, z one row of values per key. */
  datatype HeatmapTrace = HeatmapTrace(x: seq<string>, y: seq<string>, z: seq<seq<real>>)

  /** Shown value of a cell: the throughput of the record written last, 0 when the cell was
      never written or the throughput is absent. */
  function Shown(data: seq<Record>, k: string, w: string): real {
    match LastMatch(data, k, w)
    case None => 0.0
    case Some(r) => OrZero(r.throughput)
  }

  /** The value the dashboard reads from the matrix, `matrix[k] ? matrix[k][w] || 0 : 0`,
      for a workload name that is not an `Object.prototype` property name. */
  function ShownIn(m: Matrix, k: string, w: string): real {
    if k in m then (if w in m[k] then OrZero(m[k][w].throughput) else 0.0) else 0.0
  }

  /** Reading the built matrix gives the shown value of the reference search. */
  lemma ShownInCells(data: seq<Record>, k: string, w: string)
    ensures ShownIn(Cells(data), k, w) == Shown(data, k, w)
  {
    CellsAreLastMatch(data);
    assert CellOf(Cells(data), k, w) == LastMatch(data, k, w);
  }

  /** `rows` is the sorted, duplicate-free list of the row keys that occur in `data`. */
  ghost predicate IsRowAxis(data: seq<Record>, rows: seq<string>) {
    && StringOrder.Sorted(rows) && NoDup(rows)
    && forall k :: k in rows <==> exists i :: 0 <= i < |data| && RowKey(data[i]) == k
  }

  /** `cols` is the sorted, duplicate-free list of the workloads that occur in `data`. */
  ghost predicate IsColumnAxis(data: seq<Record>, cols: seq<string>) {
    && StringOrder.Sorted(cols) && NoDup(cols)
    && forall w :: w in cols <==> exists i :: 0 <= i < |data| && data[i].workload == w
  }

  /** `z` has one row per row key and one value per workload, each the value shown for
      that cell. */
  predicate ShowsCells(data: seq<Record>, rows: seq<string>, cols: seq<string>, z: seq<seq<real>>) {
    && |z| == |rows|
    && (forall i :: 0 <= i < |z| ==> |z[i]| == |cols|)
    && forall i, j :: 0 <= i < |rows| && 0 <= j < |cols| ==> z[i][j] == Shown(data, rows[i], cols[j])
  }

  function Rows(data: seq<Record>): (rows: seq<string>)
    ensures IsRowAxis(data, rows)
  {
    InMap(data, RowKey);
    StringOrder.SortedSet(Map(data, RowKey))
  }

  function Columns(data: seq<Record>): (cols: seq<string>)
    ensures IsColumnAxis(data, cols)
  {
    InMap(data, (r: Record) => r.workload);
    StringOrder.SortedSet(Map(data, (r: Record) => r.workload))
  }

  /** The values read from the built matrix. */
  function Values(data: seq<Record>, rows: seq<string>, cols: seq<string>): (z: seq<seq<real>>)
    ensures ShowsCells(data, rows, cols, z)
  {
    var m := Cells(data);
    var z := Map(rows, (k: string) => Map(cols, (w: string) => ShownIn(m, k, w)));
    forall i, j | 0 <= i < |rows| && 0 <= j < |cols|
      ensures z[i][j] == Shown(data, rows[i], cols[j])
    {
      ShownInCells(data, rows[i], cols[j]);
    }
    z
  }

  /** The dashboard's heatmap: the sorted, duplicate-free row keys and workloads that occur,
      and for each pair the value shown for that cell. */
  function PerformanceHeatmap(data: seq<Record>): (h: HeatmapTrace)
    ensures IsRowAxis(data, h.y) && IsColumnAxis(data, h.x)
    ensures ShowsCells(data, h.y, h.x, h.z)
  {
    var rows := Rows(data);
    var cols := Columns(data);
    HeatmapTrace(cols, rows, Values(data, rows, cols))
  }
}
