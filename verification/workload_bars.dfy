/** The per-workload, per-thread-count bar charts: for each workload and each of the
    thread counts 1, 4, 8 and 16, the records of exactly that configuration. */
module WorkloadBars {
  import opened Wrappers
  import opened Seqs
  import opened Records
  import Text
  import Catalog

  /** The element id of a per-thread chart: the workload key, the thread count, then
      `Thread`, with an `s` unless the count is 1 (`readHeavy1Thread`, `readHeavy4Threads`). */
  function ThreadChartId(key: string, threads: int): (id: string)
    ensures id == key + Text.IntToString(threads) + Suffix(threads)
    ensures Text.IntValue(id[|key|..|id| - |Suffix(threads)|]) == threads
  {
    var id := key + Text.IntToString(threads) + Suffix(threads);
    assert id[|key|..|id| - |Suffix(threads)|] == Text.IntToString(threads);
    Text.IntToStringValue(threads);
    id
  }

  /** For example, the single-thread read-heavy chart and the sixteen-thread range-query
      chart. */
  lemma ThreadChartIdSamples()
    ensures ThreadChartId("readHeavy", 1) == "readHeavy1Thread"
    ensures ThreadChartId("rangeQuery", 16) == "rangeQuery16Threads"
  {
    Text.ThreadCountStrings();
  }

  /** `Thread` for a single thread, `Threads` otherwise. */
  function Suffix(threads: int): string {
    if threads == 1 then "Thread" else "Threads"
  }

  /** Ids of different thread counts under the same key differ: the last character tells a
      single thread from several, and otherwise the rendered counts read back equal. */
  lemma ThreadChartIdInjective(key: string, a: int, b: int)
    requires ThreadChartId(key, a) == ThreadChartId(key, b)
    ensures a == b
  {
    var id := ThreadChartId(key, a);
    if a != 1 && b != 1 {
      assert Suffix(a) == Suffix(b);
      assert Text.IntValue(id[|key|..|id| - |Suffix(a)|]) == a;
    }
  }

  /** A per-thread bar chart: element id and the records it shows, in input order; the
      x (database) and y (throughput) arrays are their projections. */
  datatype ThreadChart = ThreadChart(id: string, records: seq<Record>) {
    function X(): seq<string> {
      Map(records, (r: Record) => r.database)
    }

    function Y(): seq<Option<real>> {
      Map(records, (r: Record) => r.throughput)
    }
  }

  /** The bars of a chart: one per record, the database on x and its throughput on y. */
  lemma ThreadChartArrays(c: ThreadChart)
    ensures |c.X()| == |c.Y()| == |c.records|
    ensures forall i :: 0 <= i < |c.records| ==>
      c.X()[i] == c.records[i].database && c.Y()[i] == c.records[i].throughput
  {
  }

  /** The records of one workload and thread count. */
  function OfSlice(w: string, threads: int): Record -> bool {
    (r: Record) => r.workload == w && r.threads == threads
  }

  /** `c` is the chart of workload `w` at `threads`: none exactly when no record has that
      configuration, otherwise the chart under its id with exactly those records, in input
      order. */
  ghost predicate IsThreadSlice(data: seq<Record>, w: string, key: string, threads: int, c: Option<ThreadChart>) {
    && (c.None? <==> forall i :: 0 <= i < |data| ==> !(data[i].workload == w && data[i].threads == threads))
    && (c.Some? ==> c.value.id == ThreadChartId(key, threads))
    && (c.Some? ==> forall i :: 0 <= i < |c.value.records| ==>
          c.value.records[i] in data && c.value.records[i].workload == w && c.value.records[i].threads == threads)
    && (c.Some? ==> forall i :: 0 <= i < |data| && data[i].workload == w && data[i].threads == threads ==>
          data[i] in c.value.records)
    && (c.Some? ==> exists idx ::
          PicksAt(c.value.records, data, idx) && forall i :: 0 <= i < |data| ==> (OfSlice(w, threads)(data[i]) <==> i in idx))
  }

  /** The chart for workload `w` at `threads`, or none when no record has that
      configuration. */
  function ThreadSlice(data: seq<Record>, w: string, key: string, threads: int): (c: Option<ThreadChart>)
    ensures IsThreadSlice(data, w, key, threads, c)
    ensures c.Some? ==> |c.value.records| > 0
  {
    var slice := Filter(data, OfSlice(w, threads));
    FilterInOrder(data, OfSlice(w, threads));
    if |slice| == 0 then
      assert forall i :: 0 <= i < |data| ==> !OfSlice(w, threads)(data[i]);
      None
    else
      assert slice[0] in data && OfSlice(w, threads)(slice[0]);
      Some(ThreadChart(ThreadChartId(key, threads), slice))
  }

  /** The (workload, key, thread count) triples in the order the charts are built:
      workloads in the key order of the element-id mapping, thread counts within each. */
  const ChartGrid: seq<(string, string, int)> := [
    ("read_heavy", "readHeavy", 1), ("read_heavy", "readHeavy", 4), ("read_heavy", "readHeavy", 8), ("read_heavy", "readHeavy", 16),
    ("write_heavy", "writeHeavy", 1), ("write_heavy", "writeHeavy", 4), ("write_heavy", "writeHeavy", 8), ("write_heavy", "writeHeavy", 16),
    ("balanced", "balanced", 1), ("balanced", "balanced", 4), ("balanced", "balanced", 8), ("balanced", "balanced", 16),
    ("range_query", "rangeQuery", 1), ("range_query", "rangeQuery", 4), ("range_query", "rangeQuery", 8), ("range_query", "rangeQuery", 16)
  ]

  /** The grid is the product of the element-id mapping and the thread counts, in that
      nesting order. */
  lemma ChartGridIsProduct()
    ensures |ChartGrid| == |Catalog.ElementKeys| * |Catalog.ThreadCounts|
    ensures forall i :: 0 <= i < |ChartGrid| ==>
      ChartGrid[i] == (Catalog.ElementKeys[i / 4].0, Catalog.ElementKeys[i / 4].1, Catalog.ThreadCounts[i % 4])
  {
  }

  /** The chart of the `j`-th grid configuration, if it has records. */
  function SliceAt(data: seq<Record>, j: int): Option<ThreadChart>
    requires 0 <= j < |ChartGrid|
  {
    ThreadSlice(data, ChartGrid[j].0, ChartGrid[j].1, ChartGrid[j].2)
  }

  /** The positions of the grid, in build order. */
  function GridPositions(): (ps: seq<int>)
    ensures |ps| == |ChartGrid|
    ensures forall j :: 0 <= j < |ps| ==> ps[j] == j
  {
    seq(|ChartGrid|, j => j)
  }

  /** The chart of grid position `j`, none off the grid. */
  function SliceOf(data: seq<Record>): int -> Option<ThreadChart> {
    (j: int) => if 0 <= j < |ChartGrid| then SliceAt(data, j) else None
  }

  /** True when grid position `j` has records and so gets a chart. */
  function HasSlice(data: seq<Record>): int -> bool {
    (j: int) => 0 <= j < |ChartGrid| && SliceAt(data, j).Some?
  }

  /** The grid positions that get a chart, in build order. */
  function Kept(data: seq<Record>): seq<int> {
    Filter(GridPositions(), HasSlice(data))
  }

  /** All per-thread charts, in build order: one for each grid configuration with records,
      none for the others. */
  function WorkloadAnalysisCharts(data: seq<Record>): (charts: seq<ThreadChart>)
    ensures |charts| == |Kept(data)|
    ensures forall i :: 0 <= i < |charts| ==>
      0 <= Kept(data)[i] < |ChartGrid| && SliceAt(data, Kept(data)[i]) == Some(charts[i])
    ensures forall i :: 0 <= i < |charts| ==> |charts[i].records| > 0
  {
    KeptCharts(data);
    Somes(Map(GridPositions(), SliceOf(data)))
  }

  /** The kept charts line up with the kept grid positions. */
  lemma KeptCharts(data: seq<Record>)
    ensures |Somes(Map(GridPositions(), SliceOf(data)))| == |Kept(data)|
    ensures forall i :: 0 <= i < |Kept(data)| ==>
      0 <= Kept(data)[i] < |ChartGrid| && SliceAt(data, Kept(data)[i]) == Some(Somes(Map(GridPositions(), SliceOf(data)))[i])
  {
    var ps, f := GridPositions(), SliceOf(data);
    SomesAligned(ps, f);
    FilterCongruent(ps, Yields(f), HasSlice(data));
    var charts, kept := Somes(Map(ps, f)), Kept(data);
    forall i | 0 <= i < |kept|
      ensures 0 <= kept[i] < |ChartGrid| && SliceAt(data, kept[i]) == Some(charts[i])
    {
      assert HasSlice(data)(kept[i]);
      assert f(kept[i]) == Some(charts[i]);
    }
  }

  /** The grid positions that get a chart are exactly those with records, in increasing
      order, so the charts come in grid order. */
  lemma KeptPositions(data: seq<Record>)
    ensures forall j :: 0 <= j < |ChartGrid| ==> (j in Kept(data) <==> SliceAt(data, j).Some?)
    ensures forall a, b :: 0 <= a < b < |Kept(data)| ==> Kept(data)[a] < Kept(data)[b]
  {
    var ps := GridPositions();
    var kept := Kept(data);
    var idx := FilterPicks(ps, HasSlice(data));
    forall a | 0 <= a < |kept|
      ensures kept[a] == idx[a]
    {
      assert kept[a] == ps[idx[a]];
    }
    forall j | 0 <= j < |ChartGrid|
      ensures j in kept <==> SliceAt(data, j).Some?
    {
      assert ps[j] == j;
      assert HasSlice(data)(j) <==> SliceAt(data, j).Some?;
    }
  }
}
