/** The landing chart: for each workload, one bar per database at that database's best
    thread configuration. */
module Overview {
  import opened Wrappers
  import opened Seqs
  import opened Records
  import Text
  import Catalog

  /** The index `reduce((max, cur) => cur.throughput > max.throughput ? cur : max)` ends on:
      no record beats it, and every record before it is strictly lower or has no throughput,
      so on a tie the earliest record wins. A first record without throughput is never
      replaced, since comparisons with `undefined` are false. */
  function PeakIndex(rs: seq<Record>): (k: nat)
    requires |rs| > 0
    ensures k < |rs|
    ensures forall j :: 0 <= j < |rs| ==> !Exceeds(rs[j].throughput, rs[k].throughput)
    ensures forall j :: 0 <= j < k ==> rs[j].throughput.None? || Exceeds(rs[k].throughput, rs[j].throughput)
    ensures rs[0].throughput.None? ==> k == 0
    ensures rs[0].throughput.Some? ==> rs[k].throughput.Some?
    decreases |rs|
  {
    if |rs| == 1 then 0
    else
      var n := |rs| - 1;
      var k := PeakIndex(rs[..n]);
      assert forall j :: 0 <= j < n ==> rs[..n][j] == rs[j];
      if Exceeds(rs[n].throughput, rs[k].throughput) then n else k
  }

  /** When every record has a throughput, the chosen one has the maximum. */
  lemma PeakIsMaximum(rs: seq<Record>)
    requires |rs| > 0
    requires forall j :: 0 <= j < |rs| ==> rs[j].throughput.Some?
    ensures forall j :: 0 <= j < |rs| ==> rs[j].throughput.value <= rs[PeakIndex(rs)].throughput.value
  {
  }

  /** One bar: the upper-cased database name and the peak throughput. */
  datatype Bar = Bar(tick: string, value: Option<real>)

  /** The bar of one database for one workload, or nothing when the database has no record
      for that workload. */
  function PeakBar(data: seq<Record>, db: string, w: string): (b: Option<Bar>)
    ensures b.None? <==> forall i :: 0 <= i < |data| ==> !OfConfig(db, w)(data[i])
    ensures b.Some? ==> b.value.tick == Text.UpperCase(db)
    ensures b.Some? ==>
      exists i :: 0 <= i < |data| && OfConfig(db, w)(data[i]) && data[i].throughput == b.value.value
    ensures b.Some? ==>
      forall i :: 0 <= i < |data| && OfConfig(db, w)(data[i]) ==> !Exceeds(data[i].throughput, b.value.value)
    ensures b.Some? ==> var points := Filter(data, OfConfig(db, w));
      |points| > 0 && b.value.value == points[PeakIndex(points)].throughput
  {
    var points := Filter(data, OfConfig(db, w));
    if |points| > 0 then
      var best := points[PeakIndex(points)];
      assert best in data;
      Some(Bar(Text.UpperCase(db), best.throughput))
    else
      None
  }

  /** A bar trace: its legend name and the parallel x (labels) and y (values) arrays. */
  datatype BarTrace = BarTrace(name: string, x: seq<string>, y: seq<Option<real>>)

  /** True when `db` has at least one record for workload `w`. */
  function HasBar(data: seq<Record>, w: string): string -> bool {
    (db: string) => PeakBar(data, db, w).Some?
  }

  /** The trace of one workload: bars for the overview databases that have records, in the
      fixed database order. */
  function PeakTrace(data: seq<Record>, w: string): (t: BarTrace)
    ensures t.name == Text.FormatLabel(w)
    ensures |t.x| == |t.y| == |Filter(Catalog.OverviewDatabases, HasBar(data, w))|
    ensures forall i :: 0 <= i < |t.x| ==>
      PeakBar(data, Filter(Catalog.OverviewDatabases, HasBar(data, w))[i], w) == Some(Bar(t.x[i], t.y[i]))
  {
    var f := (db: string) => PeakBar(data, db, w);
    var bars := Somes(Map(Catalog.OverviewDatabases, f));
    SomesAligned(Catalog.OverviewDatabases, f);
    FilterCongruent(Catalog.OverviewDatabases, Yields(f), HasBar(data, w));
    var t := BarTrace(Text.FormatLabel(w), Map(bars, (b: Bar) => b.tick), Map(bars, (b: Bar) => b.value));
    assert forall i :: 0 <= i < |bars| ==> bars[i] == Bar(t.x[i], t.y[i]);
    t
  }

  /** The overview chart: one trace per workload, in the fixed workload order, whether or not
      the workload has any bar. */
  function OverallThroughputChart(data: seq<Record>): (traces: seq<BarTrace>)
    ensures |traces| == |Catalog.Workloads|
    ensures forall i :: 0 <= i < |traces| ==> traces[i] == PeakTrace(data, Catalog.Workloads[i])
  {
    Map(Catalog.Workloads, (w: string) => PeakTrace(data, w))
  }
}
