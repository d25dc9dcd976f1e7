/** The latency charts: per workload, three bar traces (average, 95th and 99th percentile)
    with one bar per database. Range queries are measured on the scan fields, every other
    workload on the read fields. */
module Latency {
  import opened Wrappers
  import opened Seqs
  import opened Records
  import Catalog

  /** The three latency fields charted for workload `w`, in percentile order. */
  function MetricsFor(w: string): (ms: seq<Metric>)
    ensures |ms| == 3
    ensures forall i :: 0 <= i < |ms| ==> (ms[i].IsScan() <==> w == Catalog.RangeQuery)
    ensures forall i :: 0 <= i < |ms| ==> ms[i].Rank() == i
  {
    if w == Catalog.RangeQuery then [ScanAvg, Scan95, Scan99] else [ReadAvg, Read95, Read99]
  }

  /** The legend names of the three traces. */
  const MetricNames: seq<string> := ["Average", "95th Percentile", "99th Percentile"]

  /** The preferred record: `db` under `w` at eight threads. */
  function AtEight(db: string, w: string): Record -> bool {
    (r: Record) => r.database == db && r.workload == w && r.threads == 8
  }

  /** A fallback record: `db` under `w` with a positive value of `m`. */
  function PositiveIn(db: string, w: string, m: Metric): Record -> bool {
    (r: Record) => r.database == db && r.workload == w && LatencyOf(r, m).Some? && LatencyOf(r, m).value > 0.0
  }

  /** The bar of `db` for metric `m` under workload `w`: the first eight-thread record's value
      if it is nonzero, otherwise the first positive value of any record of that database
      and workload, otherwise 0. */
  function LatencyValue(data: seq<Record>, db: string, w: string, m: Metric): real {
    var preferred := Find(data, AtEight(db, w));
    var chosen :=
      if preferred.Some? && Truthy(LatencyOf(preferred.value, m)) then preferred
      else Find(data, PositiveIn(db, w, m));
    if chosen.Some? && Truthy(LatencyOf(chosen.value, m)) then LatencyOf(chosen.value, m).value else 0.0
  }

  /** No eight-thread record of `db` under `w` comes first with a nonzero value of `m`. */
  ghost predicate PreferredFalsy(data: seq<Record>, db: string, w: string, m: Metric) {
    forall p :: IsFirst(data, AtEight(db, w), p) ==> !Truthy(LatencyOf(data[p], m))
  }

  /** The selection rule, stated by positions in the input: the first eight-thread record
      wins when its value is nonzero; otherwise the first record with a positive value; the
      bar is 0 exactly when neither exists. */
  lemma LatencyValueSpec(data: seq<Record>, db: string, w: string, m: Metric)
    ensures forall p :: IsFirst(data, AtEight(db, w), p) && Truthy(LatencyOf(data[p], m)) ==>
      LatencyValue(data, db, w, m) == LatencyOf(data[p], m).value
    ensures PreferredFalsy(data, db, w, m) ==> forall q :: IsFirst(data, PositiveIn(db, w, m), q) ==>
      LatencyValue(data, db, w, m) == LatencyOf(data[q], m).value
    ensures LatencyValue(data, db, w, m) == 0.0 <==>
      PreferredFalsy(data, db, w, m) && forall i :: 0 <= i < |data| ==> !PositiveIn(db, w, m)(data[i])
  {
    forall p | IsFirst(data, AtEight(db, w), p)
      ensures Find(data, AtEight(db, w)) == Some(data[p])
    {
      FindIsFirst(data, AtEight(db, w), p);
    }
    if PreferredFalsy(data, db, w, m) {
      PreferredFalsyFallsBack(data, db, w, m);
      forall q | IsFirst(data, PositiveIn(db, w, m), q)
        ensures Find(data, PositiveIn(db, w, m)) == Some(data[q])
      {
        FindIsFirst(data, PositiveIn(db, w, m), q);
      }
    } else {
      var p :| IsFirst(data, AtEight(db, w), p) && Truthy(LatencyOf(data[p], m));
      FindIsFirst(data, AtEight(db, w), p);
    }
  }

  /** When the preferred record is missing or falsy, the bar is the fallback's value, or 0
      when there is no fallback. */
  lemma PreferredFalsyFallsBack(data: seq<Record>, db: string, w: string, m: Metric)
    requires PreferredFalsy(data, db, w, m)
    ensures var fallback := Find(data, PositiveIn(db, w, m));
      LatencyValue(data, db, w, m) == if fallback.Some? then LatencyOf(fallback.value, m).value else 0.0
    ensures Find(data, PositiveIn(db, w, m)).Some? ==> LatencyValue(data, db, w, m) != 0.0
  {
    var preferred := Find(data, AtEight(db, w));
    if preferred.Some? {
      var p := FindPosition(data, AtEight(db, w));
      assert !Truthy(LatencyOf(preferred.value, m));
    }
  }

  /** A nonzero bar is the value of a record of that database and workload. */
  lemma LatencyValueFromRecord(data: seq<Record>, db: string, w: string, m: Metric)
    requires LatencyValue(data, db, w, m) != 0.0
    ensures exists i ::
      0 <= i < |data| && data[i].database == db && data[i].workload == w && LatencyOf(data[i], m) == Some(LatencyValue(data, db, w, m))
  {
    var preferred := Find(data, AtEight(db, w));
    if preferred.Some? && Truthy(LatencyOf(preferred.value, m)) {
      var p := FindPosition(data, AtEight(db, w));
    } else {
      var q := FindPosition(data, PositiveIn(db, w, m));
    }
  }

  /** One latency trace: legend name, databases and their bars. */
  datatype Bars = Bars(name: string, x: seq<string>, y: seq<real>)

  /** The three traces of workload `w`, each with one bar per database in first-seen order. */
  function LatencyTraces(data: seq<Record>, w: string): (traces: seq<Bars>)
    ensures |traces| == 3
    ensures forall i :: 0 <= i < 3 ==> traces[i].name == MetricNames[i]
    ensures forall i :: 0 <= i < 3 ==> traces[i].x == Databases(data) && |traces[i].y| == |traces[i].x|
    ensures forall i, j :: 0 <= i < 3 && 0 <= j < |traces[i].y| ==>
      traces[i].y[j] == LatencyValue(data, traces[i].x[j], w, MetricsFor(w)[i])
  {
    var dbs := Databases(data);
    var ms := MetricsFor(w);
    seq(3, i requires 0 <= i < 3 =>
      Bars(MetricNames[i], dbs, Map(dbs, (db: string) => LatencyValue(data, db, w, ms[i]))))
  }

  /** The latency section: one chart per workload, in the fixed workload order. */
  function LatencyCharts(data: seq<Record>): (charts: seq<seq<Bars>>)
    ensures |charts| == |Catalog.Workloads|
    ensures forall i :: 0 <= i < |charts| ==> charts[i] == LatencyTraces(data, Catalog.Workloads[i])
  {
    Map(Catalog.Workloads, (w: string) => LatencyTraces(data, w))
  }
}
