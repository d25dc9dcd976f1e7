/** The scaling-efficiency charts: per workload, one line per database giving each thread
    count's throughput as a percentage of perfect linear scaling from the single-thread
    run, followed by the flat ideal line. */
module Scalability {
  import opened Wrappers
  import opened Seqs
  import opened Records
  import opened ThreadSort
  import Catalog

  /** `actual / (baseline * threads) * 100`. A missing throughput gives `NaN` and a zero
      denominator a non-finite value; both are modelled as no value. */
  function Efficiency(actual: Option<real>, baseline: real, threads: int): Option<real> {
    var ideal := baseline * threads as real;
    if actual.None? || ideal == 0.0 then None
    else Some(actual.value / ideal * 100.0)
  }

  /** The efficiency is defined exactly when there is a throughput and a nonzero ideal, and
      then it is the percentage the actual throughput is of the ideal one. */
  lemma EfficiencySpec(actual: Option<real>, baseline: real, threads: int)
    ensures Efficiency(actual, baseline, threads).Some? <==> actual.Some? && baseline * threads as real != 0.0
    ensures Efficiency(actual, baseline, threads).Some? ==>
      Efficiency(actual, baseline, threads).value * (baseline * threads as real) == 100.0 * actual.value
  {
    var ideal := baseline * threads as real;
    if actual.Some? && ideal != 0.0 {
      var q := actual.value / ideal;
      assert q * ideal == actual.value;
      assert q * 100.0 * ideal == 100.0 * (q * ideal);
    }
  }

  /** One line of a scalability chart. `legend` is the database of a database line (the
      displayed trace name adds the data structure's display name, which is not modelled)
      and the trace name of the reference line. */
  datatype Line = Line(legend: string, x: seq<int>, y: seq<Option<real>>)

  /** The dashed 100% reference line. */
  const Ideal := Line("Ideal 100% Efficiency", Catalog.ThreadCounts, [Some(100.0), Some(100.0), Some(100.0), Some(100.0)])

  /** The records of `db` under `w`, ascending by thread count. */
  function Points(data: seq<Record>, db: string, w: string): seq<Record> {
    SortByThreads(Filter(data, OfConfig(db, w)))
  }

  /** Reference definition of the baseline: the throughput of the first record of `db`
      under `w` with one thread, in input order. */
  function Baseline(data: seq<Record>, db: string, w: string): Option<real> {
    match Find(Filter(data, OfConfig(db, w)), HasThreads(1))
    case None => None
    case Some(r) => r.throughput
  }

  /** The baseline as the dashboard reads it: the throughput of the first single-thread
      record among the sorted points. */
  function SortedBaseline(dbData: seq<Record>): Option<real> {
    var single := Find(dbData, HasThreads(1));
    if single.Some? then single.value.throughput else None
  }

  /** Searching the sorted points finds the same baseline as searching in input order,
      because the sort is stable. */
  lemma SortedBaselineIsBaseline(data: seq<Record>, db: string, w: string)
    ensures SortedBaseline(Points(data, db, w)) == Baseline(data, db, w)
  {
    FindAfterSort(Filter(data, OfConfig(db, w)), 1);
  }

  /** The line of `db` for workload `w`: none when the database has no single-thread record
      for `w` or its throughput there is missing or zero; otherwise one point per record,
      ascending by thread count, each measured against the baseline. */
  function DatabaseLine(data: seq<Record>, db: string, w: string): (l: Option<Line>)
    ensures l.None? <==> !Truthy(Baseline(data, db, w))
    ensures l.Some? ==> l.value.legend == db
    ensures l.Some? ==> |l.value.x| == |l.value.y| == |Points(data, db, w)|
    ensures l.Some? ==> forall i, j :: 0 <= i < j < |l.value.x| ==> l.value.x[i] <= l.value.x[j]
    ensures l.Some? ==> multiset(l.value.x) == multiset(Map(Filter(data, OfConfig(db, w)), ThreadsOf))
    ensures l.Some? ==> forall i :: 0 <= i < |l.value.y| ==>
      l.value.y[i] == Efficiency(Points(data, db, w)[i].throughput, Baseline(data, db, w).value, l.value.x[i])
  {
    var dbData := Points(data, db, w);
    SortedBaselineIsBaseline(data, db, w);
    if |dbData| == 0 then
      None
    else
      var baseline := SortedBaseline(dbData);
      if !Truthy(baseline) then
        None
      else
        SortProjectionPermutes(Filter(data, OfConfig(db, w)), ThreadsOf, ThreadsOf);
        Some(LineFrom(db, dbData, baseline.value))
  }

  /** The line of a database with a usable baseline: its thread counts and their
      efficiencies. */
  function LineFrom(db: string, dbData: seq<Record>, baseline: real): (l: Line)
    requires SortedByThreads(dbData)
    ensures l.legend == db && l.x == Map(dbData, ThreadsOf)
    ensures |l.x| == |l.y| == |dbData|
    ensures forall i, j :: 0 <= i < j < |l.x| ==> l.x[i] <= l.x[j]
    ensures forall i :: 0 <= i < |l.y| ==> l.y[i] == Efficiency(dbData[i].throughput, baseline, l.x[i])
  {
    Line(db, Map(dbData, ThreadsOf), Efficiencies(dbData, baseline))
  }

  /** One efficiency per point. */
  function Efficiencies(dbData: seq<Record>, baseline: real): (y: seq<Option<real>>)
    ensures |y| == |dbData|
    ensures forall i :: 0 <= i < |y| ==> y[i] == Efficiency(dbData[i].throughput, baseline, dbData[i].threads)
  {
    Map(dbData, (r: Record) => Efficiency(r.throughput, baseline, r.threads))
  }

  /** True when `db` gets a line for workload `w`. */
  function Included(data: seq<Record>, w: string): string -> bool {
    (db: string) => Truthy(Baseline(data, db, w))
  }

  /** The lines of one workload's chart: the included databases in first-seen order, then
      the ideal line. */
  function ScalabilityLines(data: seq<Record>, w: string): (lines: seq<Line>)
    ensures |lines| == |Filter(Databases(data), Included(data, w))| + 1
    ensures lines[|lines| - 1] == Ideal
    ensures Map(lines[..|lines| - 1], (l: Line) => l.legend) == Filter(Databases(data), Included(data, w))
    ensures forall i :: 0 <= i < |lines| - 1 ==> DatabaseLine(data, lines[i].legend, w) == Some(lines[i])
  {
    var dbs := Databases(data);
    var f := (db: string) => DatabaseLine(data, db, w);
    var kept := Somes(Map(dbs, f));
    SomesKeyed(dbs, f, (l: Line) => l.legend);
    FilterCongruent(dbs, Yields(f), Included(data, w));
    var lines := kept + [Ideal];
    assert lines[..|lines| - 1] == kept;
    KeptLines(data, w, dbs);
    assert forall i :: 0 <= i < |kept| ==> kept[i] in kept;
    lines
  }

  /** A kept line is the line of the database in its legend. */
  lemma KeptLines(data: seq<Record>, w: string, dbs: seq<string>)
    ensures forall l: Line :: l in Somes(Map(dbs, (db: string) => DatabaseLine(data, db, w))) ==>
      DatabaseLine(data, l.legend, w) == Some(l)
  {
    var m := Map(dbs, (db: string) => DatabaseLine(data, db, w));
    forall l: Line | l in Somes(m)
      ensures DatabaseLine(data, l.legend, w) == Some(l)
    {
      assert Some(l) in m;
      var j :| 0 <= j < |m| && m[j] == Some(l);
    }
  }

  /** The baseline record's own point is exactly 100%: the point at the first
      single-thread position of the sorted points has one thread and efficiency 100. */
  lemma BaselinePointIsHundred(data: seq<Record>, db: string, w: string)
    ensures DatabaseLine(data, db, w).Some? ==> var l := DatabaseLine(data, db, w).value;
      forall i :: IsFirst(Points(data, db, w), HasThreads(1), i) ==> l.x[i] == 1 && l.y[i] == Some(100.0)
    ensures DatabaseLine(data, db, w).Some? ==> exists i :: IsFirst(Points(data, db, w), HasThreads(1), i)
  {
    if DatabaseLine(data, db, w).Some? {
      var l := DatabaseLine(data, db, w).value;
      var dbData := Points(data, db, w);
      SortedBaselineIsBaseline(data, db, w);
      var b := Baseline(data, db, w).value;
      var first := FindPosition(dbData, HasThreads(1));
      forall i | IsFirst(dbData, HasThreads(1), i)
        ensures l.x[i] == 1 && l.y[i] == Some(100.0)
      {
        FindIsFirst(dbData, HasThreads(1), i);
        assert dbData[i].throughput == Some(b);
        assert l.x[i] == 1;
        SelfEfficiency(b);
        assert l.y[i] == Efficiency(Some(b), b, 1);
      }
    }
  }

  /** A single-thread throughput measured against itself is 100%. */
  lemma SelfEfficiency(b: real)
    requires b != 0.0
    ensures Efficiency(Some(b), b, 1) == Some(100.0)
  {
    assert b * 1 as real == b;
    assert b / b == 1.0;
  }

  /** The scalability section: one chart per workload, in the fixed workload order. */
  function ScalabilityCharts(data: seq<Record>): (charts: seq<seq<Line>>)
    ensures |charts| == |Catalog.Workloads|
    ensures forall i :: 0 <= i < |charts| ==> charts[i] == ScalabilityLines(data, Catalog.Workloads[i])
  {
    Map(Catalog.Workloads, (w: string) => ScalabilityLines(data, w))
  }
}
