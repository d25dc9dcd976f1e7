/** The per-workload line charts of throughput against thread count, one line per
    database. */
module Comparison {
  import opened Wrappers
  import opened Seqs
  import opened Records
  import opened ThreadSort
  import Text
  import Catalog

  /** One database's line: its records, ascending by thread count. */
  datatype Series = Series(database: string, points: seq<Record>) {
    /** The x array: thread counts. */
    function X(): seq<int> {
      Map(points, (r: Record) => r.threads)
    }

    /** The y array: throughputs. */
    function Y(): seq<Option<real>> {
      Map(points, (r: Record) => r.throughput)
    }
  }

  /** The line of `db` within a workload's records; the guard for an empty group never fires,
      since every listed database has a record. */
  function SeriesFor(workloadData: seq<Record>, db: string): Option<Series> {
    var dbData := Filter(workloadData, IsDatabase(db));
    if |dbData| == 0 then None else Some(Series(db, SortByThreads(dbData)))
  }

  /** The databases of a workload in first-seen order. */
  function WorkloadDatabases(data: seq<Record>, w: string): seq<string> {
    Distinct(Map(Filter(data, IsWorkload(w)), (r: Record) => r.database))
  }

  /** `line` holds exactly the records of `line.database` under workload `w`, ascending by
      thread count, with equal thread counts in input order. */
  ghost predicate IsLineOf(data: seq<Record>, w: string, line: Series) {
    && SortedByThreads(line.points)
    && multiset(line.points) == multiset(Filter(data, OfConfig(line.database, w)))
    && forall t :: Filter(line.points, HasThreads(t)) == Filter(Filter(data, OfConfig(line.database, w)), HasThreads(t))
  }

  /** A listed database always gets its line. */
  lemma SeriesForListed(data: seq<Record>, w: string, db: string)
    requires db in WorkloadDatabases(data, w)
    ensures SeriesFor(Filter(data, IsWorkload(w)), db).Some?
    ensures SeriesFor(Filter(data, IsWorkload(w)), db).value.database == db
    ensures IsLineOf(data, w, SeriesFor(Filter(data, IsWorkload(w)), db).value)
  {
    var workloadData := Filter(data, IsWorkload(w));
    var names := Map(workloadData, (r: Record) => r.database);
    var j :| 0 <= j < |names| && names[j] == db;
    assert IsDatabase(db)(workloadData[j]);
    assert workloadData[j] in Filter(workloadData, IsDatabase(db));
    SameConfig(data, db, w);
    forall t
      ensures Filter(SortByThreads(Filter(workloadData, IsDatabase(db))), HasThreads(t))
           == Filter(Filter(data, OfConfig(db, w)), HasThreads(t))
    {
      SortByThreadsStable(Filter(workloadData, IsDatabase(db)), t);
    }
  }

  /** The lines of workload `w`: one per database with records for `w`, in first-seen order,
      each holding exactly that database's records for `w` (see `IsLineOf`). */
  function ComparisonSeries(data: seq<Record>, w: string): (series: seq<Series>)
    ensures |series| == |WorkloadDatabases(data, w)|
    ensures forall i :: 0 <= i < |series| ==> series[i].database == WorkloadDatabases(data, w)[i]
    ensures forall i :: 0 <= i < |series| ==> IsLineOf(data, w, series[i])
  {
    var workloadData := Filter(data, IsWorkload(w));
    var dbs := WorkloadDatabases(data, w);
    var lines := Map(dbs, (db: string) => SeriesFor(workloadData, db));
    forall i | 0 <= i < |dbs|
      ensures lines[i].Some? && lines[i].value.database == dbs[i] && IsLineOf(data, w, lines[i].value)
    {
      SeriesForListed(data, w, dbs[i]);
    }
    SomesAllPresent(lines);
    Somes(lines)
  }

  /** Filtering by workload and then by database selects the records of that configuration. */
  lemma SameConfig(data: seq<Record>, db: string, w: string)
    ensures Filter(Filter(data, IsWorkload(w)), IsDatabase(db)) == Filter(data, OfConfig(db, w))
  {
    FilterFilter(data, IsWorkload(w), IsDatabase(db));
    FilterCongruent(data, And(IsWorkload(w), IsDatabase(db)), OfConfig(db, w));
  }

  /** The x and y arrays of a line have one entry per point, and x is ascending. */
  lemma SeriesArrays(s: Series)
    requires SortedByThreads(s.points)
    ensures |s.X()| == |s.Y()| == |s.points|
    ensures forall i, j :: 0 <= i < j < |s.X()| ==> s.X()[i] <= s.X()[j]
  {
  }

  /** One comparison chart: element id, title and lines. */
  datatype ComparisonChart = ComparisonChart(id: string, title: string, series: seq<Series>)

  /** The comparison chart of one workload. */
  function ComparisonChartFor(data: seq<Record>, w: string, key: string): (c: ComparisonChart)
    ensures c.id == key + "Comparison"
    ensures c.title == Text.FormatLabel(w) + " Workload Thread Scaling"
    ensures c.series == ComparisonSeries(data, w)
    ensures |c.series| == |WorkloadDatabases(data, w)|
    ensures forall i :: 0 <= i < |c.series| ==>
      c.series[i].database == WorkloadDatabases(data, w)[i] && IsLineOf(data, w, c.series[i])
  {
    ComparisonChart(key + "Comparison", Text.FormatLabel(w) + " Workload Thread Scaling", ComparisonSeries(data, w))
  }

  /** All comparison charts, in the key order of the element-id mapping. */
  function ComparisonCharts(data: seq<Record>): (charts: seq<ComparisonChart>)
    ensures |charts| == |Catalog.ElementKeys|
    ensures forall i :: 0 <= i < |charts| ==>
      charts[i] == ComparisonChartFor(data, Catalog.ElementKeys[i].0, Catalog.ElementKeys[i].1)
  {
    Map(Catalog.ElementKeys, (e: (string, string)) => ComparisonChartFor(data, e.0, e.1))
  }

  /** The database list is duplicate-free, in first-seen order, and lists exactly the
      databases with a record for the workload. */
  lemma WorkloadDatabasesFirstSeen(data: seq<Record>, w: string)
    ensures NoDup(WorkloadDatabases(data, w))
    ensures forall i :: 0 <= i < |data| && data[i].workload == w ==> data[i].database in WorkloadDatabases(data, w)
    ensures forall db :: db in WorkloadDatabases(data, w) ==>
      exists i :: 0 <= i < |data| && data[i].workload == w && data[i].database == db
    ensures var names := Map(Filter(data, IsWorkload(w)), (r: Record) => r.database);
      forall i, j :: 0 <= i < j < |WorkloadDatabases(data, w)| ==>
        FirstIndex(names, WorkloadDatabases(data, w)[i]) < FirstIndex(names, WorkloadDatabases(data, w)[j])
  {
    var wd := Filter(data, IsWorkload(w));
    var names := Map(wd, (r: Record) => r.database);
    DistinctFirstSeenOrder(names);
    forall i | 0 <= i < |data| && data[i].workload == w
      ensures data[i].database in WorkloadDatabases(data, w)
    {
      assert IsWorkload(w)(data[i]);
      var j :| 0 <= j < |wd| && wd[j] == data[i];
      assert names[j] == data[i].database;
    }
    forall db | db in WorkloadDatabases(data, w)
      ensures exists i :: 0 <= i < |data| && data[i].workload == w && data[i].database == db
    {
      var j :| 0 <= j < |names| && names[j] == db;
      assert wd[j] in data && IsWorkload(w)(wd[j]);
      var i :| 0 <= i < |data| && data[i] == wd[j];
    }
  }
}
