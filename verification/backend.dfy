/** The server's aggregation routes: the best performer per workload, the throughput matrix,
    the per-database, per-workload scalability lists and the single-workload filter. The
    document read from disk is `None` when it is missing or empty (falsy in Python). */
module Backend {
  import opened Wrappers
  import opened Seqs
  import opened Records
  import opened ThreadSort
  import StringOrder
  import Heatmap
  import Catalog

  /** The error text of every route when there is no document. */
  const NoDataFound := "No data found."

  /** A best performer: database and data structure of the winning record, and its
      throughput; both names are absent when no record beat the initial 0. */
  datatype Best = Best(database: Option<string>, dataStructure: Option<string>, throughput: real)

  /** One pass over the records keeping the running best for workload `w`: a record replaces
      the current best only when its throughput (0 when missing) is strictly greater. */
  function BestFor(data: seq<Record>, w: string): (b: Best)
    ensures b.throughput >= 0.0
    ensures b.database.None? <==> b.dataStructure.None?
    ensures forall i :: 0 <= i < |data| && data[i].workload == w ==> ThroughputOrZero(data[i]) <= b.throughput
    ensures b.database.None? <==> forall i :: 0 <= i < |data| && data[i].workload == w ==> ThroughputOrZero(data[i]) <= 0.0
    ensures b.database.None? ==> b.throughput == 0.0
    ensures b.database.Some? ==> exists i :: 0 <= i < |data| && IsWinner(data, w, b, i)
    decreases |data|
  {
    if |data| == 0 then Best(None, None, 0.0)
    else
      var n := |data| - 1;
      var b := BestFor(data[..n], w);
      var e := data[n];
      assert forall j :: 0 <= j < n ==> data[..n][j] == data[j];
      if e.workload == w && ThroughputOrZero(e) > b.throughput then
        var r := Best(Some(e.database), Some(e.dataStructure), ThroughputOrZero(e));
        assert IsWinner(data, w, r, n);
        r
      else
        WinnerExtends(data, data[..n], w, b);
        b
  }

  /** Record `i` is the reported winner: it has workload `w`, it carries the reported names
      and throughput, and every earlier record of `w` is strictly lower, so the first
      strictly maximal record wins. */
  predicate IsWinner(data: seq<Record>, w: string, b: Best, i: int) {
    && 0 <= i < |data|
    && data[i].workload == w
    && b.database == Some(data[i].database)
    && b.dataStructure == Some(data[i].dataStructure)
    && b.throughput == ThroughputOrZero(data[i])
    && forall j :: 0 <= j < i && data[j].workload == w ==> ThroughputOrZero(data[j]) < b.throughput
  }

  /** A winner of a prefix stays the winner of the whole sequence. */
  lemma WinnerExtends(data: seq<Record>, prefix: seq<Record>, w: string, b: Best)
    requires |data| > 0 && prefix == data[..|data| - 1]
    requires b.database.Some? ==> exists i :: 0 <= i < |prefix| && IsWinner(prefix, w, b, i)
    ensures b.database.Some? ==> exists i :: 0 <= i < |data| && IsWinner(data, w, b, i)
  {
    if b.database.Some? {
      var n := |data| - 1;
      var i :| 0 <= i < n && IsWinner(prefix, w, b, i);
      assert forall j :: 0 <= j < n ==> data[..n][j] == data[j];
      assert IsWinner(data, w, b, i);
    }
  }

  /** `process_data_for_charts`, the best-performer part: nothing for a falsy document,
      otherwise an entry for each of the four workloads, present or not in the data. */
  function ProcessDataForCharts(doc: Option<seq<Record>>): (r: Option<map<string, Best>>)
    ensures r.None? <==> doc.None?
    ensures r.Some? ==> r.value.Keys == {"balanced", "read_heavy", "write_heavy", "range_query"}
    ensures r.Some? ==> forall w :: w in r.value ==> r.value[w] == BestFor(doc.value, w)
  {
    match doc
    case None => None
    case Some(data) => Some(map w | w in Catalog.Workloads :: BestFor(data, w))
  }

  /** The body of the throughput route. */
  datatype ThroughputView = ThroughputView(matrix: map<string, map<string, real>>, workloads: seq<string>, databases: seq<string>)

  /** The matrix as the route returns it: the throughput of each cell's record, 0 when the
      record has none. */
  function ThroughputMatrix(cells: Heatmap.Matrix): map<string, map<string, real>> {
    map k | k in cells :: map w | w in cells[k] :: ThroughputOrZero(cells[k][w])
  }

  /** `m` has a row for each row key that occurs, in it a cell for each workload written
      under that key, and in each cell the throughput (0 when missing) of the last record
      written there. */
  ghost predicate IsThroughputMatrix(data: seq<Record>, m: map<string, map<string, real>>) {
    && (forall k :: k in m <==> exists i :: 0 <= i < |data| && Heatmap.RowKey(data[i]) == k)
    && (forall k, w :: k in m ==> (w in m[k] <==> Heatmap.LastMatch(data, k, w).Some?))
    && forall k, w :: k in m && w in m[k] ==> m[k][w] == ThroughputOrZero(Heatmap.LastMatch(data, k, w).value)
  }

  /** `dbs` is the sorted, duplicate-free list of the database names that occur in `data`. */
  ghost predicate IsDatabaseAxis(data: seq<Record>, dbs: seq<string>) {
    && StringOrder.Sorted(dbs) && NoDup(dbs)
    && forall db :: db in dbs <==> exists i :: 0 <= i < |data| && data[i].database == db
  }

  /** The matrix the route builds is the throughput matrix of the records. */
  lemma ThroughputMatrixCells(data: seq<Record>)
    ensures IsThroughputMatrix(data, ThroughputMatrix(Heatmap.Cells(data)))
  {
    var cells := Heatmap.Cells(data);
    Heatmap.CellsAreLastMatch(data);
    Heatmap.CellsRows(data);
    InMap(data, Heatmap.RowKey);
    forall k, w | k in cells
      ensures w in cells[k] <==> Heatmap.LastMatch(data, k, w).Some?
      ensures w in cells[k] ==> cells[k][w] == Heatmap.LastMatch(data, k, w).value
    {
      assert Heatmap.CellOf(cells, k, w) == Heatmap.LastMatch(data, k, w);
    }
  }

  /** `get_throughput`: the matrix of last-written throughputs (0 when missing) keyed by
      row key and workload, and the sorted, duplicate-free workloads and database names. */
  function GetThroughput(doc: Option<seq<Record>>): (r: Result<ThroughputView, string>)
    ensures r.Err? <==> doc.None?
    ensures r.Err? ==> r.error == NoDataFound
    ensures r.Ok? ==> IsThroughputMatrix(doc.value, r.value.matrix)
    ensures r.Ok? ==> Heatmap.IsColumnAxis(doc.value, r.value.workloads)
    ensures r.Ok? ==> IsDatabaseAxis(doc.value, r.value.databases)
  {
    match doc
    case None => Err(NoDataFound)
    case Some(data) =>
      ThroughputMatrixCells(data);
      var names := Map(data, (e: Record) => e.workload);
      var dbs := Map(data, (e: Record) => e.database);
      InMap(data, (e: Record) => e.workload);
      InMap(data, (e: Record) => e.database);
      Ok(ThroughputView(ThroughputMatrix(Heatmap.Cells(data)), StringOrder.SortedSet(names), StringOrder.SortedSet(dbs)))
  }

  /** Database, then workload, to the records appended under them. */
  type Groups = map<string, map<string, seq<Record>>>

  /** The grouping pass of `get_scalability`: each record is appended to the list of its
      database and workload. */
  function Group(data: seq<Record>): Groups
    decreases |data|
  {
    if |data| == 0 then map[]
    else Append(Group(data[..|data| - 1]), data[|data| - 1])
  }

  /** `scalability_data[db][workload].append(...)` on a nested default dictionary. */
  function Append(g: Groups, e: Record): Groups {
    var row := if e.database in g then g[e.database] else map[];
    g[e.database := row[e.workload := ListOf(g, e.database, e.workload) + [e]]]
  }

  /** Appending a record extends exactly the list of its own configuration. */
  lemma AppendList(g: Groups, e: Record, db: string, w: string)
    ensures ListOf(Append(g, e), db, w) == ListOf(g, db, w) + (if OfConfig(db, w)(e) then [e] else [])
    ensures db in Append(g, e) && w in Append(g, e)[db] ==>
      (db in g && w in g[db]) || OfConfig(db, w)(e)
  {
  }

  /** The list a grouping holds for a database and workload, empty when it holds none. */
  function ListOf(g: Groups, db: string, w: string): seq<Record> {
    if db in g && w in g[db] then g[db][w] else []
  }

  /** The grouping has a row for a database exactly when the database occurs. */
  lemma {:induction false} GroupRows(data: seq<Record>, db: string)
    ensures db in Group(data) <==> exists i :: 0 <= i < |data| && data[i].database == db
    decreases |data|
  {
    if |data| > 0 {
      var n := |data| - 1;
      GroupRows(data[..n], db);
      assert forall i :: 0 <= i < n ==> data[..n][i] == data[i];
    }
  }

  /** Every list of the grouping is its configuration's records in input order, and no list
      is empty. */
  lemma {:induction false} GroupLists(data: seq<Record>, db: string, w: string)
    ensures ListOf(Group(data), db, w) == Filter(data, OfConfig(db, w))
    ensures db in Group(data) && w in Group(data)[db] ==> Group(data)[db][w] != []
    decreases |data|
  {
    if |data| > 0 {
      var n := |data| - 1;
      var prefix := data[..n];
      GroupLists(prefix, db, w);
      AppendList(Group(prefix), data[n], db, w);
      assert data == prefix + [data[n]];
      FilterConcat(prefix, [data[n]], OfConfig(db, w));
    }
  }

  /** For one database and workload: the grouping has a row for the database exactly when
      it occurs, and in that row a list for the workload exactly when the configuration
      occurs, holding that configuration's records in input order. */
  lemma GroupAt(data: seq<Record>, db: string, w: string)
    ensures db in Group(data) <==> exists i :: 0 <= i < |data| && data[i].database == db
    ensures db in Group(data) ==> (w in Group(data)[db] <==> Filter(data, OfConfig(db, w)) != [])
    ensures db in Group(data) && w in Group(data)[db] ==> Group(data)[db][w] == Filter(data, OfConfig(db, w))
  {
    GroupRows(data, db);
    GroupLists(data, db, w);
  }

  /** `g` has a row for each database that occurs, in it a list for each workload that
      occurs with that database, holding that configuration's records in input order. */
  ghost predicate IsGrouping(data: seq<Record>, g: Groups) {
    && (forall db :: db in g <==> exists i :: 0 <= i < |data| && data[i].database == db)
    && (forall db, w :: db in g ==> (w in g[db] <==> exists i :: 0 <= i < |data| && OfConfig(db, w)(data[i])))
    && forall db, w :: db in g && w in g[db] ==> g[db][w] == Filter(data, OfConfig(db, w))
  }

  /** `GroupAt` for every database and workload, with occurrence stated by position. */
  lemma GroupIsFilter(data: seq<Record>)
    ensures IsGrouping(data, Group(data))
  {
    forall db
      ensures db in Group(data) <==> exists i :: 0 <= i < |data| && data[i].database == db
    {
      GroupAt(data, db, "");
    }
    forall db, w | db in Group(data)
      ensures w in Group(data)[db] <==> exists i :: 0 <= i < |data| && OfConfig(db, w)(data[i])
    {
      GroupAt(data, db, w);
      NonEmptyFilter(data, OfConfig(db, w));
    }
    forall db, w | db in Group(data) && w in Group(data)[db]
      ensures Group(data)[db][w] == Filter(data, OfConfig(db, w))
    {
      GroupAt(data, db, w);
    }
  }

  /** One entry of a scalability list. */
  datatype Point = Point(threads: int, throughput: real, dataStructure: string)

  function ToPoint(e: Record): Point {
    Point(e.threads, ThroughputOrZero(e), e.dataStructure)
  }

  function PointThreads(p: Point): int {
    p.threads
  }

  /** The body of the scalability route. */
  type ScalabilityView = map<string, map<string, seq<Point>>>

  /** Every group's entries as points, sorted by thread count. */
  function SortGroups(g: Groups): ScalabilityView {
    map db | db in g :: map w | w in g[db] :: SortBy(Map(g[db][w], ToPoint), PointThreads)
  }

  /** `v` has a row for each database that occurs, in it a list for each workload that
      occurs with that database, holding that configuration's records sorted by thread count
      and projected to points. */
  ghost predicate IsScalabilityView(data: seq<Record>, v: ScalabilityView) {
    && (forall db :: db in v <==> exists i :: 0 <= i < |data| && data[i].database == db)
    && (forall db, w :: db in v ==> (w in v[db] <==> exists i :: 0 <= i < |data| && OfConfig(db, w)(data[i])))
    && forall db, w :: db in v && w in v[db] ==> v[db][w] == Map(SortByThreads(Filter(data, OfConfig(db, w))), ToPoint)
  }

  /** Sorting the groups gives the scalability view of the records. */
  lemma SortGroupsOfData(data: seq<Record>)
    ensures IsScalabilityView(data, SortGroups(Group(data)))
  {
    var g := Group(data);
    var v := SortGroups(g);
    GroupIsFilter(data);
    assert v.Keys == g.Keys;
    forall db | db in g
      ensures v[db].Keys == g[db].Keys
    {
    }
    forall db, w | db in g && w in g[db]
      ensures v[db][w] == Map(SortByThreads(Filter(data, OfConfig(db, w))), ToPoint)
    {
      SortMapCommutes(g[db][w], ToPoint, ThreadsOf, PointThreads);
    }
  }

  /** `get_scalability`: every group's entries, sorted by thread count. */
  function GetScalability(doc: Option<seq<Record>>): (r: Result<ScalabilityView, string>)
    ensures r.Err? <==> doc.None?
    ensures r.Err? ==> r.error == NoDataFound
    ensures r.Ok? ==> IsScalabilityView(doc.value, r.value)
  {
    match doc
    case None => Err(NoDataFound)
    case Some(data) =>
      SortGroupsOfData(data);
      Ok(SortGroups(Group(data)))
  }

  /** Each scalability list is ascending by thread count and a permutation of the points of
      its configuration's records. */
  lemma ScalabilityListsSorted(data: seq<Record>, db: string, w: string)
    ensures var v := GetScalability(Some(data)).value;
      db in v && w in v[db] ==>
        && SortedBy(v[db][w], PointThreads)
        && multiset(v[db][w]) == multiset(Map(Filter(data, OfConfig(db, w)), ToPoint))
  {
    var s := Filter(data, OfConfig(db, w));
    SortProjectionPermutes(s, ThreadsOf, ToPoint);
    MapKeepsSorted(SortByThreads(s), ToPoint, ThreadsOf, PointThreads);
  }

  /** `get_workload_analysis`: the entries of the named workload in input order, or an error
      when there are none. */
  function GetWorkloadAnalysis(doc: Option<seq<Record>>, name: string): (r: Result<seq<Record>, string>)
    ensures doc.None? ==> r == Err(NoDataFound)
    ensures doc.Some? ==>
      (r.Err? <==> forall i :: 0 <= i < |doc.value| ==> doc.value[i].workload != name)
    ensures doc.Some? && r.Err? ==> r.error == "No data found for workload " + name
    ensures r.Ok? ==> |r.value| > 0
    ensures r.Ok? ==> forall i :: 0 <= i < |r.value| ==> r.value[i].workload == name && r.value[i] in doc.value
    ensures r.Ok? ==> forall i :: 0 <= i < |doc.value| && doc.value[i].workload == name ==> doc.value[i] in r.value
    ensures r.Ok? ==> exists idx ::
      PicksAt(r.value, doc.value, idx) && forall i :: 0 <= i < |doc.value| ==> (doc.value[i].workload == name <==> i in idx)
  {
    match doc
    case None => Err(NoDataFound)
    case Some(data) =>
      var matching := Filter(data, IsWorkload(name));
      FilterInOrder(data, IsWorkload(name));
      if |matching| == 0 then
        assert forall i :: 0 <= i < |data| ==> !IsWorkload(name)(data[i]);
        Err("No data found for workload " + name)
      else
        assert IsWorkload(name)(matching[0]) && matching[0] in data;
        Ok(matching)
  }
}
