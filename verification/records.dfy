/** One benchmark result: a database run under a workload with a number of client
    threads. Numeric fields are JSON numbers that may be absent; `None` is JavaScript
    `undefined` and Python's missing key. */
module Records {
  import opened Wrappers
  import Seqs

  datatype Record = Record(
    database: string,
    dataStructure: string,
    workload: string,
    threads: int,
    throughput: Option<real>,
    readAvg: Option<real>,
    read95: Option<real>,
    read99: Option<real>,
    scanAvg: Option<real>,
    scan95: Option<real>,
    scan99: Option<real>)

  /** The six latency fields, in microseconds. */
  datatype Metric = ReadAvg | Read95 | Read99 | ScanAvg | Scan95 | Scan99 {
    predicate IsScan() {
      ScanAvg? || Scan95? || Scan99?
    }

    /** Position among average, 95th and 99th percentile. */
    function Rank(): nat {
      if ReadAvg? || ScanAvg? then 0 else if Read95? || Scan95? then 1 else 2
    }
  }

  /** The value of one latency field of a record. */
  function LatencyOf(r: Record, m: Metric): Option<real> {
    match m
    case ReadAvg => r.readAvg
    case Read95 => r.read95
    case Read99 => r.read99
    case ScanAvg => r.scanAvg
    case Scan95 => r.scan95
    case Scan99 => r.scan99
  }

  /** JavaScript `a > b` on numbers that may be `undefined`: any comparison involving
      `undefined` is false. */
  predicate Exceeds(a: Option<real>, b: Option<real>) {
    a.Some? && b.Some? && a.value > b.value
  }

  /** JavaScript truthiness of a number that may be `undefined`. */
  predicate Truthy(v: Option<real>) {
    v.Some? && v.value != 0.0
  }

  /** Python `entry.get('run_throughput_ops_sec', 0)`. */
  function ThroughputOrZero(r: Record): real {
    r.throughput.GetOr(0.0)
  }

  function IsWorkload(w: string): Record -> bool {
    (r: Record) => r.workload == w
  }

  function IsDatabase(db: string): Record -> bool {
    (r: Record) => r.database == db
  }

  function HasThreads(t: int): Record -> bool {
    (r: Record) => r.threads == t
  }

  /** The records of one database under one workload. */
  function OfConfig(db: string, w: string): Record -> bool {
    (r: Record) => r.database == db && r.workload == w
  }

  /** Every database in the data, in first-seen order (`[...new Set(data.map(d => d.database))]`). */
  function Databases(data: seq<Record>): seq<string> {
    Seqs.Distinct(Seqs.Map(data, (r: Record) => r.database))
  }
}
