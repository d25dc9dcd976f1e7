/** The fixed lists the dashboard iterates over, in the order it iterates them. */
module Catalog {

  /** Databases shown in the peak-throughput overview. */
  const OverviewDatabases: seq<string> := ["redis", "memcached", "mongodb", "rocksdb"]

  /** Workloads in the order of the overview, scalability and latency charts, and of the
      backend's best-performer table. */
  const Workloads: seq<string> := ["balanced", "read_heavy", "write_heavy", "range_query"]

  /** Workload name and the key its chart element ids start with, in the key order of the
      mapping the comparison and per-thread charts iterate. */
  const ElementKeys: seq<(string, string)> := [
    ("read_heavy", "readHeavy"),
    ("write_heavy", "writeHeavy"),
    ("balanced", "balanced"),
    ("range_query", "rangeQuery")
  ]

  /** Thread counts with a per-thread bar chart. */
  const ThreadCounts: seq<int> := [1, 4, 8, 16]

  /** The workload whose latency is measured on scans. */
  const RangeQuery: string := "range_query"
}
