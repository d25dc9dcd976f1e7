# Benchmark dashboard: record aggregation

This project models the aggregation layer of a key-value-store benchmark dashboard and
proves properties of it. The input is a flat sequence of benchmark records. Each record has
a database, a data structure, a workload, a thread count, a throughput and six latency
fields. The dashboard (`frontend/app.js`) turns the records into chart data:

- the peak bar of each database per workload;
- per-workload lines of throughput against thread count;
- a throughput heatmap;
- per-thread bar slices;
- scaling-efficiency lines;
- latency bars.

It builds each section at most once, guarded by a per-section flag; a build that throws
is retried on the next visit. The server (`backend/app.py`)
computes the best performer per workload, the throughput matrix, the scalability lists and
the single-workload filter.

Modelling conventions:

- Numeric fields are `Option<real>`. `None` is a key missing from the JSON, which is
  `undefined` in JavaScript and a missing key for Python's `get`.
- `Records.Exceeds` is JavaScript `>`, which is false whenever one side is `undefined`.
- `Records.Truthy` is JavaScript truthiness of a number.
- `Records.ThroughputOrZero` is Python's `get(..., 0)`.
- Both programs sort with a stable library sort. It is modelled once as a stable insertion
  sort by an integer key (`ThreadSort.SortBy`).
- String sorting is lexicographic by character (`StringOrder`).
- Every server route first reads a document from disk. That document is
  `Option<seq<Record>>`: `None` stands for a missing file or an empty document (falsy in
  Python), `Some` for the document's `data` list.

Modules, one per file:

| module | file |
|---|---|
| `Wrappers` | wrappers.dfy |
| `Seqs` | seqs.dfy |
| `Text` | text.dfy |
| `StringOrder` | string_order.dfy |
| `Records` | records.dfy |
| `ThreadSort` | thread_sort.dfy |
| `Catalog` | catalog.dfy |
| `Overview` | overview.dfy |
| `Comparison` | comparison.dfy |
| `Heatmap` | heatmap.dfy |
| `WorkloadBars` | workload_bars.dfy |
| `Scalability` | scalability.dfy |
| `Latency` | latency.dfy |
| `Sections` | sections.dfy |
| `Backend` | backend.dfy |

## Model

| member | source | states |
|---|---|---|
| `Seqs.Find` | frontend/app.js:588-590 | `Array.prototype.find`: no result exactly when nothing matches; otherwise the element at the first matching position |
| `Seqs.FindIsFirst` | frontend/app.js:716-721 | the element found is the one at any position that is the first match |
| `Seqs.FindLastSpec` | frontend/app.js:330-336 | the last matching element: none exactly when nothing matches, otherwise a match with no later match |
| `Seqs.FilterPicks` | frontend/app.js:489-491 | `filter` keeps exactly the matching positions, in increasing order |
| `Seqs.Distinct` | frontend/app.js:261 | `[...new Set(xs)]` is duplicate-free and holds exactly the elements of `xs` |
| `Seqs.DistinctFirstSeenOrder` | frontend/app.js:261 | the set's elements come in order of first occurrence |
| `Text.IntToString` | frontend/app.js:331 | the decimal rendering of an integer: digits only, with a leading `-` exactly for negatives |
| `Text.IntToStringInjective` | frontend/app.js:331 | different integers render differently |
| `Text.NatToStringValue` | frontend/app.js:331 | the digits of a rendered natural number read back, left to right, as that number, and only 0 starts with the digit 0 |
| `Text.IntToStringValue` | frontend/app.js:331 | a rendered integer reads back as that integer, and the digits after the sign have no leading zero |
| `Text.ThreadCountStrings` | frontend/app.js:477-479 | an example: the thread counts 1, 4, 8 and 16 render as `1`, `4`, `8` and `16` |
| `Text.ReplaceFirstSpec` | frontend/app.js:183 | `replace("_", " ")` changes only the first underscore and leaves a string without one unchanged |
| `Text.TitleCaseScan` | frontend/app.js:184 | the regex's left-to-right scan, which upper-cases a word character right after a non-word character or at the start, gives the same string as the rule "upper-case exactly the word-initial characters" |
| `Text.TitleCaseIdempotent` | frontend/app.js:184 | title-casing twice gives the same result as once |
| `Text.FormatLabelTwoWords` | frontend/app.js:182-184 | `a_b` with lower-case words becomes `A B` |
| `Text.FormatLabelFirstUnderscoreOnly` | frontend/app.js:182-184 | only the first underscore becomes a space: after a prefix without an underscore, every later underscore is kept |
| `Text.FormatLabelSample` | frontend/app.js:292-296 | an example: `a_b_c` is shown as `A B_c` |
| `StringOrder.LexLeTotal` | frontend/app.js:344-345 | the string order relates every pair of strings |
| `StringOrder.LexLeTransitive` | frontend/app.js:344-345 | the string order is transitive |
| `StringOrder.LexLeAntisymmetric` | frontend/app.js:344-345 | strings ordered both ways are equal |
| `StringOrder.Sort` | backend/app.py:168-169 | the sorted list is ordered, a permutation of its input, and duplicate-free when the input is |
| `StringOrder.SortStrictlyIncreasing` | frontend/app.js:344-345 | a sorted duplicate-free list is strictly increasing |
| `StringOrder.SortedSet` | frontend/app.js:344-345 | the sorted set is ordered, duplicate-free and has exactly the input's elements |
| `ThreadSort.SortBy` | backend/app.py:219 | sorting by key gives an ascending permutation |
| `ThreadSort.SortByStable` | backend/app.py:219 | for every key, the elements with that key keep their input order |
| `ThreadSort.SortMapCommutes` | backend/app.py:210-219 | projecting and then sorting equals sorting and then projecting, when the projection keeps the key |
| `ThreadSort.SortProjectionPermutes` | backend/app.py:217-219 | any projection of the sorted list is a permutation of the same projection of the input |
| `ThreadSort.SortByThreads` | frontend/app.js:268 | records sorted by thread count are ascending and a permutation of the input |
| `ThreadSort.SortByThreadsStable` | frontend/app.js:268 | records with equal thread counts keep their input order |
| `ThreadSort.FindAfterSort` | frontend/app.js:583-590 | the first record with a given thread count is the same before and after the sort |
| `Overview.PeakIndex` | frontend/app.js:198-203 | the reduce ends on a record that no record beats; every earlier record is strictly lower or has no throughput, so ties keep the first; a first record without throughput is never replaced |
| `Overview.PeakIsMaximum` | frontend/app.js:198-203 | when every throughput is present, the chosen one is the maximum |
| `Overview.PeakBar` | frontend/app.js:190-212 | no bar exactly when the database has no record for the workload; otherwise the upper-cased name and the throughput of the record the reduce picks among the matching records in input order, which no matching record beats |
| `Overview.PeakTrace` | frontend/app.js:178-215 | the trace is named by the formatted workload; x and y have one entry per overview database that has a bar, in the fixed database order, and the `i`-th pair is the bar of the `i`-th such database |
| `Overview.OverallThroughputChart` | frontend/app.js:173-216 | one trace per workload, in the fixed workload order |
| `Comparison.SeriesForListed` | frontend/app.js:263-268 | a listed database always gets a line, and it holds that configuration's records, sorted stably |
| `Comparison.ComparisonSeries` | frontend/app.js:256-289 | one line per database of the workload, in first-seen order, each a stably sorted permutation of that database's records for the workload |
| `Comparison.SameConfig` | frontend/app.js:256-264 | filtering by workload and then by database selects exactly the records of that configuration |
| `Comparison.SeriesArrays` | frontend/app.js:272-274 | x and y have one entry per point and x is ascending |
| `Comparison.WorkloadDatabasesFirstSeen` | frontend/app.js:261 | the line list is duplicate-free, has exactly the databases with a record for the workload, and follows first occurrence |
| `Comparison.ComparisonChartFor` | frontend/app.js:246-296 | the element id is the key followed by `Comparison`; the title is the formatted workload followed by ` Workload Thread Scaling`; the lines are one per database of the workload, in first-seen order, each holding exactly that database's records for the workload, stably sorted |
| `Comparison.ComparisonCharts` | frontend/app.js:238-245 | one chart per entry of the workload-to-element mapping, in its order |
| `Heatmap.RowKeyParts` | frontend/app.js:331 | a row key is the database, `_`, digits that read back as the thread count, and a final `t` |
| `Heatmap.RowKeySample` | frontend/app.js:331 | an example: redis at 16 threads is the row `redis_16t` |
| `Heatmap.RowKeyInjective` | frontend/app.js:331 | two records share a row key exactly when they share database and thread count |
| `Heatmap.CellsAreLastMatch` | frontend/app.js:330-336 | every matrix cell holds the last record with that row key and workload |
| `Heatmap.CellsRows` | frontend/app.js:332-334 | the matrix has a row exactly for each row key that occurs |
| `Heatmap.ShownInCells` | frontend/app.js:350 | reading the built matrix gives the last record's throughput, or 0 when there is none |
| `Heatmap.PerformanceHeatmap` | frontend/app.js:343-353 | rows and columns are sorted and duplicate-free, hold exactly the row keys and workloads that occur, and z has one value per row and column, the last-written throughput or 0 |
| `WorkloadBars.ThreadChartId` | frontend/app.js:477-479 | the id is the workload key, the decimal thread count, then `Thread`, with `s` added exactly when the count is not 1; the part between the key and `Thread` reads back as the thread count |
| `WorkloadBars.ThreadChartIdSamples` | frontend/app.js:477-479 | an example: `readHeavy1Thread` and `rangeQuery16Threads` |
| `WorkloadBars.ThreadChartIdInjective` | frontend/app.js:477-479 | under one key, different thread counts give different ids |
| `WorkloadBars.ThreadSlice` | frontend/app.js:489-502 | no chart exactly when no record has the workload and thread count; otherwise the chart shows exactly those records, in input order |
| `WorkloadBars.ThreadChartArrays` | frontend/app.js:501-502 | a per-thread chart has one bar per record, with the record's database on x and its throughput on y |
| `WorkloadBars.ChartGridIsProduct` | frontend/app.js:471-475 | the charts are tried for every workload key and thread count 1, 4, 8, 16, thread counts nested inside keys |
| `WorkloadBars.WorkloadAnalysisCharts` | frontend/app.js:471-500 | one chart per grid configuration that has records, in grid order: the `i`-th chart is the slice of the `i`-th such configuration |
| `WorkloadBars.KeptPositions` | frontend/app.js:471-500 | a grid configuration gets a chart exactly when it has records, and the charted configurations come in increasing grid order |
| `Scalability.EfficiencySpec` | frontend/app.js:595-599 | the efficiency exists exactly when there is a throughput and a nonzero ideal, and then it is the actual throughput as a percentage of the baseline times the thread count |
| `Scalability.SortedBaselineIsBaseline` | frontend/app.js:583-590 | the baseline found among the sorted points is the first single-thread throughput in input order |
| `Scalability.DatabaseLine` | frontend/app.js:580-604 | no line exactly when the single-thread baseline is missing or zero; otherwise x is ascending and a permutation of the configuration's thread counts, and each y is that point's efficiency against the baseline |
| `Scalability.ScalabilityLines` | frontend/app.js:579-629 | the included databases in first-seen order, one line each, then the ideal line last; the count is included databases plus one |
| `Scalability.BaselinePointIsHundred` | frontend/app.js:595-599 | a database with a line has a first single-thread point among its sorted points, and that point (the baseline record's own) has one thread and efficiency exactly 100 |
| `Scalability.ScalabilityCharts` | frontend/app.js:570-629 | one chart per workload, in the fixed workload order |
| `Latency.MetricsFor` | frontend/app.js:697-708 | three fields in percentile order: the scan fields exactly for `range_query`, the read fields otherwise |
| `Latency.LatencyValueSpec` | frontend/app.js:714-735 | the first eight-thread record's value wins when nonzero; otherwise the first positive value of that database and workload; the bar is 0 exactly when neither exists |
| `Latency.LatencyValueFromRecord` | frontend/app.js:714-735 | a nonzero bar is the value of a record of that database and workload |
| `Latency.LatencyTraces` | frontend/app.js:694-737 | three traces named Average, 95th and 99th Percentile, each with one bar per distinct database |
| `Latency.LatencyCharts` | frontend/app.js:687-737 | one chart per workload, in the fixed workload order |
| `Sections.LoadSectionData` | frontend/app.js:92-119 | a no-op when the section is loaded or there is no payload; the flag becomes true only when the builder completes, which the scalability builder never does on a payload without records; other flags, the payload and the banner are unchanged |
| `Sections.LoadData` | frontend/app.js:39-60 | the parsed body is stored; an error payload shows its error and leaves the overview flag unset; a transport failure shows the fixed message; otherwise the overview flag is set |
| `Sections.BuiltAtMostOnce` | frontend/app.js:92-119 | over any sequence of visits a section's builder completes at most once, never for an already loaded section, and a completed section stays loaded |
| `Sections.InitialNothingLoaded` | frontend/app.js:6-15 | at page load no section is loaded |
| `Sections.NoPayloadNoBuild` | frontend/app.js:93-95 | without a payload no visit builds anything or changes the state |
| `Sections.NoDataNoScalability` | frontend/app.js:537-542 | with a stored payload that has no records, no sequence of visits builds or loads the scalability section |
| `Sections.ErrorPayloadNoScalability` | frontend/app.js:39-47 | after the data route answers with an error and no records, the scalability section is never loaded, whatever is visited |
| `Backend.BestFor` | backend/app.py:91-101 | the best throughput is at least 0 and at least every same-workload throughput; the names are absent exactly when no record is positive, and then the throughput is 0; otherwise the winner is the first record with the maximum |
| `Backend.ProcessDataForCharts` | backend/app.py:30-107 | nothing for a falsy document (lines 32-33); otherwise exactly the four workload keys, each with its best performer (lines 90-107) |
| `Backend.ThroughputMatrixCells` | backend/app.py:152-162 | the matrix has a row for each row key that occurs, and each cell holds the last record's throughput, 0 when missing |
| `Backend.GetThroughput` | backend/app.py:141-170 | an error for a falsy document; otherwise the matrix, the workloads and the raw database names, both lists sorted, duplicate-free and exactly those that occur |
| `Backend.AppendList` | backend/app.py:210-214 | appending a record to the nested default dictionary extends only the list of its own database and workload, creating it if needed |
| `Backend.GroupRows` | backend/app.py:203-214 | the grouping has a row for a database exactly when some record has that database |
| `Backend.GroupLists` | backend/app.py:203-214 | every list of the grouping holds its configuration's records in input order, and no list is empty |
| `Backend.GroupAt` | backend/app.py:203-214 | the grouping has a list for a database and workload exactly when that configuration occurs, holding its records in input order |
| `Backend.GroupIsFilter` | backend/app.py:203-214 | the same, for all databases and workloads at once |
| `Backend.GetScalability` | backend/app.py:195-221 | an error for a falsy document; otherwise a list exactly for each configuration that occurs, equal to its records sorted by thread count and projected to points |
| `Backend.ScalabilityListsSorted` | backend/app.py:216-219 | each list is ascending by thread count and a permutation of its configuration's points |
| `Backend.GetWorkloadAnalysis` | backend/app.py:224-235 | an error for a falsy document, an error naming the workload when no entry has it, otherwise exactly the matching entries in input order |

## Left out

- Network, file and DOM I/O are not modelled: `fetch`, `load_synthesized_data`, Flask routing, `jsonify` and HTTP status codes. Neither are element lookups, `showSection`, `showError`'s markup and `Plotly.newPlot`. The document and the fetch outcome are parameters.
- Colours and data-structure display names are not modelled, so trace names built from `dataStructureNames` and marker colours are absent.
- `Comparison.ComparisonCharts`, `WorkloadBars.WorkloadAnalysisCharts` and `Scalability.ScalabilityCharts` describe only data whose data structures all appear in the colour table. For any other data structure that is not an `Object.prototype` property name, `colors[dataStructure]` is `undefined`, and indexing it by database throws (frontend/app.js:279, 284, 506, 608, 613). The builder then stops partway through its charts. `Sections.LoadSectionData` treats that failure as `renders` being false. A database missing under a listed data structure does not throw; it only gives an `undefined` colour.
- `Math.round(...).toLocaleString()` labels are not modelled, so the bar `text` arrays are absent.
- `generateResearchInsights` and `loadDesignAnalysis` are not modelled: their output is fixed text.
- `updateSummaryCards` is not modelled: it only displays the server's best performers.
- The other groupings of `process_data_for_charts` are not modelled, because no route returns them. Neither are the `/api/latency` and `/api/heatmap` routes.
- Records are assumed to follow the schema. A truthy document without a `data` key makes the server raise `KeyError`, an HTTP 500 (backend/app.py:46, 95, 152, 203, 230). So does a record without `database`, `data_structure`, `workload` or `threads` (backend/app.py:47-50, 96, 100-101, 153-155, 204-208, 230). The dashboard reads such a missing field as `undefined`. None of these inputs can be written in the model: `Records.Record` has every such field.
- JSON `null` is not modelled as a value of its own: `None` is a missing key. For throughput the two differ: JavaScript's `>` compares `null` as 0 (frontend/app.js:199), and Python raises on `None > 0` (backend/app.py:98). For latency, `null` behaves like a missing key.
- Thread counts are integers, and a heatmap row key renders them in plain decimal (`Text.IntToString`). The two sides print some JSON numbers differently, and the model covers none of these: a count written as `4.0` is `4` in JavaScript (frontend/app.js:331) but `4.0` in a Python f-string (backend/app.py:158); a count of 10^21 or more is printed in exponent form by JavaScript; and one above 2^53 is rounded by JavaScript's parser. For such counts the frontend and backend row keys differ. Chart ids use only the fixed counts 1, 4, 8 and 16 (frontend/app.js:477-479).
- `Sections.LoadSectionData`, `Heatmap.PerformanceHeatmap`, `Heatmap.CellsAreLastMatch` and `Heatmap.ShownInCells` assume that section, workload and data-structure names are not property names of `Object.prototype` (`toString`, `constructor`, `valueOf`, `__proto__` and the like). The dashboard's `sectionsLoaded` and `matrix[key]` are plain JavaScript objects, and for such names JavaScript differs from the model:
  - a section named `toString` reads as loaded at once, so `loadSectionData` returns without building (frontend/app.js:93), whereas the model builds it and sets its flag;
  - for a workload named `constructor`, a row without that workload shows the inherited `Object` function instead of 0 (frontend/app.js:350);
  - a workload named `__proto__` never stores its cell: assigning a number to it is ignored (frontend/app.js:336), so the cell reads back `Object.prototype`, whereas the model shows the throughput;
  - a data structure named `constructor` or `toString` finds an inherited function in `colors`, so the colour lookup gives `undefined` rather than throwing (frontend/app.js:279, 506, 608).

  Row keys end in a digit and `t`, so they never name an inherited property. The backend's Python dictionaries have no such inherited keys.
- Floating point is not modelled: numbers are reals. A `NaN` or infinite efficiency (missing throughput, or a zero baseline-times-threads) is `None`.
- Strings are compared by character. JavaScript's default sort compares UTF-16 code units, so the two orders can differ only on characters outside the Basic Multilingual Plane.
- `Text.UpperChar` upper-cases ASCII letters only, whereas `toUpperCase` also maps non-ASCII letters.
- `Text.TitleCase` treats a word character as an ASCII letter, digit or `_`, as the regex `\w` does.
- `Sections.LoadSectionData` does not model element lookups or the plotting library, so whether a chart builder gets past them is an input (`renders`). The scalability builder reads the records before any element and so always fails without them, which the model does state. The other chart builders touch the records only after finding an element, so without records their failure depends on the elements and is part of `renders`. The static design section and names without a builder always complete.
- `Sections.LoadData` models `loadOverviewDashboard` as always completing, because it catches its own errors. The overview chart itself is `Overview.OverallThroughputChart`.
- Asynchronous sequencing is not modelled, because nothing concurrent is asserted.

Behaviour a reader might not expect, which the model follows:

- Labels: only the first `_` becomes a space, so `a_b_c` is shown as `A B_c`.
- Server best performer: the server always returns all four workloads. A workload without
  a record of positive throughput gets absent names and throughput 0.
- Scaling: a zero baseline excludes a database just as a missing one does.
- Colours: an unmapped data structure is not reported as an error. Its chart builder throws
  instead, as described under "## Left out".
