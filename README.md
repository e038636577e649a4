# Slurm partition metrics: aggregator and sparse emission

This project models the partition collector of the Prometheus Slurm exporter
(`partitions.go`). The exporter reads two reports from the scheduler:

- the partition-state report of `sinfo -h -o%R,%C,%F`, one line per partition
  of the form `name,A/I/O/T,nA/nI/nO/nT` (CPUs then nodes, each allocated,
  idle, other, total);
- the pending-job report of `squeue ... -o%P --states=PENDING`, one partition
  name per line, one line per job.

From them it builds a map from partition name to a record of nine counters.
On every scrape it then sends one gauge per partition and per counter whose
value is greater than zero, labelled with the partition.

The model has three modules:

- `Text` (`text.dfy`): Go's `strings.Split` on one character, its inverse
  `Join`, and the reading of a counter field (`ParseCount`) with its inverse
  `ShowCount`.
- `Partitions` (`partitions.dfy`): the record `PartitionMetrics` and the
  aggregator. `ParsePartitionsMetrics` is a method with the source's two
  loops; the body of each loop is its own method (`ReadStateLine`,
  `ReadPendingLine`). It takes the two reports as parameters and is proved equal to the
  fold `Metrics`, whose meaning is proved in lemmas:
  - which lines count;
  - which partitions exist;
  - that the last line for a partition wins;
  - that `pending` counts the exactly matching pending lines.

  The renderer `Report` writes a report the way the scheduler does. When the
  row names are distinct and contain no comma or newline, reading the report
  back returns every row.
- `Collector` (`collector.dfy`): the nine descriptors
  (`NewPartitionsCollector`) and `Describe`. It also holds the emission rule:
  `PartitionSamples` for one partition, built in the source's order, and
  `Samples` for a whole scrape, as a set. `Collect` is one scrape: it builds the map
  afresh and emits from it.

Later versions of the exporter behave differently in several ways. The
model follows this version of the code:

- A later state line for the same partition overwrites the eight CPU and
  node counters. Lines are not accumulated, so their order matters.
- There is no state-name classification and no nodes × CPUs product.
- There is no running-jobs pass, and pending lines are not split on commas.
- Zero-valued counters are not emitted.

## Model

| member | source | states |
|---|---|---|
| `Text.Split` | partitions.go:73-77 | at least one piece, and no piece contains the separator |
| `Text.SplitCount` | partitions.go:73 | there is one more piece than there are separators in the text, so a text ending in a newline has a trailing empty line |
| `Text.JoinSplit` | partitions.go:73 | joining the pieces of a split with the separator gives back the original text |
| `Text.SplitJoin` | partitions.go:77 | splitting pieces joined by a separator that none of them contains gives back the pieces |
| `Text.ParseShowCount` | partitions.go:83-86 | a counter field written as a decimal count reads back as that count |
| `Text.ParseCount` | partitions.go:83 | a field that is not a digit string reads as 0, and the error is discarded |
| `Partitions.Lines` | partitions.go:73 | a report's lines contain no newline, there is at least one, and joined by newlines they give the report back |
| `Partitions.IsStateLine` | partitions.go:75 | a line counts as a state line exactly when it has at least two comma fields, that is, when it contains a comma |
| `Partitions.Name` | partitions.go:77 | the partition name is the longest comma-free prefix of the line: followed by a comma in a state line, the whole line otherwise |
| `Partitions.Part` | partitions.go:82-96 | definition: the k-th `/` part of the 2nd or 3rd comma field, read as a count; its meaning is proved in `Partitions.FormatLineRoundTrip` |
| `Partitions.Overwrite` | partitions.go:87-100 | applying a state line to a record keeps only its `pending`; the eight CPU and node counters are the line's own |
| `Partitions.ApplyStateLine` | partitions.go:75-100 | a line without a comma changes nothing; a comma line adds its partition to the keys and sets its eight counters to the line's, keeping the `pending` of a known partition and starting a new one at 0; every other partition is unchanged |
| `Partitions.ReadStateLine` | partitions.go:75-100 | the first loop's body for one line computes exactly `ApplyStateLine`: create at zero if new, then overwrite the CPU counters from the 2nd field and the node counters from the 3rd |
| `Partitions.CreditPending` | partitions.go:107-110 | a pending line keeps the set of partitions; the partition equal to the line gains one pending job, and every other record, and every record for a name that is not a partition, is unchanged |
| `Partitions.ReadPendingLine` | partitions.go:105-111 | the second loop's body for one line computes exactly `CreditPending`: a known partition's `pending` grows by one |
| `Partitions.StatePass` | partitions.go:74-102 | definition: the first loop as a fold of `ApplyStateLine` over the lines; its meaning is proved in `Partitions.StatePassKeys`, `Partitions.StatePassNoPending` and `Partitions.StatePassLastWins` |
| `Partitions.PendingPass` | partitions.go:104-111 | definition: the second loop as a fold of `CreditPending`; its meaning is proved in `Partitions.PendingPassCounts` |
| `Partitions.Metrics` | partitions.go:71-115 | definition: the pending pass applied to the result of the state pass; its meaning is proved in `Partitions.MetricsCharacterization` |
| `Partitions.ParsePartitionsMetrics` | partitions.go:71-115 | the two loops build exactly `Metrics` of the two reports: the keys are the names of the comma lines, and each `pending` is the number of pending lines equal to the name |
| `Partitions.StatePassKeys` | partitions.go:74-81 | after the state pass the partitions are exactly the first fields of the lines that contain a comma |
| `Partitions.StatePassNoPending` | partitions.go:78-81 | the state pass leaves `pending` at 0 for every partition |
| `Partitions.StatePassLastWins` | partitions.go:82-100 | a partition's counters are those of the last comma line that names it: CPU counts from the 2nd field, node counts from the 3rd |
| `Partitions.PendingPassCounts` | partitions.go:104-111 | the pending pass keeps the keys, adds to each partition the number of lines equal to its name, and changes no other counter |
| `Partitions.PendingPassOrderFree` | partitions.go:104-111 | pending passes over two reports with the same lines in any order give the same map |
| `Partitions.MetricsPending` | partitions.go:71-115 | the aggregator's keys are the comma lines' names, and each `pending` is the count of exactly matching pending lines |
| `Partitions.MetricsCharacterization` | partitions.go:71-115 | the aggregator's result: keys are the comma lines' names; each partition has the counters of its last line, and `pending` is the count of exactly matching pending lines |
| `Partitions.PendingAddsNoPartition` | partitions.go:107-109 | the pending report never adds a partition: the keys are those for an empty pending report |
| `Partitions.FormatLineRoundTrip` | partitions.go:82-100 | a row written as `name,A/I/O/T,nA/nI/nO/nT` is a well-formed comma line that names the row and reads back as its eight counts |
| `Partitions.ReportLines` | partitions.go:73 | splitting a written report into lines gives the written rows, then the empty line after the final newline |
| `Partitions.ReportRoundTrip` | partitions.go:71-102 | reading a written report with distinct names gives back exactly its partitions, each with its row's counts and its pending count |
| `Collector.NewPartitionsCollector` | partitions.go:129-142 | every descriptor carries the one label `partition`, and no two counters share a metric name |
| `Collector.Describe` | partitions.go:144-154 | nine descriptors, the i-th being the descriptor of the i-th counter in the fixed order |
| `Collector.DescribeIsComplete` | partitions.go:144-154 | every descriptor the collector emits with is described |
| `Collector.DescribeIsDistinct` | partitions.go:144-154 | no descriptor is described twice |
| `Collector.Emit` | partitions.go:159-161 | a counter yields its labelled sample if and only if its value is greater than 0 |
| `Collector.EmitFields` | partitions.go:159-185 | over a list of counters, the samples sent are exactly the positive ones among them, each labelled with the partition |
| `Collector.PartitionSamples` | partitions.go:158-186 | a partition's samples are exactly its positive counters, each labelled with the partition |
| `Collector.Samples` | partitions.go:156-187 | definition: the union of the samples of every partition of the map; its meaning is proved in `Collector.SamplesExact` |
| `Collector.SamplesExact` | partitions.go:156-187 | every sample of a scrape is a positive counter of a known partition, and every positive counter of every partition is sent |
| `Collector.SamplesSparse` | partitions.go:158-186 | with the registered descriptors, the sample (counter f, partition p, value v) is sent if and only if p is a partition, v is its counter f, and v > 0 |
| `Collector.Collect` | partitions.go:156-187 | a scrape emits the samples of the freshly built map, and only for partitions that the state report names |
| `Collector.ScrapePendingSample` | partitions.go:168-170 | a pending-jobs gauge for p is sent if and only if p is a partition and some pending line equals p; its value is the number of such lines |

## Left out

- `PartitionsData` and `PartitionsPendingJobsData` (partitions.go:27-57) run `sinfo` and `squeue` and end the process on failure. This is process I/O, so the two reports are parameters of `ParsePartitionsMetrics` and `Collect`.
- The Prometheus client API (`NewDesc`, `MustNewConstMetric`, the channels of `Describe` and `Collect`) is not modelled. `Describe` returns a sequence; a scrape returns a set of (descriptor, partition, value) samples.
- The order of the samples is not modelled. Go's map iteration order is unspecified, and a scrape (`Collect`, `Samples`) is a set. `PartitionSamples` builds one partition's samples in the source's order, but no contract states that order.
- A comma line with fewer than three comma fields, or a field with fewer than four `/` parts, makes the source index out of range and panic. The model does not have that path: `StateTextWellFormed` is a precondition of the aggregator.
- Text.ParseCount: reads only decimal digit strings and gives 0 for everything else. `strconv.ParseFloat` also accepts signs, decimals, exponents, hexadecimal floats, `Inf` and `NaN`. It also rounds counts above 2^53 to the nearest float64, and turns a digit string too long for a float64 into +Inf with a range error, which the source discards; the model keeps the exact count. The scheduler writes counts as plain decimal integers, and counters are `nat` rather than `float64`. A negative value that the source would keep reads as 0 here; in both cases nothing is emitted for it.
- Concurrent scrapes are not modelled. Each call builds its own map, and the model is a function of its inputs.
