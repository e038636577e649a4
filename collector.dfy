/**
  The exporter's partition collector: nine gauge descriptors labelled by
  partition, listed by `Describe`, and the sparse emission rule of `Collect`,
  which turns the aggregator's map into one labelled sample per partition and
  per counter whose value is greater than zero. Samples are modelled as a set:
  the order in which a scrape visits the partitions is not fixed.
 */
module Collector {
  import opened Partitions

  /** The nine counters of a partition record, in the order the exporter lists them. */
  datatype Field =
    | CpusAllocated | CpusIdle | CpusOther | Pending | CpusTotal
    | NodesAllocated | NodesIdle | NodesOther | NodesTotal

  const FieldOrder: seq<Field> :=
    [CpusAllocated, CpusIdle, CpusOther, Pending, CpusTotal,
     NodesAllocated, NodesIdle, NodesOther, NodesTotal]

  /** The value of one counter of a record. */
  function Value(rec: PartitionMetrics, f: Field): nat
  {
    match f
    case CpusAllocated => rec.cpusAllocated
    case CpusIdle => rec.cpusIdle
    case CpusOther => rec.cpusOther
    case Pending => rec.pending
    case CpusTotal => rec.cpusTotal
    case NodesAllocated => rec.nodesAllocated
    case NodesIdle => rec.nodesIdle
    case NodesOther => rec.nodesOther
    case NodesTotal => rec.nodesTotal
  }

  /** A metric descriptor: name, help text and label names. */
  datatype Desc = Desc(name: string, help: string, labels: seq<string>)

  /** The collector holds one descriptor per counter. */
  datatype PartitionsCollector = PartitionsCollector(
    cpusAllocated: Desc,
    cpusIdle: Desc,
    cpusOther: Desc,
    pending: Desc,
    cpusTotal: Desc,
    nodesAllocated: Desc,
    nodesIdle: Desc,
    nodesOther: Desc,
    nodesTotal: Desc)

  /** The descriptor the collector uses for one counter. */
  function DescOf(pc: PartitionsCollector, f: Field): Desc
  {
    match f
    case CpusAllocated => pc.cpusAllocated
    case CpusIdle => pc.cpusIdle
    case CpusOther => pc.cpusOther
    case Pending => pc.pending
    case CpusTotal => pc.cpusTotal
    case NodesAllocated => pc.nodesAllocated
    case NodesIdle => pc.nodesIdle
    case NodesOther => pc.nodesOther
    case NodesTotal => pc.nodesTotal
  }

  /**
    The collector the exporter registers: every descriptor carries the single
    label `partition`, and no two counters share a metric name.
   */
  function NewPartitionsCollector(): (pc: PartitionsCollector)
    ensures forall f :: DescOf(pc, f).labels == ["partition"]
    ensures forall f, g :: DescOf(pc, f).name == DescOf(pc, g).name ==> f == g
  {
    var labels := ["partition"];
    PartitionsCollector(
      Desc("slurm_partition_cpus_allocated", "Allocated CPUs for partition", labels),
      Desc("slurm_partition_cpus_idle", "Idle CPUs for partition", labels),
      Desc("slurm_partition_cpus_other", "Other CPUs for partition", labels),
      Desc("slurm_partition_jobs_pending", "Pending jobs for partition", labels),
      Desc("slurm_partition_cpus_total", "Total CPUs for partition", labels),
      Desc("slurm_partition_nodes_allocated", "Allocated nodes for partition", labels),
      Desc("slurm_partition_nodes_idle", "Idle nodes for partition", labels),
      Desc("slurm_partition_nodes_other", "Other nodes for partition", labels),
      Desc("slurm_partition_nodes_total", "Total nodes for partition", labels))
  }

  /** The descriptors, in a fixed order: each counter's descriptor exactly once. */
  function Describe(pc: PartitionsCollector): (r: seq<Desc>)
    ensures |r| == |FieldOrder|
    ensures forall i :: 0 <= i < |r| ==> r[i] == DescOf(pc, FieldOrder[i])
  {
    [pc.cpusAllocated, pc.cpusIdle, pc.cpusOther, pc.pending, pc.cpusTotal,
     pc.nodesAllocated, pc.nodesIdle, pc.nodesOther, pc.nodesTotal]
  }

  /** Every counter appears in the descriptor order. */
  lemma FieldOrderIsCompleteAll()
    ensures forall f :: f in FieldOrder
  {
    forall f ensures f in FieldOrder {
      FieldOrderIsComplete(f);
    }
  }

  /** Every counter has exactly one place in the descriptor order. */
  lemma FieldOrderIsComplete(f: Field)
    ensures f in FieldOrder
    ensures multiset(FieldOrder)[f] == 1
  {
  }

  /** The registered collector describes every descriptor it will emit with. */
  lemma DescribeIsComplete(f: Field)
    ensures DescOf(NewPartitionsCollector(), f) in Describe(NewPartitionsCollector())
  {
  }

  /** The registered collector describes no descriptor twice. */
  lemma DescribeIsDistinct(i: nat, j: nat)
    requires i < j < |FieldOrder|
    ensures Describe(NewPartitionsCollector())[i] != Describe(NewPartitionsCollector())[j]
  {
  }

  /** A gauge sample: a descriptor, the partition label value, and the value. */
  datatype Sample = Sample(desc: Desc, partition: string, value: nat)

  /** The sample for counter `f` of a partition, if it is to be sent: only a positive value is. */
  function Emit(pc: PartitionsCollector, p: string, rec: PartitionMetrics, f: Field): (r: seq<Sample>)
    ensures |r| <= 1
    ensures forall s :: s in r ==> s == Sample(DescOf(pc, f), p, Value(rec, f)) && Value(rec, f) > 0
    ensures Value(rec, f) > 0 ==> Sample(DescOf(pc, f), p, Value(rec, f)) in r
  {
    if Value(rec, f) > 0 then [Sample(DescOf(pc, f), p, Value(rec, f))] else []
  }

  /** The samples for the given counters of a partition, in the given order. */
  function EmitFields(pc: PartitionsCollector, p: string, rec: PartitionMetrics, fields: seq<Field>): (r: seq<Sample>)
    ensures forall s :: s in r ==>
      s.partition == p && s.value > 0 &&
      exists f :: f in fields && s.desc == DescOf(pc, f) && s.value == Value(rec, f)
    ensures forall f :: f in fields && Value(rec, f) > 0 ==> Sample(DescOf(pc, f), p, Value(rec, f)) in r
    decreases |fields|
  {
    if |fields| == 0 then []
    else Emit(pc, p, rec, fields[0]) + EmitFields(pc, p, rec, fields[1..])
  }

  /**
    The samples one partition contributes, in the order the exporter sends them:
    a counter is sent only when its value is greater than zero.
   */
  function PartitionSamples(pc: PartitionsCollector, p: string, rec: PartitionMetrics): (r: seq<Sample>)
    ensures forall s :: s in r ==>
      s.partition == p && s.value > 0 && exists f :: s.desc == DescOf(pc, f) && s.value == Value(rec, f)
    ensures forall f :: Value(rec, f) > 0 ==> Sample(DescOf(pc, f), p, Value(rec, f)) in r
  {
    FieldOrderIsCompleteAll();
    EmitFields(pc, p, rec, FieldOrder)
  }

  /** All samples of one scrape of the map `m`: the samples of every partition. */
  function Samples(pc: PartitionsCollector, m: map<string, PartitionMetrics>): set<Sample>
  {
    set p, s | p in m && s in PartitionSamples(pc, p, m[p]) :: s
  }

  /**
    Every sample of a scrape is a positive counter of a known partition,
    labelled with that partition, and every positive counter of every partition
    is sent.
   */
  lemma SamplesExact(pc: PartitionsCollector, m: map<string, PartitionMetrics>)
    ensures forall s :: s in Samples(pc, m) ==>
      s.partition in m && s.value > 0 &&
      exists f :: s.desc == DescOf(pc, f) && s.value == Value(m[s.partition], f)
    ensures forall p, f :: p in m && Value(m[p], f) > 0 ==>
      Sample(DescOf(pc, f), p, Value(m[p], f)) in Samples(pc, m)
  {
    forall s | s in Samples(pc, m)
      ensures s.partition in m && s.value > 0
      ensures exists f :: s.desc == DescOf(pc, f) && s.value == Value(m[s.partition], f)
    {
      var p :| p in m && s in PartitionSamples(pc, p, m[p]);
    }
    forall p, f | p in m && Value(m[p], f) > 0
      ensures Sample(DescOf(pc, f), p, Value(m[p], f)) in Samples(pc, m)
    {
      assert Sample(DescOf(pc, f), p, Value(m[p], f)) in PartitionSamples(pc, p, m[p]);
    }
  }

  /**
    The sparse emission rule for the registered collector: the sample for
    counter `f` of partition `p` with value `v` is sent exactly when `p` is a
    partition, `v` is its counter `f`, and `v` is greater than zero.
   */
  lemma SamplesSparse(m: map<string, PartitionMetrics>, p: string, f: Field, v: nat)
    ensures Sample(DescOf(NewPartitionsCollector(), f), p, v) in Samples(NewPartitionsCollector(), m)
      <==> p in m && v == Value(m[p], f) && v > 0
  {
    var pc := NewPartitionsCollector();
    var s := Sample(DescOf(pc, f), p, v);
    SamplesExact(pc, m);
    if s in Samples(pc, m) {
      var g :| s.desc == DescOf(pc, g) && s.value == Value(m[p], g);
      assert g == f;
    }
  }

  /**
    One scrape: build the partition map afresh from the two reports, then send
    the positive counters of every partition.
   */
  method Collect(pc: PartitionsCollector, stateText: string, pendingText: string)
    returns (samples: set<Sample>)
    requires StateTextWellFormed(stateText)
    ensures samples == Samples(pc, Metrics(stateText, pendingText))
    ensures forall s :: s in samples ==> s.partition in PartitionNames(Lines(stateText))
  {
    var pm := ParsePartitionsMetrics(stateText, pendingText);
    samples := Samples(pc, pm);
    SamplesExact(pc, pm);
  }

  /**
    A scrape sends a pending-jobs sample for a partition exactly when the state
    report names the partition and at least one pending-report line equals its
    name; the value is that number of lines.
   */
  lemma ScrapePendingSample(stateText: string, pendingText: string, p: string)
    requires StateTextWellFormed(stateText)
    ensures Sample(NewPartitionsCollector().pending, p, PendingJobs(pendingText, p))
        in Samples(NewPartitionsCollector(), Metrics(stateText, pendingText))
      <==> p in PartitionNames(Lines(stateText)) && PendingJobs(pendingText, p) > 0
  {
    MetricsPending(stateText, pendingText);
    SamplesSparse(Metrics(stateText, pendingText), p, Pending, PendingJobs(pendingText, p));
  }
}
