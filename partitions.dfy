/**
  The partition aggregator of the Slurm exporter. It reads two texts:

  - the partition-state report, one line per partition in the layout
    `name,A/I/O/T,nA/nI/nO/nT` (CPU counts then node counts, each for
    allocated, idle, other and total), and
  - the pending-job report, one partition name per line, one line per job,

  and builds a map from partition name to a record of nine counters. The two
  texts are parameters here; running the scheduler's commands is not modelled.
 */
module Partitions {
  import opened Text

  /** The per-partition record: four CPU counters, pending jobs, four node counters. */
  datatype PartitionMetrics = PartitionMetrics(
    cpusAllocated: nat,
    cpusIdle: nat,
    cpusOther: nat,
    pending: nat,
    cpusTotal: nat,
    nodesAllocated: nat,
    nodesIdle: nat,
    nodesOther: nat,
    nodesTotal: nat)

  /** The record a partition starts from when it is first seen. */
  const Zero := PartitionMetrics(0, 0, 0, 0, 0, 0, 0, 0, 0)

  /**
    The lines of a report: every piece between newlines, the trailing empty one
    included. No line holds a newline, and the lines joined by newlines give the
    report back.
   */
  function Lines(text: string): (r: seq<string>)
    ensures |r| >= 1
    ensures forall i :: 0 <= i < |r| ==> '\n' !in r[i]
    ensures Join(r, '\n') == text
  {
    JoinSplit(text, '\n');
    Split(text, '\n')
  }

  /**
    Only a line that contains a comma describes a partition; every other line
    is skipped. A state line is one with at least two comma fields.
   */
  predicate IsStateLine(line: string)
    ensures IsStateLine(line) <==> |Split(line, ',')| >= 2
  {
    SplitCount(line, ',');
    ',' in line
  }

  /**
    The partition a state line names: everything before its first comma, and
    the whole line when it has no comma.
   */
  function Name(line: string): (r: string)
    ensures ',' !in r
    ensures |r| <= |line| && r == line[..|r|]
    ensures ',' in line ==> |r| < |line| && line[|r|] == ','
    ensures ',' !in line ==> r == line
  {
    SplitFirstPiece(line, ',');
    Split(line, ',')[0]
  }

  /**
    A state line the aggregator can index without going out of range: at least
    three comma fields, and at least four slash parts in the second and the
    third. Lines that are not state lines are never indexed.
   */
  predicate WellFormed(line: string)
  {
    !IsStateLine(line) ||
    (var fields := Split(line, ',');
     |fields| >= 3 && |Split(fields[1], '/')| >= 4 && |Split(fields[2], '/')| >= 4)
  }

  predicate AllWellFormed(lines: seq<string>)
  {
    forall i :: 0 <= i < |lines| ==> WellFormed(lines[i])
  }

  /** What the aggregator demands of the partition-state report. */
  predicate StateTextWellFormed(stateText: string)
  {
    AllWellFormed(Lines(stateText))
  }

  /** The k-th slash part of the given comma field of a state line, read as a count. */
  function Part(line: string, field: nat, k: nat): nat
    requires IsStateLine(line) && WellFormed(line)
    requires 1 <= field <= 2 && k < 4
  {
    ParseCount(Split(Split(line, ',')[field], '/')[k])
  }

  /**
    The counters one state line reports, with no pending jobs: the four CPU
    counts from the second comma field, the four node counts from the third.
   */
  function LineCounters(line: string): PartitionMetrics
    requires IsStateLine(line) && WellFormed(line)
  {
    PartitionMetrics(
      cpusAllocated := Part(line, 1, 0), cpusIdle := Part(line, 1, 1),
      cpusOther := Part(line, 1, 2), pending := 0, cpusTotal := Part(line, 1, 3),
      nodesAllocated := Part(line, 2, 0), nodesIdle := Part(line, 2, 1),
      nodesOther := Part(line, 2, 2), nodesTotal := Part(line, 2, 3))
  }

  /**
    The record after a state line has been applied to it: nothing of the old
    record survives but `pending`; the eight CPU and node counters are the line's.
   */
  function Overwrite(rec: PartitionMetrics, line: string): (r: PartitionMetrics)
    requires IsStateLine(line) && WellFormed(line)
    ensures r == LineCounters(line).(pending := rec.pending)
  {
    rec.(cpusAllocated := Part(line, 1, 0), cpusIdle := Part(line, 1, 1),
         cpusOther := Part(line, 1, 2), cpusTotal := Part(line, 1, 3),
         nodesAllocated := Part(line, 2, 0), nodesIdle := Part(line, 2, 1),
         nodesOther := Part(line, 2, 2), nodesTotal := Part(line, 2, 3))
  }

  /** One step of the state pass: create the partition at zero if new, then overwrite. */
  function ApplyStateLine(m: map<string, PartitionMetrics>, line: string): (r: map<string, PartitionMetrics>)
    requires WellFormed(line)
    ensures !IsStateLine(line) ==> r == m
    ensures IsStateLine(line) ==> r.Keys == m.Keys + {Name(line)}
    ensures IsStateLine(line) && Name(line) !in m ==> r[Name(line)] == LineCounters(line)
    ensures IsStateLine(line) ==>
      r[Name(line)] == LineCounters(line).(pending := if Name(line) in m then m[Name(line)].pending else 0)
    ensures forall q :: q in m && (!IsStateLine(line) || q != Name(line)) ==> r[q] == m[q]
  {
    if !IsStateLine(line) then m
    else
      var p := Name(line);
      var base := if p in m then m[p] else Zero;
      m[p := Overwrite(base, line)]
  }

  /** The state pass over the given lines, in order. */
  function StatePass(lines: seq<string>): map<string, PartitionMetrics>
    requires AllWellFormed(lines)
    decreases |lines|
  {
    if |lines| == 0 then map[]
    else ApplyStateLine(StatePass(lines[..|lines| - 1]), lines[|lines| - 1])
  }

  /** One step of the pending pass: a line equal to a known partition adds one job to it. */
  function CreditPending(m: map<string, PartitionMetrics>, name: string): (r: map<string, PartitionMetrics>)
    ensures r.Keys == m.Keys
    ensures name !in m ==> r == m
    ensures forall q :: q in m ==> r[q] == m[q].(pending := m[q].pending + (if q == name then 1 else 0))
  {
    if name in m then m[name := m[name].(pending := m[name].pending + 1)] else m
  }

  /** The pending pass over the given lines, in order, starting from `m`. */
  function PendingPass(m: map<string, PartitionMetrics>, lines: seq<string>): map<string, PartitionMetrics>
    decreases |lines|
  {
    if |lines| == 0 then m
    else CreditPending(PendingPass(m, lines[..|lines| - 1]), lines[|lines| - 1])
  }

  /** What the aggregator returns for the two reports. */
  function Metrics(stateText: string, pendingText: string): map<string, PartitionMetrics>
    requires StateTextWellFormed(stateText)
  {
    PendingPass(StatePass(Lines(stateText)), Lines(pendingText))
  }

  /** The names of the partitions the state lines describe. */
  function PartitionNames(lines: seq<string>): set<string>
  {
    set i | 0 <= i < |lines| && IsStateLine(lines[i]) :: Name(lines[i])
  }

  /** The number of pending-report lines that are exactly `name`. */
  function PendingJobs(pendingText: string, name: string): nat
  {
    multiset(Lines(pendingText))[name]
  }

  /**
    `i` is the last state line of `lines` that names its partition: no later
    state line names the same partition.
   */
  predicate LastFor(lines: seq<string>, i: nat)
    requires i < |lines|
  {
    IsStateLine(lines[i]) &&
    forall j :: i < j < |lines| && IsStateLine(lines[j]) ==> Name(lines[j]) != Name(lines[i])
  }

  /**
    The body of the aggregator's first loop for one line: a line with a comma
    creates its partition at zero if it is new, then overwrites the partition's
    CPU counters from the second field and its node counters from the third.
   */
  method ReadStateLine(partitions: map<string, PartitionMetrics>, line: string)
    returns (updated: map<string, PartitionMetrics>)
    requires WellFormed(line)
    ensures updated == ApplyStateLine(partitions, line)
  {
    updated := partitions;
    if ',' in line {
      var fields := Split(line, ',');
      var partition := fields[0];
      if partition !in updated {
        updated := updated[partition := Zero];
      }
      ghost var base := updated[partition];
      var states := Split(fields[1], '/');
      var cpusAllocated := ParseCount(states[0]);
      var idle := ParseCount(states[1]);
      var other := ParseCount(states[2]);
      var total := ParseCount(states[3]);
      updated := updated[partition := updated[partition].(
        cpusAllocated := cpusAllocated, cpusIdle := idle, cpusOther := other, cpusTotal := total)];
      var nodeStates := Split(fields[2], '/');
      var nallocated := ParseCount(nodeStates[0]);
      var nidle := ParseCount(nodeStates[1]);
      var nother := ParseCount(nodeStates[2]);
      var ntotal := ParseCount(nodeStates[3]);
      updated := updated[partition := updated[partition].(
        nodesAllocated := nallocated, nodesIdle := nidle, nodesOther := nother, nodesTotal := ntotal)];
      assert updated[partition] == Overwrite(base, line);
    }
  }

  /**
    The body of the aggregator's second loop for one line: a line equal to a
    known partition adds one pending job to it; any other line is ignored.
   */
  method ReadPendingLine(partitions: map<string, PartitionMetrics>, partition: string)
    returns (updated: map<string, PartitionMetrics>)
    ensures updated == CreditPending(partitions, partition)
  {
    updated := partitions;
    if partition in updated {
      updated := updated[partition := updated[partition].(pending := updated[partition].pending + 1)];
    }
  }

  /**
    The aggregator: a fresh map is built on every call. The first loop walks the
    state report, the second credits the pending jobs to known partitions.
   */
  method ParsePartitionsMetrics(stateText: string, pendingText: string)
    returns (partitions: map<string, PartitionMetrics>)
    requires StateTextWellFormed(stateText)
    ensures partitions == Metrics(stateText, pendingText)
    ensures partitions.Keys == PartitionNames(Lines(stateText))
    ensures forall p :: p in partitions ==> partitions[p].pending == PendingJobs(pendingText, p)
  {
    partitions := map[];
    var lines := Lines(stateText);
    var i := 0;
    while i < |lines|
      invariant 0 <= i <= |lines|
      invariant partitions == StatePass(lines[..i])
    {
      assert lines[..i + 1][..i] == lines[..i];
      partitions := ReadStateLine(partitions, lines[i]);
      i := i + 1;
    }
    assert lines[..i] == lines;
    ghost var afterState := partitions;

    var list := Lines(pendingText);
    var j := 0;
    while j < |list|
      invariant 0 <= j <= |list|
      invariant partitions == PendingPass(afterState, list[..j])
    {
      assert list[..j + 1][..j] == list[..j];
      partitions := ReadPendingLine(partitions, list[j]);
      j := j + 1;
    }
    assert list[..j] == list;
    MetricsPending(stateText, pendingText);
  }

  // ---------------------------------------------------------------------------
  // The state pass

  /** The names of a list of lines with one more line at the end. */
  lemma PartitionNamesSnoc(lines: seq<string>)
    requires |lines| > 0
    ensures PartitionNames(lines) ==
      PartitionNames(lines[..|lines| - 1]) +
      (if IsStateLine(lines[|lines| - 1]) then {Name(lines[|lines| - 1])} else {})
  {
    var n := |lines| - 1;
    var prefix := lines[..n];
    forall p | p in PartitionNames(lines)
      ensures p in PartitionNames(prefix) || (IsStateLine(lines[n]) && p == Name(lines[n]))
    {
      var i :| 0 <= i < |lines| && IsStateLine(lines[i]) && Name(lines[i]) == p;
      if i < n {
        assert prefix[i] == lines[i];
      }
    }
    forall p | p in PartitionNames(prefix) ensures p in PartitionNames(lines) {
      var i :| 0 <= i < |prefix| && IsStateLine(prefix[i]) && Name(prefix[i]) == p;
      assert lines[i] == prefix[i];
    }
  }

  /** The partitions after the state pass are exactly those the state lines name. */
  lemma {:induction false} StatePassKeys(lines: seq<string>)
    requires AllWellFormed(lines)
    ensures StatePass(lines).Keys == PartitionNames(lines)
    decreases |lines|
  {
    if |lines| > 0 {
      StatePassKeys(lines[..|lines| - 1]);
      PartitionNamesSnoc(lines);
    }
  }

  /** The state pass never touches `pending`: every partition leaves it with none. */
  lemma {:induction false} StatePassNoPending(lines: seq<string>)
    requires AllWellFormed(lines)
    ensures forall p :: p in StatePass(lines) ==> StatePass(lines)[p].pending == 0
    decreases |lines|
  {
    if |lines| > 0 {
      StatePassNoPending(lines[..|lines| - 1]);
    }
  }

  /**
    Last write wins: a partition's counters after the state pass are those of
    the last state line that names it, whatever earlier lines said.
   */
  lemma {:induction false} StatePassLastWins(lines: seq<string>, i: nat)
    requires AllWellFormed(lines)
    requires i < |lines| && LastFor(lines, i)
    ensures Name(lines[i]) in StatePass(lines)
    ensures StatePass(lines)[Name(lines[i])] == LineCounters(lines[i])
    decreases |lines|
  {
    var n := |lines| - 1;
    var prefix := lines[..n];
    assert AllWellFormed(prefix) by {
      forall k | 0 <= k < |prefix| ensures WellFormed(prefix[k]) {
        assert prefix[k] == lines[k];
      }
    }
    if i == n {
      StatePassNoPending(prefix);
    } else {
      assert prefix[i] == lines[i];
      assert LastFor(prefix, i) by {
        forall j | i < j < |prefix| && IsStateLine(prefix[j]) ensures Name(prefix[j]) != Name(prefix[i]) {
          assert prefix[j] == lines[j];
        }
      }
      StatePassLastWins(prefix, i);
    }
  }

  // ---------------------------------------------------------------------------
  // The partition-state report as the scheduler writes it

  /** One partition row of the state report: its name and its eight CPU and node counts. */
  datatype StateRow = StateRow(name: string, counts: PartitionMetrics)

  /** A name the report can carry on one line, before the first comma. */
  predicate PlainName(name: string)
  {
    ',' !in name && '\n' !in name
  }

  /** The four slash-separated counts of one comma field. */
  function Quad(a: nat, b: nat, c: nat, d: nat): string
  {
    Join([ShowCount(a), ShowCount(b), ShowCount(c), ShowCount(d)], '/')
  }

  /** A row rendered as `name,A/I/O/T,nA/nI/nO/nT`. */
  function FormatLine(row: StateRow): string
  {
    var c := row.counts;
    Join([row.name,
          Quad(c.cpusAllocated, c.cpusIdle, c.cpusOther, c.cpusTotal),
          Quad(c.nodesAllocated, c.nodesIdle, c.nodesOther, c.nodesTotal)], ',')
  }

  /** The rows rendered one per line. */
  function FormatLines(rows: seq<StateRow>): (r: seq<string>)
    ensures |r| == |rows|
  {
    seq(|rows|, k requires 0 <= k < |rows| => FormatLine(rows[k]))
  }

  /** The whole report: one line per row, each ended by a newline. */
  function Report(rows: seq<StateRow>): string
  {
    Join(FormatLines(rows) + [""], '\n')
  }

  lemma QuadSplits(a: nat, b: nat, c: nat, d: nat)
    ensures ',' !in Quad(a, b, c, d) && '\n' !in Quad(a, b, c, d)
    ensures Split(Quad(a, b, c, d), '/') == [ShowCount(a), ShowCount(b), ShowCount(c), ShowCount(d)]
  {
    var parts := [ShowCount(a), ShowCount(b), ShowCount(c), ShowCount(d)];
    JoinExcludes(parts, '/', ',');
    JoinExcludes(parts, '/', '\n');
    SplitJoin(parts, '/');
  }

  /**
    Reading a rendered row gives the row back: the line is a well-formed state
    line, it names the row's partition, and it carries the row's counts.
   */
  lemma FormatLineRoundTrip(row: StateRow)
    requires PlainName(row.name)
    ensures IsStateLine(FormatLine(row)) && WellFormed(FormatLine(row))
    ensures '\n' !in FormatLine(row)
    ensures Name(FormatLine(row)) == row.name
    ensures LineCounters(FormatLine(row)) == row.counts.(pending := 0)
  {
    var c := row.counts;
    var cpus := Quad(c.cpusAllocated, c.cpusIdle, c.cpusOther, c.cpusTotal);
    var nodes := Quad(c.nodesAllocated, c.nodesIdle, c.nodesOther, c.nodesTotal);
    QuadSplits(c.cpusAllocated, c.cpusIdle, c.cpusOther, c.cpusTotal);
    QuadSplits(c.nodesAllocated, c.nodesIdle, c.nodesOther, c.nodesTotal);
    var fields := [row.name, cpus, nodes];
    var line := FormatLine(row);
    SplitJoin(fields, ',');
    JoinExcludes(fields, ',', '\n');
    JoinCons(row.name, [cpus, nodes], ',');
    assert line[|row.name|] == ',';
    ParseShowCount(c.cpusAllocated);
    ParseShowCount(c.cpusIdle);
    ParseShowCount(c.cpusOther);
    ParseShowCount(c.cpusTotal);
    ParseShowCount(c.nodesAllocated);
    ParseShowCount(c.nodesIdle);
    ParseShowCount(c.nodesOther);
    ParseShowCount(c.nodesTotal);
  }

  /** `lines` are the rendered rows, one per line, then the empty line after the last newline. */
  predicate Renders(rows: seq<StateRow>, lines: seq<string>)
  {
    |lines| == |rows| + 1 && lines[|rows|] == "" &&
    forall k :: 0 <= k < |rows| ==> lines[k] == FormatLine(rows[k])
  }

  /** Splitting a rendered report into lines recovers the rendered rows. */
  lemma ReportLines(rows: seq<StateRow>)
    requires forall k :: 0 <= k < |rows| ==> PlainName(rows[k].name)
    ensures Renders(rows, Lines(Report(rows)))
  {
    var lines := FormatLines(rows) + [""];
    forall k | 0 <= k < |lines| ensures '\n' !in lines[k] {
      if k < |rows| {
        FormatLineRoundTrip(rows[k]);
      }
    }
    SplitJoin(lines, '\n');
  }

  /** Rendered rows are well formed, and the partitions they name are the rows' names. */
  lemma RenderedNames(rows: seq<StateRow>, lines: seq<string>)
    requires forall k :: 0 <= k < |rows| ==> PlainName(rows[k].name)
    requires Renders(rows, lines)
    ensures AllWellFormed(lines)
    ensures PartitionNames(lines) == set k | 0 <= k < |rows| :: rows[k].name
  {
    forall i | 0 <= i < |lines|
      ensures WellFormed(lines[i])
      ensures IsStateLine(lines[i]) ==> i < |rows| && Name(lines[i]) == rows[i].name
    {
      if i < |rows| {
        FormatLineRoundTrip(rows[i]);
      }
    }
    forall k | 0 <= k < |rows| ensures rows[k].name in PartitionNames(lines) {
      FormatLineRoundTrip(rows[k]);
    }
  }

  /** With distinct names, each rendered row is the last line for its partition. */
  lemma RenderedRowIsLast(rows: seq<StateRow>, lines: seq<string>, k: nat)
    requires forall k :: 0 <= k < |rows| ==> PlainName(rows[k].name)
    requires forall k, l :: 0 <= k < l < |rows| ==> rows[k].name != rows[l].name
    requires Renders(rows, lines)
    requires k < |rows|
    ensures k < |lines| && LastFor(lines, k) && WellFormed(lines[k])
    ensures Name(lines[k]) == rows[k].name
    ensures LineCounters(lines[k]) == rows[k].counts.(pending := 0)
  {
    FormatLineRoundTrip(rows[k]);
    forall j | k < j < |lines| && IsStateLine(lines[j]) ensures Name(lines[j]) != Name(lines[k]) {
      if j < |rows| {
        FormatLineRoundTrip(rows[j]);
      }
    }
  }

  /**
    Reading a whole rendered report, with distinct plain names, gives back every
    row's counts under its name, with `pending` from the pending report, and no
    other partition.
   */
  lemma ReportRoundTrip(rows: seq<StateRow>, pendingText: string)
    requires forall k :: 0 <= k < |rows| ==> PlainName(rows[k].name)
    requires forall k, l :: 0 <= k < l < |rows| ==> rows[k].name != rows[l].name
    ensures StateTextWellFormed(Report(rows))
    ensures Metrics(Report(rows), pendingText).Keys == set k | 0 <= k < |rows| :: rows[k].name
    ensures forall k :: 0 <= k < |rows| ==>
      Metrics(Report(rows), pendingText)[rows[k].name]
        == rows[k].counts.(pending := PendingJobs(pendingText, rows[k].name))
  {
    var lines := Lines(Report(rows));
    ReportLines(rows);
    RenderedNames(rows, lines);
    MetricsCharacterization(Report(rows), pendingText);
    forall k | 0 <= k < |rows|
      ensures Metrics(Report(rows), pendingText)[rows[k].name]
        == rows[k].counts.(pending := PendingJobs(pendingText, rows[k].name))
    {
      RenderedRowIsLast(rows, lines, k);
    }
  }

  // ---------------------------------------------------------------------------
  // The pending pass

  /**
    The pending pass adds to each known partition the number of lines equal to
    its name and changes nothing else; unknown names add no partition.
   */
  lemma {:induction false} PendingPassCounts(m: map<string, PartitionMetrics>, lines: seq<string>)
    ensures PendingPass(m, lines).Keys == m.Keys
    ensures forall p :: p in m ==>
      PendingPass(m, lines)[p] == m[p].(pending := m[p].pending + multiset(lines)[p])
    decreases |lines|
  {
    if |lines| > 0 {
      var n := |lines| - 1;
      PendingPassCounts(m, lines[..n]);
      assert lines == lines[..n] + [lines[n]];
      assert multiset(lines) == multiset(lines[..n]) + multiset{lines[n]};
    }
  }

  /** The order of the pending report does not matter, only how often each name occurs. */
  lemma PendingPassOrderFree(m: map<string, PartitionMetrics>, lines: seq<string>, other: seq<string>)
    requires multiset(lines) == multiset(other)
    ensures PendingPass(m, lines) == PendingPass(m, other)
  {
    var a, b := PendingPass(m, lines), PendingPass(m, other);
    PendingPassCounts(m, lines);
    PendingPassCounts(m, other);
    assert a.Keys == b.Keys;
    forall p | p in a ensures a[p] == b[p] {
      assert multiset(lines)[p] == multiset(other)[p];
    }
  }

  // ---------------------------------------------------------------------------
  // The whole aggregator

  /**
    The partitions the aggregator returns are those the state lines name, and
    each one's `pending` is the number of pending-report lines equal to its name.
   */
  lemma MetricsPending(stateText: string, pendingText: string)
    requires StateTextWellFormed(stateText)
    ensures Metrics(stateText, pendingText).Keys == PartitionNames(Lines(stateText))
    ensures forall p :: p in Metrics(stateText, pendingText) ==>
      Metrics(stateText, pendingText)[p].pending == PendingJobs(pendingText, p)
  {
    var lines := Lines(stateText);
    StatePassKeys(lines);
    StatePassNoPending(lines);
    PendingPassCounts(StatePass(lines), Lines(pendingText));
  }

  /**
    What the aggregator returns: one record per partition named by a state
    line; its eight CPU and node counters are those of the last such line,
    and its `pending` is the number of pending-report lines equal to its name.
   */
  lemma MetricsCharacterization(stateText: string, pendingText: string)
    requires StateTextWellFormed(stateText)
    ensures Metrics(stateText, pendingText).Keys == PartitionNames(Lines(stateText))
    ensures forall p :: p in Metrics(stateText, pendingText) ==>
      Metrics(stateText, pendingText)[p].pending == PendingJobs(pendingText, p)
    ensures forall i :: 0 <= i < |Lines(stateText)| && LastFor(Lines(stateText), i) ==>
      Metrics(stateText, pendingText)[Name(Lines(stateText)[i])]
        == LineCounters(Lines(stateText)[i]).(pending := PendingJobs(pendingText, Name(Lines(stateText)[i])))
  {
    var lines := Lines(stateText);
    MetricsPending(stateText, pendingText);
    StatePassNoPending(lines);
    PendingPassCounts(StatePass(lines), Lines(pendingText));
    forall i | 0 <= i < |lines| && LastFor(lines, i)
      ensures Metrics(stateText, pendingText)[Name(lines[i])]
        == LineCounters(lines[i]).(pending := PendingJobs(pendingText, Name(lines[i])))
    {
      StatePassLastWins(lines, i);
    }
  }

  /** The pending report names no partition that the state report lacks: it adds nothing. */
  lemma PendingAddsNoPartition(stateText: string, pendingText: string)
    requires StateTextWellFormed(stateText)
    ensures Metrics(stateText, pendingText).Keys == Metrics(stateText, "").Keys
  {
    MetricsPending(stateText, pendingText);
    MetricsPending(stateText, "");
  }
}
