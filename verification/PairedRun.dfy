/** One paired run: processes in planned order, accumulated deltas and mismatches, early stop, outcome rows. */
module PairedRun {
  import opened Wrappers
  import opened StableSort
  import opened Json
  import opened PairedProtocol

  datatype Direction = Favorable | Adverse | Equal

  datatype PairDelta = PairDelta(pairIndex: nat, baselineMeanMs: real, candidateMeanMs: real, deltaMs: real,
                                 direction: Direction)

  datatype MismatchDetail = MismatchDetail(pairIndex: nat, baselineSink: Json, candidateSink: Json)

  datatype SinkComparison = Matched | Mismatch | SinkNotMeasured

  datatype OutcomeRow = OutcomeRow(
    phase: Phase, scenario: Scenario, status: Status, practicalThresholdMs: Option<real>, p0RangeMs: real,
    sinkComparison: SinkComparison, semanticMismatchDetails: Option<seq<MismatchDetail>>, pairs: seq<PairDelta>)

  /** Everything a run accumulates. `compared` lists the pairs compared so far; the source keeps no such list. */
  datatype RunState = RunState(
    runs: seq<ProcessRun>, pairDeltas: map<RowKey, seq<PairDelta>>, mismatchRows: set<RowKey>,
    mismatchDetails: map<RowKey, seq<MismatchDetail>>, internalMismatchRows: set<RowKey>,
    referenceSinks: map<RowKey, Json>, referenceEnvironment: Option<Json>, executionFailed: bool,
    orchestrationFailed: bool,
    compared: seq<nat>)

  const INITIAL_STATE := RunState([], map[], {}, map[], {}, map[], None, false, false, [])

  /** The loop is left before the next process. */
  predicate Stopped(st: RunState) {
    st.mismatchRows != {} || st.internalMismatchRows != {} || st.executionFailed
  }

  /** An error thrown inside the loop. */
  function Thrown(st: RunState): RunState {
    st.(executionFailed := true, orchestrationFailed := true)
  }

  // --------------------------------------------------------------- the sinks

  function DetailsOf(m: map<RowKey, seq<MismatchDetail>>, k: RowKey): seq<MismatchDetail> {
    if k in m then m[k] else []
  }

  predicate AlreadyListed(details: seq<MismatchDetail>, d: MismatchDetail) {
    exists i :: 0 <= i < |details| && details[i].pairIndex == d.pairIndex &&
      SameSerialized(details[i].candidateSink, d.candidateSink)
  }

  function AppendDetail(m: map<RowKey, seq<MismatchDetail>>, k: RowKey, d: MismatchDetail)
    : map<RowKey, seq<MismatchDetail>>
  {
    if AlreadyListed(DetailsOf(m, k), d) then m else m[k := DetailsOf(m, k) + [d]]
  }

  /** One result row against the first sink seen for its row. */
  function RecordSink(st: RunState, row: ResultRow, pairIndex: nat): RunState {
    var k := ResultKey(row);
    if k !in st.referenceSinks then st.(referenceSinks := st.referenceSinks[k := row.semanticSink])
    else if SameSerialized(st.referenceSinks[k], row.semanticSink) then st
    else st.(mismatchRows := st.mismatchRows + {k},
             mismatchDetails := AppendDetail(st.mismatchDetails, k,
               MismatchDetail(pairIndex, st.referenceSinks[k], row.semanticSink)))
  }

  function RecordSinks(st: RunState, rows: seq<ResultRow>, pairIndex: nat): RunState {
    if rows == [] then st
    else RecordSink(RecordSinks(st, rows[..|rows| - 1], pairIndex), rows[|rows| - 1], pairIndex)
  }

  // ------------------------------------------------------------ pair comparison

  function RowMap(rows: seq<ResultRow>): map<RowKey, ResultRow> {
    if rows == [] then map[] else RowMap(rows[..|rows| - 1])[ResultKey(rows[|rows| - 1]) := rows[|rows| - 1]]
  }

  function DeltaOf(pairIndex: nat, b: ResultRow, c: ResultRow): PairDelta {
    var delta := Round9(c.stats.meanMs - b.stats.meanMs);
    PairDelta(pairIndex, b.stats.meanMs, c.stats.meanMs, delta,
              if delta < 0.0 then Favorable else if delta > 0.0 then Adverse else Equal)
  }

  datatype Comparison = Comparison(deltas: map<RowKey, PairDelta>, mismatches: map<RowKey, MismatchDetail>)

  function CompareRow(cmp: Comparison, bs: map<RowKey, ResultRow>, cs: map<RowKey, ResultRow>, k: RowKey,
                      pairIndex: nat): Comparison {
    if k !in bs || k !in cs then cmp
    else if !SameSerialized(bs[k].semanticSink, cs[k].semanticSink) then
      cmp.(mismatches := cmp.mismatches[k := MismatchDetail(pairIndex, bs[k].semanticSink, cs[k].semanticSink)])
    else cmp.(deltas := cmp.deltas[k := DeltaOf(pairIndex, bs[k], cs[k])])
  }

  function CompareRows(bs: map<RowKey, ResultRow>, cs: map<RowKey, ResultRow>, keys: seq<RowKey>,
                       pairIndex: nat): Comparison {
    if keys == [] then Comparison(map[], map[])
    else CompareRow(CompareRows(bs, cs, keys[..|keys| - 1], pairIndex), bs, cs, keys[|keys| - 1], pairIndex)
  }

  /** `comparePair`: `None` when the two reports were not measured alike. */
  function ComparePair(b: Report, c: Report, pairIndex: nat): Option<Comparison> {
    if !MeasuredAlike(b, c) then None
    else Some(CompareRows(RowMap(b.results), RowMap(c.results), RowKeysOf(b.method_.phaseScope), pairIndex))
  }

  function DeltasOf(m: map<RowKey, seq<PairDelta>>, k: RowKey): seq<PairDelta> {
    if k in m then m[k] else []
  }

  function AppendDelta(m: map<RowKey, seq<PairDelta>>, k: RowKey, deltas: map<RowKey, PairDelta>)
    : map<RowKey, seq<PairDelta>>
  {
    if k in deltas then m[k := DeltasOf(m, k) + [deltas[k]]] else m
  }

  /** What one row of a comparison adds to the run. */
  function MergeRow(st: RunState, cmp: Comparison, k: RowKey): RunState {
    var st' := st.(pairDeltas := AppendDelta(st.pairDeltas, k, cmp.deltas));
    if k in cmp.mismatches then
      st'.(mismatchRows := st'.mismatchRows + {k},
        mismatchDetails := AppendDetail(st'.mismatchDetails, k, cmp.mismatches[k]))
    else st'
  }

  function MergeRows(st: RunState, cmp: Comparison, keys: seq<RowKey>): RunState {
    if keys == [] then st else MergeRow(MergeRows(st, cmp, keys[..|keys| - 1]), cmp, keys[|keys| - 1])
  }

  function FindReport(runs: seq<ProcessRun>, pairIndex: nat, condition: Condition): Option<Report> {
    if runs == [] then None
    else if runs[0].pairIndex == pairIndex && runs[0].condition == condition then
      (if runs[0].file.Parsed? then Some(runs[0].file.report) else None)
    else FindReport(runs[1..], pairIndex, condition)
  }

  // ------------------------------------------------------------ one process

  function MakeRun(item: PlannedItem, sequence: nat, e: Execution): ProcessRun {
    ProcessRun(item.0, item.1, sequence, e.exitCode, e.file)
  }

  /** The failure or the sinks that a validated report brings. */
  function TakeReport(st: RunState, report: Report, pairIndex: nat): RunState {
    if report.failure.None? then RecordSinks(st, report.results, pairIndex)
    else if report.failure.value.kind == MismatchFailure then
      st.(internalMismatchRows :=
            st.internalMismatchRows + {(report.failure.value.phase, report.failure.value.scenario)})
    else st.(executionFailed := true)
  }

  function NoteExit(st: RunState, exitCode: Option<int>): RunState {
    if exitCode != Some(0) && st.internalMismatchRows == {} then st.(executionFailed := true) else st
  }

  /** Compare the item's pair once both its processes have reported without failure. */
  function CompareIfComplete(st: RunState, pairIndex: nat): RunState {
    var b, c := FindReport(st.runs, pairIndex, Baseline), FindReport(st.runs, pairIndex, Candidate);
    if b.None? || c.None? || b.value.failure.Some? || c.value.failure.Some? then st
    else
      var cmp := ComparePair(b.value, c.value, pairIndex);
      if cmp.None? then Thrown(st)
      else MergeRows(st, cmp.value, RowKeysOf(b.value.method_.phaseScope)).(compared := st.compared + [pairIndex])
  }

  predicate EnvironmentDrifts(st: RunState, environment: Json) {
    st.referenceEnvironment.Some? && !SameSerialized(st.referenceEnvironment.value, environment)
  }

  function ProcessStep(a: Admission, st: RunState, item: PlannedItem, e: Execution): RunState {
    var run := MakeRun(item, |st.runs| + 1, e);
    var st1 := st.(runs := st.runs + [run]);
    if !RawReportOk(run, a) then Thrown(st1)
    else
      var environment := StableEnvironment(run.file.report.environment);
      if EnvironmentDrifts(st1, environment) then Thrown(st1)
      else
        var st2 := if st1.referenceEnvironment.None? then st1.(referenceEnvironment := Some(environment)) else st1;
        CompareIfComplete(NoteExit(TakeReport(st2, run.file.report, item.0), e.exitCode), item.0)
  }

  /** The state after `n` turns of the loop over the planned order; a stopped run takes no further turns. */
  function StateAfter(a: Admission, order: seq<PlannedItem>, world: nat -> Execution, n: nat): RunState
    requires n <= |order|
  {
    if n == 0 then INITIAL_STATE
    else
      var st := StateAfter(a, order, world, n - 1);
      if Stopped(st) then st else ProcessStep(a, st, order[n - 1], world(n - 1))
  }

  function FinalState(a: Admission, world: nat -> Execution): RunState {
    StateAfter(a, RunOrderForManifest(a.manifest), world, |RunOrderForManifest(a.manifest)|)
  }

  // ------------------------------------------------------------- outcome rows

  function SortedReals(s: seq<real>): seq<real> {
    SortBy(s, (x: real, y: real) => x <= y)
  }

  function Median(s: seq<real>): real
    requires s != []
  {
    SortedReals(s)[|s| / 2]
  }

  function Abs(x: real): real {
    if x < 0.0 then -x else x
  }

  function ClassifyConfirmationRow(deltas: seq<real>, threshold: real, p0Range: real): Status {
    if |deltas| != 3 then NeutralOrInconclusive
    else
      var magnitude := Median(Map(deltas, Abs));
      var clears := magnitude > threshold && magnitude > p0Range;
      if clears && forall i :: 0 <= i < |deltas| ==> deltas[i] < 0.0 then RepeatableSignal
      else if clears && forall i :: 0 <= i < |deltas| ==> deltas[i] > 0.0 then AdverseSignal
      else NeutralOrInconclusive
  }

  function DeltaMs(d: PairDelta): real {
    d.deltaMs
  }

  function BuildRow(a: Admission, st: RunState, k: RowKey, p0Range: real): OutcomeRow {
    var threshold := if k in a.thresholdByRow then Some(a.thresholdByRow[k]) else None;
    var pairs := DeltasOf(st.pairDeltas, k);
    var row := OutcomeRow(k.0, k.1, NotMeasured, threshold, p0Range, Matched, None, pairs);
    if k.0 !in a.executionPhaseScope then
      row.(practicalThresholdMs := None, sinkComparison := SinkNotMeasured, pairs := [])
    else if k in st.mismatchRows || k in st.internalMismatchRows then
      row.(status := SemanticMismatch, sinkComparison := Mismatch,
           semanticMismatchDetails := if k in st.mismatchDetails then Some(st.mismatchDetails[k]) else None)
    else if st.mismatchRows != {} || st.internalMismatchRows != {} then
      row.(sinkComparison := if |pairs| > 0 then Matched else SinkNotMeasured)
    else if st.executionFailed || |pairs| == 0 then row.(sinkComparison := SinkNotMeasured)
    else if a.manifest.candidate.kind == SelfComparison then row
    else if k.0 !in a.phaseScope then row.(practicalThresholdMs := None)
    else if a.manifest.stage == Screen then row.(status := NeutralOrInconclusive)
    else if a.manifest.stage == FullProfile then row.(status := NeutralOrInconclusive)
    else
      row.(status := ClassifyConfirmationRow(
             Map(pairs, DeltaMs), if threshold.Some? then threshold.value else 0.0, p0Range))
  }

  /** `buildOutcomeRows`: the first row without a P0 reference is an error. */
  function BuildRows(a: Admission, st: RunState, keys: seq<RowKey>): Result<seq<OutcomeRow>, RowKey> {
    if keys == [] then Success([])
    else if keys[0] !in a.p0ByRow then Failure(keys[0])
    else
      var rest := BuildRows(a, st, keys[1..]);
      if rest.Failure? then rest else Success([BuildRow(a, st, keys[0], a.p0ByRow[keys[0]])] + rest.value)
  }

  function BuildOutcomeRows(a: Admission, st: RunState): Result<seq<OutcomeRow>, RowKey> {
    BuildRows(a, st, AllRowKeys())
  }

  predicate HasStatus(rows: seq<OutcomeRow>, s: Status) {
    exists i :: 0 <= i < |rows| && rows[i].status == s
  }

  function AggregateStatus(rows: seq<OutcomeRow>): Status {
    if HasStatus(rows, SemanticMismatch) then SemanticMismatch
    else if HasStatus(rows, AdverseSignal) then AdverseSignal
    else if HasStatus(rows, RepeatableSignal) then RepeatableSignal
    else if HasStatus(rows, NeutralOrInconclusive) then NeutralOrInconclusive
    else NotMeasured
  }

  // -------------------------------------------------------------- the run as code

  /** The collections and flags a run updates in place. */
  class PairedRunner {
    const a: Admission
    var runs: seq<ProcessRun>
    var pairDeltas: map<RowKey, seq<PairDelta>>
    var mismatchRows: set<RowKey>
    var mismatchDetails: map<RowKey, seq<MismatchDetail>>
    var internalMismatchRows: set<RowKey>
    var referenceSinks: map<RowKey, Json>
    var referenceEnvironment: Option<Json>
    var executionFailed: bool
    var orchestrationFailed: bool
    ghost var compared: seq<nat>

    ghost function Contents(): RunState
      reads this
    {
      RunState(runs, pairDeltas, mismatchRows, mismatchDetails, internalMismatchRows, referenceSinks,
               referenceEnvironment, executionFailed, orchestrationFailed, compared)
    }

    constructor (a: Admission)
      ensures this.a == a && Contents() == INITIAL_STATE
    {
      this.a := a;
      runs, pairDeltas, mismatchRows, mismatchDetails := [], map[], {}, map[];
      internalMismatchRows, referenceSinks, referenceEnvironment := {}, map[], None;
      executionFailed, orchestrationFailed, compared := false, false, [];
    }

    method Throw()
      modifies this
      ensures Contents() == Thrown(old(Contents()))
    {
      executionFailed, orchestrationFailed := true, true;
    }

    method AppendMismatchDetail(k: RowKey, d: MismatchDetail)
      modifies this`mismatchDetails
      ensures mismatchDetails == AppendDetail(old(mismatchDetails), k, d)
    {
      hide SameSerialized;
      var existing := if k in mismatchDetails then mismatchDetails[k] else [];
      var i := 0;
      while i < |existing|
        invariant 0 <= i <= |existing|
        invariant forall j :: 0 <= j < i ==>
          !(existing[j].pairIndex == d.pairIndex && SameSerialized(existing[j].candidateSink, d.candidateSink))
      {
        if existing[i].pairIndex == d.pairIndex && SameSerialized(existing[i].candidateSink, d.candidateSink) {
          return;
        }
        i := i + 1;
      }
      mismatchDetails := mismatchDetails[k := existing + [d]];
    }

    method RecordReportSinks(rows: seq<ResultRow>, pairIndex: nat)
      modifies this`referenceSinks, this`mismatchRows, this`mismatchDetails
      ensures Contents() == RecordSinks(old(Contents()), rows, pairIndex)
    {
      hide SameSerialized, AppendDetail, RecordSinks;
      ghost var before := Contents();
      SinksStart(before, rows, pairIndex);
      for i := 0 to |rows|
        invariant Contents() == RecordSinks(before, rows[..i], pairIndex)
      {
        SinksGrow(before, rows, i, pairIndex);
        var k := ResultKey(rows[i]);
        if k !in referenceSinks {
          referenceSinks := referenceSinks[k := rows[i].semanticSink];
        } else if !SameSerialized(referenceSinks[k], rows[i].semanticSink) {
          mismatchRows := mismatchRows + {k};
          AppendMismatchDetail(k, MismatchDetail(pairIndex, referenceSinks[k], rows[i].semanticSink));
        }
      }
      assert rows[..|rows|] == rows;
    }

    method MergeComparison(cmp: Comparison, keys: seq<RowKey>)
      modifies this`pairDeltas, this`mismatchRows, this`mismatchDetails
      ensures Contents() == MergeRows(old(Contents()), cmp, keys)
    {
      hide AppendDetail, MergeRows;
      ghost var before := Contents();
      MergeStarts(before, cmp, keys);
      for i := 0 to |keys|
        invariant Contents() == MergeRows(before, cmp, keys[..i])
      {
        MergeGrows(before, cmp, keys, i);
        var k := keys[i];
        if k in cmp.mismatches {
          mismatchRows := mismatchRows + {k};
          AppendMismatchDetail(k, cmp.mismatches[k]);
        }
        if k in cmp.deltas {
          pairDeltas := pairDeltas[k := (if k in pairDeltas then pairDeltas[k] else []) + [cmp.deltas[k]]];
        }
      }
      assert keys[..|keys|] == keys;
    }

    method CompareCompletePair(pairIndex: nat)
      modifies this
      ensures Contents() == CompareIfComplete(old(Contents()), pairIndex)
    {
      hide FindReport, MergeRows, MeasuredAlike, CompareRows;
      var b, c := FindReport(runs, pairIndex, Baseline), FindReport(runs, pairIndex, Candidate);
      if b.Some? && c.Some? && b.value.failure.None? && c.value.failure.None? {
        if !MeasuredAlike(b.value, c.value) {
          Throw();
          return;
        }
        var cmp := CompareReports(b.value, c.value, pairIndex);
        MergeComparison(cmp, RowKeysOf(b.value.method_.phaseScope));
        compared := compared + [pairIndex];
      }
    }

    method RunProcess(item: PlannedItem, e: Execution)
      modifies this
      ensures Contents() == ProcessStep(a, old(Contents()), item, e)
    {
      hide RawReportOk, SameSerialized, StableEnvironment, CompareIfComplete, RecordSinks;
      var run := MakeRun(item, |runs| + 1, e);
      runs := runs + [run];
      if !RawReportOk(run, a) {
        Throw();
        return;
      }
      ParsedWhenOk(run, a);
      var report := run.file.report;
      var environment := StableEnvironment(report.environment);
      if referenceEnvironment.None? {
        referenceEnvironment := Some(environment);
      } else if !SameSerialized(referenceEnvironment.value, environment) {
        Throw();
        return;
      }
      if report.failure.Some? && report.failure.value.kind == MismatchFailure {
        internalMismatchRows := internalMismatchRows + {(report.failure.value.phase, report.failure.value.scenario)};
      } else if report.failure.Some? {
        executionFailed := true;
      } else {
        RecordReportSinks(report.results, item.0);
      }
      if e.exitCode != Some(0) && internalMismatchRows == {} {
        executionFailed := true;
      }
      CompareCompletePair(item.0);
    }

    method RunAll(world: nat -> Execution)
      requires Contents() == INITIAL_STATE
      modifies this
      ensures Contents() == FinalState(a, world)
    {
      hide ProcessStep;
      var order := RunOrderForManifest(a.manifest);
      for i := 0 to |order|
        invariant Contents() == StateAfter(a, order, world, i)
      {
        if mismatchRows != {} || internalMismatchRows != {} || executionFailed {
          StoppedStays(a, order, world, i, |order|);
          break;
        }
        RunProcess(order[i], world(i));
      }
    }
  }

  /** `comparePair` over every scenario of every executed phase. */
  method CompareReports(b: Report, c: Report, pairIndex: nat) returns (cmp: Comparison)
    ensures cmp == CompareRows(RowMap(b.results), RowMap(c.results), RowKeysOf(b.method_.phaseScope), pairIndex)
  {
    hide RowMap, SameSerialized, RowKeysOf, CompareRows;
    var bs, cs := RowMap(b.results), RowMap(c.results);
    var keys := RowKeysOf(b.method_.phaseScope);
    var deltas: map<RowKey, PairDelta> := map[];
    var mismatches: map<RowKey, MismatchDetail> := map[];
    CompareStarts(bs, cs, keys, pairIndex);
    for i := 0 to |keys|
      invariant Comparison(deltas, mismatches) == CompareRows(bs, cs, keys[..i], pairIndex)
    {
      CompareGrows(bs, cs, keys, i, pairIndex);
      var k := keys[i];
      if k in bs && k in cs {
        if !SameSerialized(bs[k].semanticSink, cs[k].semanticSink) {
          mismatches := mismatches[k := MismatchDetail(pairIndex, bs[k].semanticSink, cs[k].semanticSink)];
        } else {
          deltas := deltas[k := DeltaOf(pairIndex, bs[k], cs[k])];
        }
      }
    }
    assert keys[..|keys|] == keys;
    cmp := Comparison(deltas, mismatches);
  }

  // ------------------------------------------------------- one turn of each loop

  lemma SinksStart(st: RunState, rows: seq<ResultRow>, pairIndex: nat)
    ensures RecordSinks(st, rows[..0], pairIndex) == st
  {
  }

  lemma SinksGrow(st: RunState, rows: seq<ResultRow>, i: nat, pairIndex: nat)
    requires i < |rows|
    ensures RecordSinks(st, rows[..i + 1], pairIndex) ==
      RecordSink(RecordSinks(st, rows[..i], pairIndex), rows[i], pairIndex)
  {
    hide RecordSink;
    assert rows[..i + 1][..i] == rows[..i];
  }

  lemma MergeStarts(st: RunState, cmp: Comparison, keys: seq<RowKey>)
    ensures MergeRows(st, cmp, keys[..0]) == st
  {
  }

  lemma MergeGrows(st: RunState, cmp: Comparison, keys: seq<RowKey>, i: nat)
    requires i < |keys|
    ensures MergeRows(st, cmp, keys[..i + 1]) == MergeRow(MergeRows(st, cmp, keys[..i]), cmp, keys[i])
  {
    hide MergeRow;
    assert keys[..i + 1][..i] == keys[..i];
  }

  lemma CompareStarts(bs: map<RowKey, ResultRow>, cs: map<RowKey, ResultRow>, keys: seq<RowKey>, pairIndex: nat)
    ensures CompareRows(bs, cs, keys[..0], pairIndex) == Comparison(map[], map[])
  {
  }

  lemma CompareGrows(bs: map<RowKey, ResultRow>, cs: map<RowKey, ResultRow>, keys: seq<RowKey>, i: nat, pairIndex: nat)
    requires i < |keys|
    ensures CompareRows(bs, cs, keys[..i + 1], pairIndex) ==
      CompareRow(CompareRows(bs, cs, keys[..i], pairIndex), bs, cs, keys[i], pairIndex)
  {
    hide CompareRow;
    assert keys[..i + 1][..i] == keys[..i];
  }

  lemma ParsedWhenOk(run: ProcessRun, a: Admission)
    requires RawReportOk(run, a)
    ensures run.file.Parsed?
  {
  }

  lemma NextState(a: Admission, order: seq<PlannedItem>, world: nat -> Execution, n: nat)
    requires n < |order|
    ensures var st := StateAfter(a, order, world, n);
      StateAfter(a, order, world, n + 1) == if Stopped(st) then st else ProcessStep(a, st, order[n], world(n))
  {
    hide ProcessStep, Stopped;
  }

  lemma {:induction false} StoppedStays(a: Admission, order: seq<PlannedItem>, world: nat -> Execution, n: nat, m: nat)
    requires n <= m <= |order| && Stopped(StateAfter(a, order, world, n))
    ensures StateAfter(a, order, world, m) == StateAfter(a, order, world, n)
    decreases m - n
  {
    hide ProcessStep, Stopped, StateAfter;
    if n < m {
      StoppedStays(a, order, world, n, m - 1);
      NextState(a, order, world, m - 1);
    }
  }
}
