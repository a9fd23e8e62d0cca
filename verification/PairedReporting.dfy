/** What a paired run's record reports of it: rows, mismatch details, failures, and what should happen next. */
module PairedReporting {
  import opened Texts
  import opened Wrappers
  import opened StableSort
  import opened Json
  import opened PairedProtocol
  import opened PairedRun
  import opened PairedRunLaws
  import opened PairedVerdicts
  import opened PairedEvidence
  import opened PairedDeclarations

  // ------------------------------------------------------------ outcome rows

  /** What a row shows of a run's state: comparison, pairs, mismatch details, and the threshold of a declared row. */
  predicate ShowsState(st: RunState, k: RowKey, row: OutcomeRow, executed: bool, declared: bool) {
    var own := k in st.mismatchRows || k in st.internalMismatchRows;
    && row.phase == k.0 && row.scenario == k.1
    && (row.status == SemanticMismatch <==> executed && own)
    && (row.sinkComparison == Mismatch <==> executed && own)
    && (row.sinkComparison == Matched <==>
         executed && !own && DeltasOf(st.pairDeltas, k) != [] && (MismatchSeen(st) || !st.executionFailed))
    && row.pairs == (if executed then DeltasOf(st.pairDeltas, k) else [])
    && (row.semanticMismatchDetails.Some? <==> executed && own && k in st.mismatchDetails)
    && (row.semanticMismatchDetails.Some? ==> row.semanticMismatchDetails.value == st.mismatchDetails[k])
    && (row.practicalThresholdMs.Some? <==> declared)
  }

  lemma ClassifiedIsVerdict()
    ensures forall ds, threshold, p0Range :: IsVerdict(ClassifyConfirmationRow(ds, threshold, p0Range))
  {
    forall ds, threshold, p0Range ensures IsVerdict(ClassifyConfirmationRow(ds, threshold, p0Range)) {
      ClassifiedIff(ds, threshold, p0Range);
    }
  }

  lemma RowStatus(a: Admission, st: RunState, k: RowKey, p0Range: real)
    ensures var own := k in st.mismatchRows || k in st.internalMismatchRows;
      BuildRow(a, st, k, p0Range).status == SemanticMismatch <==> k.0 in a.executionPhaseScope && own
  {
    ClassifiedIsVerdict();
    hide ClassifyConfirmationRow;
  }

  lemma RowComparison(a: Admission, st: RunState, k: RowKey, p0Range: real)
    ensures var sinks := BuildRow(a, st, k, p0Range).sinkComparison;
      var own := k in st.mismatchRows || k in st.internalMismatchRows;
      && (sinks == Mismatch <==> k.0 in a.executionPhaseScope && own)
      && (sinks == Matched <==>
           && k.0 in a.executionPhaseScope && !own && DeltasOf(st.pairDeltas, k) != []
           && (MismatchSeen(st) || !st.executionFailed))
  {
    hide ClassifyConfirmationRow;
  }

  lemma RowEvidence(a: Admission, st: RunState, k: RowKey, p0Range: real)
    requires k in a.thresholdByRow <==> k.0 in a.phaseScope
    requires k.0 in a.phaseScope ==> k.0 in a.executionPhaseScope
    ensures var row := BuildRow(a, st, k, p0Range);
      && row.phase == k.0 && row.scenario == k.1 && row.p0RangeMs == p0Range
      && row.pairs == (if k.0 in a.executionPhaseScope then DeltasOf(st.pairDeltas, k) else [])
      && row.practicalThresholdMs == (if k.0 in a.phaseScope then Some(a.thresholdByRow[k]) else None)
  {
    hide ClassifyConfirmationRow;
  }

  lemma RowDetails(a: Admission, st: RunState, k: RowKey, p0Range: real)
    ensures var row := BuildRow(a, st, k, p0Range);
      var own := k in st.mismatchRows || k in st.internalMismatchRows;
      row.semanticMismatchDetails ==
        if k.0 in a.executionPhaseScope && own && k in st.mismatchDetails then Some(st.mismatchDetails[k]) else None
  {
    hide ClassifyConfirmationRow;
  }

  lemma AdmittedRow(m: Manifest, r: P0Reference, files: Surroundings, k: RowKey)
    requires ManifestShapeOk(m, r)
    ensures var a := Admit(m, r, files);
      && k in a.p0ByRow && (k in a.thresholdByRow <==> k.0 in m.phaseScope)
      && (k.0 in a.phaseScope <==> k.0 in m.phaseScope) && (k.0 in a.executionPhaseScope <==> Executes(m, k.0))
      && (forall t :: t in m.practicalThresholds && (t.phase, t.scenario) == k ==>
           k in a.thresholdByRow && a.thresholdByRow[k] == t.minimum)
      && (forall p :: p in r.rows && (p.phase, p.scenario) == k ==> a.p0ByRow[k] == p.rangeMs)
  {
    AdmissionIsAsDeclared(m, r, files);
    hide Admit, ManifestShapeOk, InPlace;
  }

  /** Each row shows what the run has seen of it, with the manifest's threshold and the reference's range. */
  lemma RowShows(m: Manifest, r: P0Reference, files: Surroundings, st: RunState, k: RowKey)
    requires ManifestShapeOk(m, r)
    ensures var a := Admit(m, r, files);
      && k in a.p0ByRow
      && var row := BuildRow(a, st, k, a.p0ByRow[k]);
      && ShowsState(st, k, row, Executes(m, k.0), k.0 in m.phaseScope)
      && (forall t :: t in m.practicalThresholds && (t.phase, t.scenario) == k ==>
           row.practicalThresholdMs == Some(t.minimum))
      && (forall p :: p in r.rows && (p.phase, p.scenario) == k ==> row.p0RangeMs == p.rangeMs)
  {
    hide Admit, ManifestShapeOk, BuildRow;
    var a := Admit(m, r, files);
    AdmittedRow(m, r, files, k);
    RowStatus(a, st, k, a.p0ByRow[k]);
    RowComparison(a, st, k, a.p0ByRow[k]);
    RowEvidence(a, st, k, a.p0ByRow[k]);
    RowDetails(a, st, k, a.p0ByRow[k]);
  }

  // --------------------------------------------- where mismatch details come from

  predicate ReportsSink(run: ProcessRun, k: RowKey, sink: Json) {
    && run.file.Parsed?
    && var rows := run.file.report.results;
       exists i :: 0 <= i < |rows| && ResultKey(rows[i]) == k && rows[i].semanticSink == sink
  }

  predicate ReportsSinkAt(runs: seq<ProcessRun>, n: nat, k: RowKey, sink: Json) {
    n < |runs| && ReportsSink(runs[n], k, sink)
  }

  /** The baseline of a detail was reported before the candidate, or by the baseline process of the candidate's pair. */
  predicate ComesBefore(runs: seq<ProcessRun>, i: nat, j: nat)
    requires i < |runs| && j < |runs|
  {
    var x, y := runs[i], runs[j];
    i <= j || (x.pairIndex == y.pairIndex && x.condition == Baseline && y.condition == Candidate)
  }

  ghost predicate DetailReported(runs: seq<ProcessRun>, k: RowKey, d: MismatchDetail) {
    exists i: nat, j: nat :: ReportsSinkAt(runs, i, k, d.baselineSink) && ReportsSinkAt(runs, j, k, d.candidateSink)
      && runs[j].pairIndex == d.pairIndex && ComesBefore(runs, i, j)
  }

  /** Every reference sink and every mismatch detail is what processes of the run have reported for that row. */
  ghost predicate Sourced(st: RunState) {
    && (forall k :: k in st.referenceSinks ==> exists n :: ReportsSinkAt(st.runs, n, k, st.referenceSinks[k]))
    && (forall k, d :: k in st.mismatchDetails && d in st.mismatchDetails[k] ==> DetailReported(st.runs, k, d))
  }

  lemma SourcesKept(st: RunState, st': RunState)
    requires Sourced(st) && st.runs <= st'.runs
    requires st'.referenceSinks == st.referenceSinks && st'.mismatchDetails == st.mismatchDetails
    ensures Sourced(st')
  {
    hide ReportsSink;
    forall k | k in st'.referenceSinks ensures exists n :: ReportsSinkAt(st'.runs, n, k, st'.referenceSinks[k]) {
      var n :| ReportsSinkAt(st.runs, n, k, st.referenceSinks[k]);
      assert ReportsSinkAt(st'.runs, n, k, st'.referenceSinks[k]);
    }
    forall k, d | k in st'.mismatchDetails && d in st'.mismatchDetails[k] ensures DetailReported(st'.runs, k, d) {
      var i: nat, j: nat :|
        ReportsSinkAt(st.runs, i, k, d.baselineSink) && ReportsSinkAt(st.runs, j, k, d.candidateSink) &&
        st.runs[j].pairIndex == d.pairIndex && ComesBefore(st.runs, i, j);
      assert ReportsSinkAt(st'.runs, i, k, d.baselineSink) && ReportsSinkAt(st'.runs, j, k, d.candidateSink);
    }
  }

  lemma DetailSourced(st: RunState, st': RunState, k: RowKey, d: MismatchDetail)
    requires Sourced(st) && DetailReported(st.runs, k, d) && st'.runs == st.runs
    requires st'.referenceSinks == st.referenceSinks && st'.mismatchDetails == AppendDetail(st.mismatchDetails, k, d)
    ensures Sourced(st')
  {
    hide DetailReported, ReportsSinkAt, AlreadyListed;
    forall key, e | key in st'.mismatchDetails && e in st'.mismatchDetails[key]
      ensures DetailReported(st'.runs, key, e)
    {
      assert (key in st.mismatchDetails && e in st.mismatchDetails[key]) || (key == k && e == d);
    }
  }

  /** Noting a detail loses none, touches no other row, and leaves one with its pair and candidate sink, added last. */
  lemma DetailIsNoted(m: map<RowKey, seq<MismatchDetail>>, k: RowKey, d: MismatchDetail)
    ensures var before, after := DetailsOf(m, k), DetailsOf(AppendDetail(m, k, d), k);
      && (after == before || after == before + [d])
      && (exists e :: e in after && SameDetail(e, d))
      && (after == before <==> exists e :: e in before && SameDetail(e, d))
      && forall l :: l != k ==> DetailsOf(AppendDetail(m, k, d), l) == DetailsOf(m, l)
  {
    hide SameSerialized;
    SameAsItself(d.candidateSink);
    var before := DetailsOf(m, k);
    if AlreadyListed(before, d) {
      var i :| 0 <= i < |before| && before[i].pairIndex == d.pairIndex &&
        SameSerialized(before[i].candidateSink, d.candidateSink);
      assert before[i] in before;
    } else {
      assert d in before + [d];
    }
  }

  lemma SinkTaken(st: RunState, row: ResultRow, p: nat)
    requires Sourced(st) && st.runs != [] && st.runs[|st.runs| - 1].pairIndex == p
    requires ReportsSink(st.runs[|st.runs| - 1], ResultKey(row), row.semanticSink)
    ensures Sourced(RecordSink(st, row, p)) && RecordSink(st, row, p).runs == st.runs
  {
    hide SameSerialized, AppendDetail, ReportsSink, DetailReported;
    var k, n := ResultKey(row), |st.runs| - 1;
    var st' := RecordSink(st, row, p);
    assert ReportsSinkAt(st.runs, n, k, row.semanticSink);
    if k !in st.referenceSinks {
      hide ReportsSinkAt;
      assert st'.mismatchDetails == st.mismatchDetails;
    } else if !SameSerialized(st.referenceSinks[k], row.semanticSink) {
      var d := MismatchDetail(p, st.referenceSinks[k], row.semanticSink);
      var i :| ReportsSinkAt(st.runs, i, k, st.referenceSinks[k]);
      DetailIs(st.runs, i, n, k, d);
      DetailSourced(st, st', k, d);
    } else {
      SourcesKept(st, st');
    }
  }

  lemma DetailIs(runs: seq<ProcessRun>, i: nat, j: nat, k: RowKey, d: MismatchDetail)
    requires ReportsSinkAt(runs, i, k, d.baselineSink) && ReportsSinkAt(runs, j, k, d.candidateSink)
    requires runs[j].pairIndex == d.pairIndex && ComesBefore(runs, i, j)
    ensures DetailReported(runs, k, d)
  {
  }

  lemma {:induction false} SinksTaken(st: RunState, rows: seq<ResultRow>, p: nat)
    requires Sourced(st) && st.runs != [] && st.runs[|st.runs| - 1].pairIndex == p
    requires forall row :: row in rows ==> ReportsSink(st.runs[|st.runs| - 1], ResultKey(row), row.semanticSink)
    ensures Sourced(RecordSinks(st, rows, p)) && RecordSinks(st, rows, p).runs == st.runs
  {
    hide Sourced, ReportsSink, RecordSink;
    if rows != [] {
      SinksTaken(st, rows[..|rows| - 1], p);
      SinkTaken(RecordSinks(st, rows[..|rows| - 1], p), rows[|rows| - 1], p);
    }
  }

  lemma {:induction false} ReportFound(runs: seq<ProcessRun>, p: nat, c: Condition) returns (n: nat)
    requires FindReport(runs, p, c).Some?
    ensures n < |runs| && runs[n].pairIndex == p && runs[n].condition == c
    ensures runs[n].file == Parsed(FindReport(runs, p, c).value)
  {
    if runs[0].pairIndex == p && runs[0].condition == c {
      n := 0;
    } else {
      var k := ReportFound(runs[1..], p, c);
      n := k + 1;
    }
  }

  lemma {:induction false} MergeSourced(st: RunState, cmp: Comparison, keys: seq<RowKey>)
    requires Sourced(st)
    requires forall k :: k in cmp.mismatches ==> DetailReported(st.runs, k, cmp.mismatches[k])
    ensures Sourced(MergeRows(st, cmp, keys)) && MergeRows(st, cmp, keys).runs == st.runs
  {
    hide AppendDetail, AppendDelta, Sourced, DetailReported;
    if keys != [] {
      var st', k := MergeRows(st, cmp, keys[..|keys| - 1]), keys[|keys| - 1];
      MergeSourced(st, cmp, keys[..|keys| - 1]);
      if k in cmp.mismatches {
        DetailSourced(st', MergeRow(st', cmp, k), k, cmp.mismatches[k]);
      } else {
        SourcesKept(st', MergeRow(st', cmp, k));
      }
    }
  }

  lemma ComparisonReported(runs: seq<ProcessRun>, i: nat, j: nat, keys: seq<RowKey>, p: nat, k: RowKey)
    requires i < |runs| && j < |runs| && runs[i].file.Parsed? && runs[j].file.Parsed?
    requires runs[i].pairIndex == p == runs[j].pairIndex && runs[i].condition == Baseline
    requires runs[j].condition == Candidate
    ensures var cmp := CompareRows(RowMap(runs[i].file.report.results), RowMap(runs[j].file.report.results), keys, p);
      k in cmp.mismatches ==> DetailReported(runs, k, cmp.mismatches[k])
  {
    hide CompareRows, RowMap, SameSerialized, ShowsDelta;
    var xs, ys := runs[i].file.report.results, runs[j].file.report.results;
    ComparisonOfRow(RowMap(xs), RowMap(ys), keys, p, k);
    RowMapHas(xs, k);
    RowMapHas(ys, k);
    var cmp := CompareRows(RowMap(xs), RowMap(ys), keys, p);
    if k in cmp.mismatches {
      DetailIs(runs, i, j, k, cmp.mismatches[k]);
    }
  }

  lemma CompareSourced(st: RunState, p: nat)
    requires Sourced(st)
    ensures Sourced(CompareIfComplete(st, p))
  {
    hide MergeRows, MeasuredAlike, CompareRows, FindReport, RowKeysOf, RowMap, Sourced, DetailReported;
    var b, c := FindReport(st.runs, p, Baseline), FindReport(st.runs, p, Candidate);
    SourcesKept(st, Thrown(st));
    if b.Some? && c.Some? && MeasuredAlike(b.value, c.value) {
      var i := ReportFound(st.runs, p, Baseline);
      var j := ReportFound(st.runs, p, Candidate);
      var keys := RowKeysOf(b.value.method_.phaseScope);
      var cmp := CompareRows(RowMap(b.value.results), RowMap(c.value.results), keys, p);
      forall k | k in cmp.mismatches ensures DetailReported(st.runs, k, cmp.mismatches[k]) {
        ComparisonReported(st.runs, i, j, keys, p, k);
      }
      MergeSourced(st, cmp, keys);
      SourcesKept(MergeRows(st, cmp, keys), MergeRows(st, cmp, keys).(compared := st.compared + [p]));
    }
  }

  lemma TakingSourced(st: RunState, run: ProcessRun)
    requires Sourced(st) && run.file.Parsed?
    ensures Sourced(ReportedState(st, run))
  {
    hide RecordSinks, Sourced, StableEnvironment, ReportsSink, NoteExit;
    var rep := run.file.report;
    var st1 := st.(runs := st.runs + [run]);
    var st2 := if st1.referenceEnvironment.None?
      then st1.(referenceEnvironment := Some(StableEnvironment(rep.environment))) else st1;
    SourcesKept(st, st2);
    var st3 := TakeReport(st2, rep, run.pairIndex);
    if rep.failure.None? {
      RowsAreReported(run);
      SinksTaken(st2, rep.results, run.pairIndex);
    } else {
      SourcesKept(st2, st3);
    }
    ExitKeepsSources(st3, run.exitCode);
  }

  lemma ExitKeepsSources(st: RunState, exitCode: Option<int>)
    requires Sourced(st)
    ensures Sourced(NoteExit(st, exitCode))
  {
    hide Sourced;
    SourcesKept(st, NoteExit(st, exitCode));
  }

  lemma RowsAreReported(run: ProcessRun)
    requires run.file.Parsed?
    ensures forall row :: row in run.file.report.results ==> ReportsSink(run, ResultKey(row), row.semanticSink)
  {
  }

  lemma StepSourced(a: Admission, st: RunState, item: PlannedItem, e: Execution)
    requires Sourced(st)
    ensures Sourced(ProcessStep(a, st, item, e))
  {
    hide RawReportOk, EnvironmentDrifts, StableEnvironment, CompareIfComplete, Sourced, TakeReport, NoteExit;
    var run := MakeRun(item, |st.runs| + 1, e);
    SourcesKept(st, Thrown(st.(runs := st.runs + [run])));
    if RawReportOk(run, a) {
      ParsedWhenOk(run, a);
      TakingSourced(st, run);
      CompareSourced(ReportedState(st, run), item.0);
    }
  }

  /** In every state of every run, each mismatch detail shows sinks that processes of the run reported for that row. */
  lemma {:induction false} DetailsAreReported(a: Admission, order: seq<PlannedItem>, world: World, n: nat)
    requires n <= |order|
    ensures Sourced(StateAfter(a, order, world, n))
  {
    hide ProcessStep, Stopped;
    if n > 0 {
      DetailsAreReported(a, order, world, n - 1);
      NextState(a, order, world, n - 1);
      hide Sourced;
      StepSourced(a, StateAfter(a, order, world, n - 1), order[n - 1], world(n - 1));
    }
  }

  // ------------------------------------------------- faults, off the last report

  /** The runner itself gave up: the last report was not accepted, or could not be compared with its partner's. */
  predicate RunnerGaveUp(a: Admission, first: ProcessRun, previous: ProcessRun, last: ProcessRun, second: bool) {
    || !Accepted(a, first, last)
    || (second && last.file.report.failure.None? && !PairAlike(previous, last))
  }

  /** The last process failed by its own account or its exit code, other than over a mismatch it named. */
  predicate ProcessFailed(last: ProcessRun) {
    var failure := if last.file.Parsed? then last.file.report.failure else None;
    if failure.Some? && failure.value.kind == MismatchFailure then false
    else failure.Some? || last.exitCode != Some(0)
  }

  lemma TakenFault(st: RunState, run: ProcessRun)
    requires Quiet(st) && run.file.Parsed?
    ensures var st' := ReportedState(st, run);
      && !st'.orchestrationFailed && (st'.executionFailed <==> ProcessFailed(run)) && st'.runs == st.runs + [run]
  {
    hide RecordSinks, StableEnvironment;
    var st1 := st.(runs := st.runs + [run]);
    var st2 := if st1.referenceEnvironment.None?
      then st1.(referenceEnvironment := Some(StableEnvironment(run.file.report.environment))) else st1;
    SinksFrame(st2, run.file.report.results, run.pairIndex);
  }

  lemma {:induction false} MergeKeepsFlags(st: RunState, cmp: Comparison, keys: seq<RowKey>)
    ensures var st' := MergeRows(st, cmp, keys);
      st'.executionFailed == st.executionFailed && st'.orchestrationFailed == st.orchestrationFailed
  {
    hide AppendDetail, AppendDelta;
    if keys != [] {
      MergeKeepsFlags(st, cmp, keys[..|keys| - 1]);
    }
  }

  /** Comparing a pair is a fault exactly when both reports are there without failure and were not measured alike. */
  lemma ComparedFault(st: RunState, p: nat)
    ensures var b, c := FindReport(st.runs, p, Baseline), FindReport(st.runs, p, Candidate);
      var unlike := b.Some? && c.Some? && b.value.failure.None? && c.value.failure.None? &&
        !MeasuredAlike(b.value, c.value);
      var st' := CompareIfComplete(st, p);
      && (st'.executionFailed <==> st.executionFailed || unlike)
      && (st'.orchestrationFailed <==> st.orchestrationFailed || unlike)
  {
    hide MergeRows, MeasuredAlike, CompareRows, FindReport, RowKeysOf, RowMap;
    var b, c := FindReport(st.runs, p, Baseline), FindReport(st.runs, p, Candidate);
    if b.Some? && c.Some? && MeasuredAlike(b.value, c.value) {
      var keys := RowKeysOf(b.value.method_.phaseScope);
      MergeKeepsFlags(st, CompareRows(RowMap(b.value.results), RowMap(c.value.results), keys, p), keys);
    }
  }

  lemma RejectedFault(a: Admission, st: RunState, item: PlannedItem, e: Execution)
    ensures var run := MakeRun(item, |st.runs| + 1, e);
      !(RawReportOk(run, a) && run.file.Parsed? &&
        !EnvironmentDrifts(st, StableEnvironment(run.file.report.environment))) ==>
        ProcessStep(a, st, item, e).executionFailed && ProcessStep(a, st, item, e).orchestrationFailed
  {
    hide RawReportOk, StableEnvironment, CompareIfComplete, RecordSinks, SameSerialized;
    var run := MakeRun(item, |st.runs| + 1, e);
    if RawReportOk(run, a) {
      ParsedWhenOk(run, a);
    }
  }

  lemma PairFault(order: seq<PlannedItem>, world: World, n: nat, st: RunState)
    requires PairedOrder(order) && n < |order| && st.runs == RunsUpTo(order, world, n + 1)
    requires RunAt(order, world, n).file.Parsed?
    requires n % 2 == 1 ==>
      RunAt(order, world, n - 1).file.Parsed? && RunAt(order, world, n - 1).file.report.failure.None?
    ensures var st', run := CompareIfComplete(st, order[n].0), RunAt(order, world, n);
      var unlike := n % 2 == 1 && run.file.report.failure.None? && !PairAlike(RunAt(order, world, n - 1), run);
      && (st'.executionFailed <==> st.executionFailed || unlike)
      && (st'.orchestrationFailed <==> st.orchestrationFailed || unlike)
  {
    hide FindReport, CompareIfComplete, MeasuredAlike;
    PairReports(order, world, n);
    ComparedFault(st, order[n].0);
  }

  /** The faults after a turn from a clean state, read off its process. */
  lemma TurnFaults(a: Admission, order: seq<PlannedItem>, world: World, n: nat, st: RunState)
    requires n < |order| && PairedOrder(order) && Tracks(a, order, world, n, st)
    ensures var run, first := RunAt(order, world, n), RunAt(order, world, 0);
      var previous := if n % 2 == 1 then RunAt(order, world, n - 1) else run;
      var st' := ProcessStep(a, st, order[n], world(n));
      && (st'.orchestrationFailed <==> RunnerGaveUp(a, first, previous, run, n % 2 == 1))
      && (st'.executionFailed <==> st'.orchestrationFailed || ProcessFailed(run))
  {
    hide RawReportOk, SinksAgree, SinksOf, RecordSinks, StableEnvironment, DeltasTracked, PairAlike, ProcessStep,
      CompareIfComplete, ReportedState, FindReport, SameSerialized, ProcessFailed, PairedOrder;
    var run, first := RunAt(order, world, n), RunAt(order, world, 0);
    StepOf(a, st, order[n], world(n));
    RejectedFault(a, st, order[n], world(n));
    if RawReportOk(run, a) && run.file.Parsed? {
      if n > 0 {
        assert CleanStep(a, order, world, 0) && CleanStep(a, order, world, n - 1);
        ParsedWhenOk(first, a);
        ParsedWhenOk(RunAt(order, world, n - 1), a);
      }
      EnvironmentKept(order, world, n, st);
      if SameEnvironment(first.file.report, run.file.report) {
        TakenFault(st, run);
        PairFault(order, world, n, ReportedState(st, run));
      }
    }
  }

  /** The runner gave up on the last process, or the process failed. */
  predicate LastFailed(a: Admission, runs: seq<ProcessRun>)
    requires runs != []
  {
    LastGaveUp(a, runs) || ProcessFailed(runs[|runs| - 1])
  }

  predicate LastGaveUp(a: Admission, runs: seq<ProcessRun>)
    requires runs != []
  {
    var t := |runs|;
    RunnerGaveUp(a, runs[0], if t % 2 == 0 then runs[t - 2] else runs[t - 1], runs[t - 1], t % 2 == 0)
  }

  lemma LastProcessDecides(a: Admission, order: seq<PlannedItem>, world: World)
    requires PairedOrder(order) && Distinct(a.executionPhaseScope) && order != []
    ensures var st := StateAfter(a, order, world, |order|);
      && st.runs != []
      && (st.orchestrationFailed <==> LastGaveUp(a, st.runs)) && (st.executionFailed <==> LastFailed(a, st.runs))
  {
    hide CleanStep, CleanUpTo, Stopped, StateAfter, Tracks, PairedOrder, Distinct, ProcessStep, RunnerGaveUp,
      ProcessFailed;
    FirstFault(a, order, world);
    ExecutedIsPlannedPrefix(a, order, world, |order|);
    var st := StateAfter(a, order, world, |order|);
    var t := |st.runs|;
    CleanStates(a, order, world, t - 1);
    NextState(a, order, world, t - 1);
    TurnFaults(a, order, world, t - 1, StateAfter(a, order, world, t - 1));
  }

  // ------------------------------------------------------------ the decision

  lemma FinalFaults(m: Manifest, r: P0Reference, files: Surroundings, world: World)
    ensures var a := Admit(m, r, files);
      var st := FinalState(a, world);
      && st.runs != []
      && (st.orchestrationFailed <==> LastGaveUp(a, st.runs)) && (st.executionFailed <==> LastFailed(a, st.runs))
  {
    OrdersArePaired(m);
    AdmittedScopeDistinct(m, r, files);
    hide StateAfter, Admit, RunOrderForManifest, PairedOrder, Distinct, LastGaveUp, LastFailed;
    FinalOf(m, r, files, world);
    LastProcessDecides(Admit(m, r, files), RunOrderForManifest(m), world);
  }

  lemma EscalationIs(a: Admission, st: RunState, rec: Record)
    requires RecordOf(a, st) == Success(rec)
    ensures rec.escalationDecision == Escalation(a, st, rec.status)
  {
    hide BuildOutcomeRows, NormalizeThresholds, CommandOf, ArtifactIndex, ProcessFailures, AggregateStatus,
      RunOrderForManifest, Escalation;
  }

  predicate DecidesOn(m: Manifest, failed: bool, status: Status, next: string) {
    var open := !failed && status != SemanticMismatch;
    && (next == "repair_runner_or_environment_then_rerun" <==> failed)
    && (next == "reject_or_repair_candidate" <==> !failed && status == SemanticMismatch)
    && (next == "demonstration_only" <==> open && m.candidate.kind == SelfComparison)
    && (next == "human_decision_required_before_confirmation" <==>
         open && m.candidate.kind == RealCandidate && m.stage == Screen)
    && (next == "human_adoption_rejection_or_defer_decision" <==>
         open && m.candidate.kind == RealCandidate && m.stage == FullProfile)
    && (next == "full_profile_required_before_adoption" <==> status == RepeatableSignal)
  }

  lemma DecisionsDiffer()
    ensures |"repair_runner_or_environment_then_rerun"| == 39 && |"reject_or_repair_candidate"| == 26
    ensures |"demonstration_only"| == 18 && |"human_decision_required_before_confirmation"| == 43
    ensures |"human_adoption_rejection_or_defer_decision"| == 42 && |"full_profile_required_before_adoption"| == 37
    ensures |"reject_defer_or_human_directed_escalation"| == 41
  {
  }

  lemma DecisionLength(a: Admission, st: RunState, status: Status)
    ensures |Escalation(a, st, status)| ==
      if st.executionFailed then 39 else if status == SemanticMismatch then 26
      else if a.manifest.candidate.kind == SelfComparison then 18
      else if a.manifest.stage == Screen then 43 else if a.manifest.stage == FullProfile then 42
      else if status == RepeatableSignal then 37 else 41
  {
    DecisionsDiffer();
  }

  lemma DecisionTaken(a: Admission, st: RunState, status: Status)
    requires status == RepeatableSignal ==>
      !st.executionFailed && a.manifest.candidate.kind == RealCandidate && a.manifest.stage == Confirmation
    ensures DecidesOn(a.manifest, st.executionFailed, status, Escalation(a, st, status))
  {
    DecisionsDiffer();
    DecisionLength(a, st, status);
  }

  lemma SignalsAreConfirmed(m: Manifest, r: P0Reference, files: Surroundings, world: World)
    requires ManifestShapeOk(m, r) && RunStatus(m, r, files, world) == RepeatableSignal
    ensures !FinalState(Admit(m, r, files), world).executionFailed
    ensures m.candidate.kind == RealCandidate && m.stage == Confirmation
  {
    hide Admit, FinalState, ManifestShapeOk, RunStatus, CleanRun, Tracks;
    StatusIff(m, r, files, world);
    GoesThroughIffClean(m, r, files, world);
  }

  /** What the record says should happen next, for every run, by its last process and its status. */
  lemma EscalationIff(m: Manifest, r: P0Reference, files: Surroundings, world: World)
    requires ManifestShapeOk(m, r)
    ensures var runs := FinalState(Admit(m, r, files), world).runs;
      var rec := RecordOfRun(m, r, files, world);
      && runs != []
      && DecidesOn(m, LastFailed(Admit(m, r, files), runs), rec.status, rec.escalationDecision)
  {
    var a := Admit(m, r, files);
    assert a.manifest == m;
    var st, rec := FinalState(a, world), RecordOfRun(m, r, files, world);
    hide Admit, FinalState, RecordOf, ManifestShapeOk, LastFailed, RunStatus, SaysRun, SaysManifest, DecidesOn,
      Escalation;
    FinalFaults(m, r, files, world);
    RecordWritten(m, r, files, st);
    EscalationIs(a, st, rec);
    StatusSaid(m, r, files, world);
    if rec.status == RepeatableSignal {
      SignalsAreConfirmed(m, r, files, world);
    }
    DecisionTaken(a, st, rec.status);
  }

  // ------------------------------------------------------------- the failures

  /** The failure record of a process: who it was, how it ended, and what it reported. */
  predicate TellsOf(f: FailureRecord, run: ProcessRun) {
    && f.ProcessFailure? && f.sequence == run.sequence && f.pairIndex == run.pairIndex && f.condition == run.condition
    && f.exitCode == run.exitCode && f.failure == if run.file.Parsed? then run.file.report.failure else None
  }

  predicate EndedBadly(run: ProcessRun) {
    run.exitCode != Some(0) || (run.file.Parsed? && run.file.report.failure.Some?)
  }

  lemma {:induction false} ProcessFailuresTell(a: Admission, runs: seq<ProcessRun>)
    ensures var fs := ProcessFailures(a, runs);
      && (forall run :: run in runs && EndedBadly(run) ==> exists f :: f in fs && TellsOf(f, run))
      && (forall f :: f in fs ==> exists run :: run in runs && EndedBadly(run) && TellsOf(f, run))
    ensures RunnerFailure !in ProcessFailures(a, runs)
  {
    hide ProcessPath;
    if runs != [] {
      var rest := runs[1..];
      ProcessFailuresTell(a, rest);
      var fs, gs := ProcessFailures(a, runs), ProcessFailures(a, rest);
      forall run | run in runs && EndedBadly(run) ensures exists f :: f in fs && TellsOf(f, run) {
        if run == runs[0] {
          assert TellsOf(fs[0], run) && fs[0] in fs;
        } else {
          var f :| f in gs && TellsOf(f, run);
          assert f in fs;
        }
      }
      forall f | f in fs ensures exists run :: run in runs && EndedBadly(run) && TellsOf(f, run) {
        if f in gs {
          var run :| run in rest && EndedBadly(run) && TellsOf(f, run);
          assert run in runs;
        } else {
          assert TellsOf(f, runs[0]);
        }
      }
    }
  }

  /** The record's failures are those of the processes that ended badly, and the runner's own when it gave up. */
  lemma FailuresAreRecorded(m: Manifest, r: P0Reference, files: Surroundings, world: World)
    requires ManifestShapeOk(m, r)
    ensures var a := Admit(m, r, files);
      var runs, failures := FinalState(a, world).runs, RecordOfRun(m, r, files, world).failures;
      && runs != []
      && (forall run :: run in runs && EndedBadly(run) ==> exists f :: f in failures && TellsOf(f, run))
      && (forall f :: f in failures && f.ProcessFailure? ==>
           exists run :: run in runs && EndedBadly(run) && TellsOf(f, run))
      && (RunnerFailure in failures <==> LastGaveUp(a, runs))
  {
    var a := Admit(m, r, files);
    var st := FinalState(a, world);
    hide Admit, FinalState, RecordOfRun, ManifestShapeOk, LastFailed, LastGaveUp, RunStatus, SaysManifest, EndedBadly,
      TellsOf, ProcessFailures, BuildOutcomeRows, AggregateStatus;
    FinalFaults(m, r, files, world);
    StatusSaid(m, r, files, world);
    ProcessFailuresTell(a, st.runs);
  }

  // ----------------------------------------------------------- started processes

  function ConditionOption(c: Condition): string {
    match c
    case Baseline => "--condition=baseline"
    case Candidate => "--condition=candidate"
  }

  lemma ConditionTold(c: Condition)
    ensures "--condition=" + ConditionText(c) == ConditionOption(c)
  {
  }

  lemma ProfileTold(p: ProfileName)
    ensures "--profile=" + ProfileText(p) == if p == Full then "--profile=full" else "--profile=pr"
  {
  }

  lemma ArgumentsAre(a: Admission, run: ProcessRun)
    ensures var args := ProcessArgs(a, run);
      var m := a.manifest;
      && |args| == 8
      && args[1] == (if run.condition == Baseline then m.baselineDirectory else m.candidateDirectory) + "/" +
           BENCHMARK_SOURCE
      && args[2] == "--profile=" + ProfileText(a.profile) && args[4] == "--condition=" + ConditionText(run.condition)
      && args[5] == "--candidate-id=" + m.candidate.id && args[6] == "--pair-index=" + Digits(run.pairIndex)
  {
    hide Digits, JoinPhases, OutputPath, ReportName, ConditionText, ProfileText;
  }

  /** A process runs its condition's own checkout and is told its condition, pair, candidate and profile. */
  lemma StartedForItsCondition(m: Manifest, r: P0Reference, files: Surroundings, run: ProcessRun)
    ensures var args := ProcessArgs(Admit(m, r, files), run);
      var checkout := match run.condition case Baseline => m.baselineDirectory case Candidate => m.candidateDirectory;
      && |args| == 8 && args[1] == checkout + "/" + "benchmarks/ast-analysis-phase-benchmark.ts"
      && args[2] == (if m.stage == FullProfile then "--profile=full" else "--profile=pr")
      && args[4] == ConditionOption(run.condition)
      && args[5] == "--candidate-id=" + m.candidate.id && args[6] == "--pair-index=" + Digits(run.pairIndex)
  {
    var a := Admit(m, r, files);
    AdmittedMethod(m, r, files);
    hide Admit, ProcessArgs, Digits, ConditionText, ProfileText, ConditionOption, DeclaredSampling;
    ArgumentsAre(a, run);
    ConditionTold(run.condition);
    ProfileTold(a.profile);
  }

  /** The phases a process is told are joined by commas, in order. */
  lemma {:induction false} PhasesAreJoined(ps: seq<Phase>, qs: seq<Phase>)
    requires ps != [] && qs != []
    ensures JoinPhases(ps + qs) == JoinPhases(ps) + "," + JoinPhases(qs)
    ensures |ps| == 1 ==> JoinPhases(ps) == PhaseText(ps[0])
  {
    hide PhaseText;
    var all := ps + qs;
    if |ps| == 1 {
      assert all[1..] == qs;
    } else {
      assert all[1..] == ps[1..] + qs;
      PhasesAreJoined(ps[1..], qs);
    }
  }

  /** A process's command record: where it stood and ended, and of its report the path if there was one, and the rest if
      it could be read. */
  predicate CommandTells(c: Command, files: Surroundings, run: ProcessRun) {
    var stem := "tmp/ast-analysis-paired-runs/" + files.runId + "/" + Stem(run);
    && c.sequence == run.sequence && c.pairIndex == run.pairIndex && c.condition == run.condition == c.cwdRole
    && c.exitCode == run.exitCode && c.processPath == stem + ".process.json"
    && c.reportPath == (match run.file case Missing => None case _ => Some(stem + ".json"))
    && c.commit == (match run.file case Parsed(rep) => Some(rep.commit) case _ => None)
    && c.environment == (match run.file case Parsed(rep) => Some(rep.environment) case _ => None)
  }

  lemma OutputNamed(files: Surroundings, run: ProcessRun, suffix: string)
    ensures RelativeOutput(files, Stem(run) + suffix) ==
      "tmp/ast-analysis-paired-runs/" + files.runId + "/" + Stem(run) + suffix
  {
    RelativeIs(files, Stem(run) + suffix);
    hide RelativeOutput, Stem;
    assert OUTPUT_ROOT + "/" == "tmp/ast-analysis-paired-runs/";
  }

  /** The record has one command for each executed process, in order, that tells of it. */
  lemma CommandsTellOfRuns(m: Manifest, r: P0Reference, files: Surroundings, world: World)
    requires ManifestShapeOk(m, r)
    ensures var runs := FinalState(Admit(m, r, files), world).runs;
      var commands := RecordOfRun(m, r, files, world).commands;
      |commands| == |runs| && forall i :: 0 <= i < |runs| ==> CommandTells(commands[i], files, runs[i])
  {
    hide Admit, FinalState, RecordOfRun, ManifestShapeOk, SaysRun, CommandTells, CommandOf;
    var a := Admit(m, r, files);
    var runs, commands := FinalState(a, world).runs, RecordOfRun(m, r, files, world).commands;
    StatusSaid(m, r, files, world);
    CommandsSaid(a, FinalState(a, world), RecordOfRun(m, r, files, world));
    FilesAdmitted(m, r, files);
    forall i | 0 <= i < |runs| ensures CommandTells(commands[i], files, runs[i]) {
      CommandTellsOf(a, runs[i]);
    }
  }

  lemma CommandsSaid(a: Admission, st: RunState, rec: Record)
    requires SaysRun(a, st, rec)
    ensures |rec.commands| == |st.runs|
    ensures forall i :: 0 <= i < |st.runs| ==> rec.commands[i] == CommandOf(a, st.runs[i])
  {
    hide CommandOf, BuildOutcomeRows, AggregateStatus, ArtifactIndex, ProcessFailures;
  }

  lemma FilesAdmitted(m: Manifest, r: P0Reference, files: Surroundings)
    ensures Admit(m, r, files).files == files
  {
  }

  lemma CommandTellsOf(a: Admission, run: ProcessRun)
    ensures CommandTells(CommandOf(a, run), a.files, run)
  {
    OutputNamed(a.files, run, ".json");
    OutputNamed(a.files, run, ".process.json");
    hide RecordedArgs, RelativeOutput, Stem;
  }

  /** The files of a process are named by its number, its pair and its condition. */
  lemma StemSays(run: ProcessRun)
    requires 0 < run.sequence < 10
    ensures Stem(run) == "0" + Digits(run.sequence) + "-pair-" + Digits(run.pairIndex) +
      match run.condition case Baseline => "-baseline" case Candidate => "-candidate"
  {
    assert "-" + "baseline" == "-baseline" && "-" + "candidate" == "-candidate";
    hide Digits;
    OneDigit(run.sequence);
  }

  lemma OneDigit(n: nat)
    requires n < 10
    ensures |Digits(n)| == 1
  {
  }
}
