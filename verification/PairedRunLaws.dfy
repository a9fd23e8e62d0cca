/** What holds over every paired run: which processes run, when the run stops, and what its delta lists are. */
module PairedRunLaws {
  import opened Wrappers
  import opened StableSort
  import opened Json
  import opened StableJson
  import opened PairedProtocol
  import opened PairedRun

  type World = nat -> Execution

  function RunAt(order: seq<PlannedItem>, world: World, j: nat): ProcessRun
    requires j < |order|
  {
    MakeRun(order[j], j + 1, world(j))
  }

  function RunsUpTo(order: seq<PlannedItem>, world: World, n: nat): (r: seq<ProcessRun>)
    requires n <= |order|
    ensures |r| == n && forall j :: 0 <= j < n ==> r[j] == RunAt(order, world, j)
  {
    seq(n, j requires 0 <= j < n => RunAt(order, world, j))
  }

  // --------------------------------------- what a run must be like to go on

  /** Both orders run pair after pair, the two conditions of a pair next to each other. */
  ghost predicate PairedOrder(order: seq<PlannedItem>) {
    forall i :: 0 <= i < |order| ==> order[i].0 == i / 2 + 1 && (i % 2 == 1 ==> order[i].1 != order[i - 1].1)
  }

  /** The report validates, carries no failure, and its process exited with 0. */
  predicate FineRun(a: Admission, run: ProcessRun) {
    RawReportOk(run, a) && run.file.report.failure.None? && run.exitCode == Some(0)
  }

  predicate SameEnvironment(r: Report, s: Report) {
    SameSerialized(StableEnvironment(r.environment), StableEnvironment(s.environment))
  }

  /** Rows of the two reports for one phase and scenario have the same semantic sink. */
  predicate SinksAgree(r: Report, s: Report) {
    forall i, j :: 0 <= i < |r.results| && 0 <= j < |s.results| &&
                    ResultKey(r.results[i]) == ResultKey(s.results[j]) ==>
      SameSerialized(r.results[i].semanticSink, s.results[j].semanticSink)
  }

  predicate AgreesWith(first: ProcessRun, run: ProcessRun) {
    first.file.Parsed? && run.file.Parsed? &&
    SameEnvironment(first.file.report, run.file.report) && SinksAgree(first.file.report, run.file.report)
  }

  function BaselineOf(x: ProcessRun, y: ProcessRun): ProcessRun {
    if x.condition == Baseline then x else y
  }

  function CandidateOf(x: ProcessRun, y: ProcessRun): ProcessRun {
    if x.condition == Baseline then y else x
  }

  predicate PairAlike(x: ProcessRun, y: ProcessRun) {
    var b, c := BaselineOf(x, y), CandidateOf(x, y);
    b.file.Parsed? && c.file.Parsed? && MeasuredAlike(b.file.report, c.file.report)
  }

  /** The process at index `j` is fine, agrees with the first one, and was measured like its partner. */
  predicate CleanStep(a: Admission, order: seq<PlannedItem>, world: World, j: nat)
    requires j < |order|
  {
    PairedAt(order, world, j) && FineRun(a, RunAt(order, world, j)) &&
      AgreesWith(RunAt(order, world, 0), RunAt(order, world, j))
  }

  /** The second process of a pair was measured like the first. */
  predicate PairedAt(order: seq<PlannedItem>, world: World, j: nat)
    requires j < |order|
  {
    j % 2 == 1 ==> PairAlike(RunAt(order, world, j - 1), RunAt(order, world, j))
  }

  predicate CleanUpTo(a: Admission, order: seq<PlannedItem>, world: World, n: nat)
    requires n <= |order|
  {
    forall j :: 0 <= j < n ==> CleanStep(a, order, world, j)
  }

  // ------------------------------------------------------- frames of the steps

  predicate OnlySinks(st: RunState, st': RunState) {
    st' == st.(referenceSinks := st'.referenceSinks, mismatchRows := st'.mismatchRows,
      mismatchDetails := st'.mismatchDetails) &&
    st.mismatchRows <= st'.mismatchRows
  }

  predicate OnlyMerged(st: RunState, st': RunState) {
    st' == st.(pairDeltas := st'.pairDeltas, mismatchRows := st'.mismatchRows,
      mismatchDetails := st'.mismatchDetails) &&
    st.mismatchRows <= st'.mismatchRows
  }

  lemma {:induction false} SinksFrame(st: RunState, rows: seq<ResultRow>, p: nat)
    ensures OnlySinks(st, RecordSinks(st, rows, p))
  {
    hide SameSerialized, AppendDetail;
    if rows != [] {
      SinksFrame(st, rows[..|rows| - 1], p);
    }
  }

  lemma {:induction false} MergeFrame(st: RunState, cmp: Comparison, keys: seq<RowKey>)
    ensures OnlyMerged(st, MergeRows(st, cmp, keys))
  {
    hide AppendDetail, AppendDelta;
    if keys != [] {
      MergeFrame(st, cmp, keys[..|keys| - 1]);
    }
  }

  /** A comparison keeps the processes and never lifts a stop. */
  lemma CompareFrame(st: RunState, p: nat)
    ensures var st' := CompareIfComplete(st, p); st'.runs == st.runs && (Stopped(st) ==> Stopped(st'))
  {
    hide MergeRows, ComparePair, FindReport, RowKeysOf;
    var b, c := FindReport(st.runs, p, Baseline), FindReport(st.runs, p, Candidate);
    if b.Some? && c.Some? {
      var cmp := ComparePair(b.value, c.value, p);
      if cmp.Some? {
        MergeFrame(st, cmp.value, RowKeysOf(b.value.method_.phaseScope));
      }
    }
  }

  lemma TakingKeepsRuns(st: RunState, report: Report, p: nat, exitCode: Option<int>)
    ensures var st' := NoteExit(TakeReport(st, report, p), exitCode);
      && st'.runs == st.runs && st'.pairDeltas == st.pairDeltas && st'.compared == st.compared
      && st.mismatchRows <= st'.mismatchRows
  {
    hide RecordSinks;
    SinksFrame(st, report.results, p);
  }

  lemma StepAddsRun(a: Admission, st: RunState, item: PlannedItem, e: Execution)
    ensures ProcessStep(a, st, item, e).runs == st.runs + [MakeRun(item, |st.runs| + 1, e)]
  {
    hide RawReportOk, EnvironmentDrifts, StableEnvironment, CompareIfComplete, TakeReport, NoteExit;
    var run := MakeRun(item, |st.runs| + 1, e);
    if RawReportOk(run, a) {
      ParsedWhenOk(run, a);
      var st1 := st.(runs := st.runs + [run]);
      var environment := StableEnvironment(run.file.report.environment);
      var st2 := if st1.referenceEnvironment.None? then st1.(referenceEnvironment := Some(environment)) else st1;
      TakingKeepsRuns(st2, run.file.report, item.0, e.exitCode);
      CompareFrame(NoteExit(TakeReport(st2, run.file.report, item.0), e.exitCode), item.0);
    }
  }

  /**
   * The executed processes are a prefix of the planned order, numbered from 1, and the run took turns exactly up to
   * the process that stopped it.
   */
  lemma {:induction false} ExecutedIsPlannedPrefix(a: Admission, order: seq<PlannedItem>, world: World, n: nat)
    requires n <= |order|
    ensures var st := StateAfter(a, order, world, n);
      && |st.runs| <= n && st.runs == RunsUpTo(order, world, |st.runs|)
      && (!Stopped(st) ==> |st.runs| == n)
      && StateAfter(a, order, world, |st.runs|) == st
      && forall j :: 0 <= j < |st.runs| ==> !Stopped(StateAfter(a, order, world, j))
  {
    hide ProcessStep, Stopped;
    if n == 0 {
      assert Stopped(INITIAL_STATE) == false by { NothingStopsBeforeTheStart(); }
    } else {
      ExecutedIsPlannedPrefix(a, order, world, n - 1);
      var st := StateAfter(a, order, world, n - 1);
      if !Stopped(st) {
        StepAddsRun(a, st, order[n - 1], world(n - 1));
        NextState(a, order, world, n - 1);
      }
    }
  }

  lemma NothingStopsBeforeTheStart()
    ensures !Stopped(INITIAL_STATE)
  {
  }

  // -------------------------------------------------------------- the sinks

  /** Each row's sink is recorded under its key, and nothing else is. */
  ghost predicate SinksOf(refs: map<RowKey, Json>, rows: seq<ResultRow>) {
    && (forall k :: k in refs <==> k in Map(rows, ResultKey))
    && (forall i :: 0 <= i < |rows| ==> ResultKey(rows[i]) in refs && refs[ResultKey(rows[i])] == rows[i].semanticSink)
  }

  lemma DistinctKeysButLast(rows: seq<ResultRow>)
    requires rows != [] && Distinct(Map(rows, ResultKey))
    ensures var n := |rows| - 1;
      Distinct(Map(rows[..n], ResultKey)) && ResultKey(rows[n]) !in Map(rows[..n], ResultKey) &&
      Map(rows, ResultKey) == Map(rows[..n], ResultKey) + [ResultKey(rows[n])]
  {
    var n, keys := |rows| - 1, Map(rows, ResultKey);
    assert Map(rows[..n], ResultKey) == keys[..n];
    assert forall i :: 0 <= i < n ==> keys[i] != keys[n];
  }

  lemma SinksGrowByRow(refs: map<RowKey, Json>, rows: seq<ResultRow>, row: ResultRow)
    requires SinksOf(refs, rows) && ResultKey(row) !in Map(rows, ResultKey)
    requires Map(rows + [row], ResultKey) == Map(rows, ResultKey) + [ResultKey(row)]
    ensures SinksOf(refs[ResultKey(row) := row.semanticSink], rows + [row])
  {
    hide ResultKey;
  }

  lemma {:induction false} FirstSinksRecorded(st: RunState, rows: seq<ResultRow>, p: nat)
    requires st.referenceSinks == map[] && Distinct(Map(rows, ResultKey))
    ensures var st' := RecordSinks(st, rows, p);
      st' == st.(referenceSinks := st'.referenceSinks) && SinksOf(st'.referenceSinks, rows)
  {
    if rows != [] {
      var n := |rows| - 1;
      DistinctKeysButLast(rows);
      FirstSinksRecorded(st, rows[..n], p);
      assert rows == rows[..n] + [rows[n]];
      hide SameSerialized, AppendDetail, Distinct, Map;
      SinksGrowByRow(RecordSinks(st, rows[..n], p).referenceSinks, rows[..n], rows[n]);
    }
  }

  /** Every row has the sink recorded under its key. */
  predicate MatchesRecorded(refs: map<RowKey, Json>, rows: seq<ResultRow>) {
    forall i :: 0 <= i < |rows| ==>
      ResultKey(rows[i]) in refs && SameSerialized(refs[ResultKey(rows[i])], rows[i].semanticSink)
  }

  lemma {:induction false} LaterSinksCompared(st: RunState, rows: seq<ResultRow>, p: nat)
    requires st.mismatchRows == {} && forall i :: 0 <= i < |rows| ==> ResultKey(rows[i]) in st.referenceSinks
    ensures var st' := RecordSinks(st, rows, p);
      && st'.referenceSinks == st.referenceSinks
      && (st'.mismatchRows == {} <==> MatchesRecorded(st.referenceSinks, rows))
      && (st'.mismatchRows == {} ==> st' == st)
  {
    hide SameSerialized, AppendDetail;
    if rows != [] {
      LaterSinksCompared(st, rows[..|rows| - 1], p);
    }
  }

  /** Agreeing with the recorded first sinks is agreeing with the first report. */
  lemma RecordedIsFirst(refs: map<RowKey, Json>, first: Report, r: Report)
    requires SinksOf(refs, first.results) && forall i :: 0 <= i < |r.results| ==> ResultKey(r.results[i]) in refs
    ensures MatchesRecorded(refs, r.results) <==> SinksAgree(first, r)
  {
    hide SameSerialized;
    if SinksAgree(first, r) {
      forall i | 0 <= i < |r.results|
        ensures SameSerialized(refs[ResultKey(r.results[i])], r.results[i].semanticSink)
      {
        var keys := Map(first.results, ResultKey);
        assert ResultKey(r.results[i]) in keys;
        var j :| 0 <= j < |keys| && keys[j] == ResultKey(r.results[i]);
        assert ResultKey(first.results[j]) == ResultKey(r.results[i]);
      }
    }
  }

  lemma SinksAgreeWithinPair(first: Report, x: Report, y: Report, i: nat, j: nat)
    requires SinksAgree(first, x) && SinksAgree(first, y)
    requires i < |x.results| && j < |y.results| && ResultKey(x.results[i]) == ResultKey(y.results[j])
    requires ResultKey(x.results[i]) in Map(first.results, ResultKey)
    ensures SameSerialized(x.results[i].semanticSink, y.results[j].semanticSink)
  {
    var keys := Map(first.results, ResultKey);
    var k :| 0 <= k < |keys| && keys[k] == ResultKey(x.results[i]);
    assert SameSerialized(first.results[k].semanticSink, x.results[i].semanticSink);
    assert SameSerialized(first.results[k].semanticSink, y.results[j].semanticSink);
    assert SameSerialized(x.results[i].semanticSink, y.results[j].semanticSink) by {
      hide StableSerialize;
    }
  }

  // -------------------------------------------------------- comparing a pair

  lemma {:induction false} RowMapHas(rows: seq<ResultRow>, k: RowKey)
    ensures k in RowMap(rows) <==> k in Map(rows, ResultKey)
    ensures k in RowMap(rows) ==> exists i :: 0 <= i < |rows| && rows[i] == RowMap(rows)[k] && ResultKey(rows[i]) == k
  {
    if rows != [] {
      var n := |rows| - 1;
      RowMapHas(rows[..n], k);
      assert Map(rows, ResultKey) == Map(rows[..n], ResultKey) + [ResultKey(rows[n])];
      if k != ResultKey(rows[n]) && k in RowMap(rows[..n]) {
        var i :| 0 <= i < n && rows[..n][i] == RowMap(rows[..n])[k] && ResultKey(rows[..n][i]) == k;
        assert rows[i] == RowMap(rows)[k];
      } else if k == ResultKey(rows[n]) {
        assert rows[n] == RowMap(rows)[k];
      }
    }
  }

  /** `r` is `x` rounded to nine decimals, halves upwards. */
  predicate IsRounded9(x: real, r: real) {
    var n := r * 1000000000.0;
    n.Floor as real == n && -0.5 <= x * 1000000000.0 - n < 0.5
  }

  /** `d` is the candidate's mean of a row minus the baseline's, and says which of the two is faster. */
  predicate ShowsDelta(d: PairDelta, p: nat, b: ResultRow, c: ResultRow) {
    && d.pairIndex == p && d.baselineMeanMs == b.stats.meanMs && d.candidateMeanMs == c.stats.meanMs
    && IsRounded9(c.stats.meanMs - b.stats.meanMs, d.deltaMs)
    && (d.direction == Favorable <==> d.deltaMs < 0.0) && (d.direction == Adverse <==> 0.0 < d.deltaMs)
  }

  lemma RoundingIs(x: real, r: real)
    ensures IsRounded9(x, r) <==> r == Round9(x)
  {
    var n, y := r * 1000000000.0, x * 1000000000.0;
    if n.Floor as real == n && -0.5 <= y - n < 0.5 {
      assert (y + 0.5).Floor == n.Floor;
    }
    if r == Round9(x) {
      assert n == (y + 0.5).Floor as real;
    }
  }

  lemma DeltaIsShown(d: PairDelta, p: nat, b: ResultRow, c: ResultRow)
    ensures ShowsDelta(d, p, b, c) <==> d == DeltaOf(p, b, c)
  {
    hide Round9, IsRounded9;
    RoundingIs(c.stats.meanMs - b.stats.meanMs, d.deltaMs);
    RoundingIs(c.stats.meanMs - b.stats.meanMs, Round9(c.stats.meanMs - b.stats.meanMs));
  }

  /** What a comparison says of one row. */
  predicate ComparedAs(cmp: Comparison, bs: map<RowKey, ResultRow>, cs: map<RowKey, ResultRow>, keys: seq<RowKey>,
                       p: nat, k: RowKey) {
    var both := k in keys && k in bs && k in cs;
    var same := both && SameSerialized(bs[k].semanticSink, cs[k].semanticSink);
    && (k in cmp.deltas <==> same) && (same ==> ShowsDelta(cmp.deltas[k], p, bs[k], cs[k]))
    && (k in cmp.mismatches <==> both && !same)
    && (k in cmp.mismatches ==> cmp.mismatches[k] == MismatchDetail(p, bs[k].semanticSink, cs[k].semanticSink))
  }

  lemma {:induction false} ComparisonOfRow(bs: map<RowKey, ResultRow>, cs: map<RowKey, ResultRow>, keys: seq<RowKey>,
                                           p: nat, k: RowKey)
    ensures ComparedAs(CompareRows(bs, cs, keys, p), bs, cs, keys, p, k)
  {
    hide SameSerialized, DeltaOf, ShowsDelta;
    if keys != [] {
      var n := |keys| - 1;
      ComparisonOfRow(bs, cs, keys[..n], p, k);
      if k in bs && k in cs {
        DeltaIsShown(DeltaOf(p, bs[k], cs[k]), p, bs[k], cs[k]);
      }
      assert keys == keys[..n] + [keys[n]];
    }
  }

  /** What merging a comparison adds to one row: its delta, once, or a mismatch. */
  predicate MergedAs(st: RunState, cmp: Comparison, keys: seq<RowKey>, st': RunState, k: RowKey) {
    && DeltasOf(st'.pairDeltas, k) ==
         DeltasOf(st.pairDeltas, k) + (if k in keys && k in cmp.deltas then [cmp.deltas[k]] else [])
    && (k in st'.mismatchRows <==> k in st.mismatchRows || (k in keys && k in cmp.mismatches))
  }

  lemma MergeRowOfRow(st: RunState, cmp: Comparison, key: RowKey, k: RowKey)
    ensures MergedAs(st, cmp, [key], MergeRow(st, cmp, key), k)
  {
    hide AppendDetail;
  }

  lemma MergedTwice(st: RunState, cmp: Comparison, keys: seq<RowKey>, st1: RunState, key: RowKey, st2: RunState,
                    k: RowKey)
    requires key !in keys && MergedAs(st, cmp, keys, st1, k) && MergedAs(st1, cmp, [key], st2, k)
    ensures MergedAs(st, cmp, keys + [key], st2, k)
  {
    hide DeltasOf;
    assert k in keys + [key] <==> k in keys || k == key;
    assert k in [key] <==> k == key;
  }

  lemma LastIsNew(keys: seq<RowKey>)
    requires keys != [] && Distinct(keys)
    ensures var n := |keys| - 1; Distinct(keys[..n]) && keys[n] !in keys[..n] && keys == keys[..n] + [keys[n]]
  {
  }

  lemma MergeLast(st: RunState, cmp: Comparison, keys: seq<RowKey>)
    requires keys != []
    ensures MergeRows(st, cmp, keys) == MergeRow(MergeRows(st, cmp, keys[..|keys| - 1]), cmp, keys[|keys| - 1])
  {
    hide MergeRow;
  }

  lemma {:induction false} MergeOfRow(st: RunState, cmp: Comparison, keys: seq<RowKey>, k: RowKey)
    requires Distinct(keys)
    ensures MergedAs(st, cmp, keys, MergeRows(st, cmp, keys), k)
  {
    if keys == [] {
      hide AppendDelta, AppendDetail;
    } else {
      hide MergeRow, MergeRows, Distinct, MergedAs;
      var n := |keys| - 1;
      LastIsNew(keys);
      MergeOfRow(st, cmp, keys[..n], k);
      MergeLast(st, cmp, keys);
      MergeRowOfRow(MergeRows(st, cmp, keys[..n]), cmp, keys[n], k);
      MergedTwice(st, cmp, keys[..n], MergeRows(st, cmp, keys[..n]), keys[n], MergeRows(st, cmp, keys), k);
    }
  }

  lemma {:induction false} MergeWithoutMismatch(st: RunState, cmp: Comparison, keys: seq<RowKey>)
    requires cmp.mismatches == map[]
    ensures var st' := MergeRows(st, cmp, keys); st' == st.(pairDeltas := st'.pairDeltas)
  {
    hide AppendDetail, AppendDelta;
    if keys != [] {
      MergeWithoutMismatch(st, cmp, keys[..|keys| - 1]);
    }
  }

  // ------------------------------------------------- finding the pair's reports

  function FileReport(run: ProcessRun): Option<Report> {
    if run.file.Parsed? then Some(run.file.report) else None
  }

  lemma {:induction false} FindSkips(runs: seq<ProcessRun>, m: nat, p: nat, c: Condition)
    requires m <= |runs| && forall j :: 0 <= j < m ==> runs[j].pairIndex != p || runs[j].condition != c
    ensures FindReport(runs, p, c) == FindReport(runs[m..], p, c)
  {
    if m > 0 {
      FindSkips(runs[1..], m - 1, p, c);
      assert runs[1..][m - 1..] == runs[m..];
    }
  }

  /** The reports of the pair that the last process belongs to. */
  lemma PairReports(order: seq<PlannedItem>, world: World, n: nat)
    requires PairedOrder(order) && n < |order|
    ensures var runs, p, x := RunsUpTo(order, world, n + 1), order[n].0, RunAt(order, world, n);
      && (n % 2 == 0 ==> FindReport(runs, p, Baseline).None? || FindReport(runs, p, Candidate).None?)
      && (n % 2 == 1 ==>
        var y := RunAt(order, world, n - 1);
        FindReport(runs, p, Baseline) == FileReport(BaselineOf(y, x)) &&
        FindReport(runs, p, Candidate) == FileReport(CandidateOf(y, x)))
  {
    hide FindReport;
    var runs, p := RunsUpTo(order, world, n + 1), order[n].0;
    var m := if n % 2 == 0 then n else n - 1;
    assert forall j :: 0 <= j < m ==> runs[j].pairIndex == j / 2 + 1 < p;
    FindSkips(runs, m, p, Baseline);
    FindSkips(runs, m, p, Candidate);
    if n % 2 == 0 {
      assert runs[m..] == [RunAt(order, world, n)];
      FindInOne(RunAt(order, world, n), p);
    } else {
      assert runs[m..] == [RunAt(order, world, n - 1), RunAt(order, world, n)];
      FindInTwo(RunAt(order, world, n - 1), RunAt(order, world, n), p);
    }
  }

  lemma FindInOne(x: ProcessRun, p: nat)
    ensures FindReport([x], p, Baseline).None? || FindReport([x], p, Candidate).None?
  {
  }

  lemma FindInTwo(x: ProcessRun, y: ProcessRun, p: nat)
    requires x.pairIndex == p && y.pairIndex == p && x.condition != y.condition
    ensures FindReport([x, y], p, Baseline) == FileReport(BaselineOf(x, y))
    ensures FindReport([x, y], p, Candidate) == FileReport(CandidateOf(x, y))
  {
    assert [x, y][1..] == [y];
    assert [y][1..] == [];
  }

  // ------------------------------------------------ the state of a clean run

  /** `d` compares the two processes' rows for `k`. */
  predicate IsDelta(d: PairDelta, x: ProcessRun, y: ProcessRun, k: RowKey, p: nat) {
    var b, c := BaselineOf(x, y), CandidateOf(x, y);
    && b.file.Parsed? && c.file.Parsed?
    && k in RowMap(b.file.report.results) && k in RowMap(c.file.report.results)
    && ShowsDelta(d, p, RowMap(b.file.report.results)[k], RowMap(c.file.report.results)[k])
  }

  /** One delta per pair, in pair order. */
  predicate DeltasAre(ds: seq<PairDelta>, order: seq<PlannedItem>, world: World, k: RowKey, m: nat)
    requires 2 * m <= |order|
  {
    |ds| == m && forall p :: 0 <= p < m ==>
      IsDelta(ds[p], RunAt(order, world, 2 * p), RunAt(order, world, 2 * p + 1), k, p + 1)
  }

  function Upto(m: nat): (r: seq<nat>)
    ensures |r| == m && forall i :: 0 <= i < m ==> r[i] == i + 1
  {
    seq(m, i => i + 1)
  }

  /** The first process fixes the environment and the sinks. */
  ghost predicate FirstTracked(order: seq<PlannedItem>, world: World, n: nat, st: RunState)
    requires n <= |order|
  {
    if n == 0 then st.referenceEnvironment == None && st.referenceSinks == map[]
    else
      var first := RunAt(order, world, 0);
      && first.file.Parsed? && st.referenceEnvironment == Some(StableEnvironment(first.file.report.environment))
      && SinksOf(st.referenceSinks, first.file.report.results)
  }

  predicate DeltasTracked(a: Admission, order: seq<PlannedItem>, world: World, n: nat, st: RunState, k: RowKey)
    requires n <= |order|
  {
    if k.0 in a.executionPhaseScope then DeltasAre(DeltasOf(st.pairDeltas, k), order, world, k, n / 2)
    else DeltasOf(st.pairDeltas, k) == []
  }

  predicate Quiet(st: RunState) {
    !Stopped(st) && st.mismatchDetails == map[] && !st.orchestrationFailed
  }

  ghost predicate Tracks(a: Admission, order: seq<PlannedItem>, world: World, n: nat, st: RunState)
    requires n <= |order|
  {
    && CleanUpTo(a, order, world, n) && st.runs == RunsUpTo(order, world, n) && Quiet(st)
    && FirstTracked(order, world, n, st) && st.compared == Upto(n / 2)
    && forall k :: DeltasTracked(a, order, world, n, st, k)
  }

  // -------------------------------------------------------- one clean process

  lemma FineCoversScope(a: Admission, run: ProcessRun, k: RowKey)
    requires FineRun(a, run)
    ensures var rows := run.file.report.results;
      (k in Map(rows, ResultKey) <==> k.0 in a.executionPhaseScope) &&
        (k in RowMap(rows) <==> k.0 in a.executionPhaseScope)
      && Distinct(Map(rows, ResultKey))
  {
    var rows, keys := run.file.report.results, RowKeysOf(a.executionPhaseScope);
    assert RowsComplete(rows, keys);
    hide RawReportOk, RowKeysOf, RowMap;
    RowMapHas(rows, k);
    RowKeysAre(a.executionPhaseScope, k);
    if k in keys {
      CoversAllRows(Map(rows, ResultKey), keys, k);
    }
  }

  lemma SelfAgrees(run: ProcessRun)
    requires run.file.Parsed? && Distinct(Map(run.file.report.results, ResultKey))
    ensures SinksAgree(run.file.report, run.file.report)
  {
    hide SameSerialized, ResultKey;
    var rows := run.file.report.results;
    var keys := Map(rows, ResultKey);
    forall i, j | 0 <= i < |rows| && 0 <= j < |rows| && ResultKey(rows[i]) == ResultKey(rows[j])
      ensures SameSerialized(rows[i].semanticSink, rows[j].semanticSink)
    {
      assert keys[i] == keys[j];
      assert i == j;
      SameAsItself(rows[i].semanticSink);
    }
  }

  lemma SameAsItself(v: Json)
    ensures SameSerialized(v, v)
  {
  }

  /** Taking a valid report leaves the run going exactly when it is fine and its sinks agree with the first report's. */
  lemma ReportTaken(a: Admission, order: seq<PlannedItem>, world: World, n: nat, st: RunState)
    requires n < |order| && Quiet(st) && (n > 0 ==> FineRun(a, RunAt(order, world, 0)))
    requires var run := RunAt(order, world, n); RawReportOk(run, a) && run.file.Parsed?
    requires if n == 0 then st.referenceSinks == map[]
             else SinksOf(st.referenceSinks, RunAt(order, world, 0).file.report.results)
    ensures var run, first := RunAt(order, world, n), RunAt(order, world, 0);
      var st' := NoteExit(TakeReport(st, run.file.report, order[n].0), run.exitCode);
      && (!Stopped(st') <==> FineRun(a, run) && SinksAgree(first.file.report, run.file.report))
      && (!Stopped(st') ==>
           st' == st.(referenceSinks := st'.referenceSinks) && SinksOf(st'.referenceSinks, first.file.report.results))
  {
    hide RawReportOk, SinksAgree, SinksOf, RecordSinks;
    var run, first := RunAt(order, world, n), RunAt(order, world, 0);
    var rows := run.file.report.results;
    SinksFrame(st, rows, order[n].0);
    if run.file.report.failure.None? && run.exitCode == Some(0) {
      FineCoversScope(a, run, (RendererPrint, TrackedCustomerSummary));
      if n == 0 {
        FirstSinksRecorded(st, rows, order[n].0);
        SelfAgrees(run);
      } else {
        RecordedSinksCompared(a, first, run, st, order[n].0);
      }
    }
  }

  lemma RecordedSinksCompared(a: Admission, first: ProcessRun, run: ProcessRun, st: RunState, p: nat)
    requires FineRun(a, first) && FineRun(a, run) && Quiet(st) && SinksOf(st.referenceSinks, first.file.report.results)
    ensures var st' := RecordSinks(st, run.file.report.results, p);
      && st'.referenceSinks == st.referenceSinks
      && (st'.mismatchRows == {} <==> SinksAgree(first.file.report, run.file.report))
      && (st'.mismatchRows == {} ==> st' == st)
  {
    hide RawReportOk, RecordSinks, SinksAgree, MatchesRecorded;
    ParsedWhenOk(first, a);
    ParsedWhenOk(run, a);
    var rows := run.file.report.results;
    forall i | 0 <= i < |rows| ensures ResultKey(rows[i]) in st.referenceSinks {
      RowKeyRecorded(a, first, run, st.referenceSinks, i);
    }
    LaterSinksCompared(st, rows, p);
    RecordedIsFirst(st.referenceSinks, first.file.report, run.file.report);
  }

  lemma RowKeyRecorded(a: Admission, first: ProcessRun, run: ProcessRun, refs: map<RowKey, Json>, i: nat)
    requires FineRun(a, first) && FineRun(a, run) && SinksOf(refs, first.file.report.results) &&
      i < |run.file.report.results|
    ensures ResultKey(run.file.report.results[i]) in refs
  {
    hide RawReportOk, RowMap;
    ParsedWhenOk(run, a);
    var k := ResultKey(run.file.report.results[i]);
    FineCoversScope(a, first, k);
    FineCoversScope(a, run, k);
    assert Map(run.file.report.results, ResultKey)[i] == k;
  }

  // ------------------------------------------------------------ one clean pair

  lemma CleanComparison(a: Admission, first: ProcessRun, b: ProcessRun, c: ProcessRun, p: nat, k: RowKey)
    requires FineRun(a, first) && FineRun(a, b) && FineRun(a, c)
    requires SinksAgree(first.file.report, b.file.report) && SinksAgree(first.file.report, c.file.report)
    ensures var bs, cs := RowMap(b.file.report.results), RowMap(c.file.report.results);
      var cmp := CompareRows(bs, cs, RowKeysOf(a.executionPhaseScope), p);
      && k !in cmp.mismatches && (k in cmp.deltas <==> k.0 in a.executionPhaseScope)
      && (k.0 in a.executionPhaseScope ==> k in bs && k in cs && ShowsDelta(cmp.deltas[k], p, bs[k], cs[k]))
  {
    hide RawReportOk, SinksAgree, CompareRows, RowKeysOf, RowMap, ShowsDelta;
    ParsedWhenOk(first, a);
    ParsedWhenOk(b, a);
    ParsedWhenOk(c, a);
    var bs, cs := RowMap(b.file.report.results), RowMap(c.file.report.results);
    ComparisonOfRow(bs, cs, RowKeysOf(a.executionPhaseScope), p, k);
    RowKeysAre(a.executionPhaseScope, k);
    FineCoversScope(a, first, k);
    FineCoversScope(a, b, k);
    FineCoversScope(a, c, k);
    if k.0 in a.executionPhaseScope {
      RowMapHas(b.file.report.results, k);
      RowMapHas(c.file.report.results, k);
      var i :| 0 <= i < |b.file.report.results| && b.file.report.results[i] == bs[k] &&
        ResultKey(b.file.report.results[i]) == k;
      var j :| 0 <= j < |c.file.report.results| && c.file.report.results[j] == cs[k] &&
        ResultKey(c.file.report.results[j]) == k;
      SinksAgreeWithinPair(first.file.report, b.file.report, c.file.report, i, j);
    }
  }

  lemma PhaseScopeWhenOk(run: ProcessRun, a: Admission)
    requires RawReportOk(run, a)
    ensures run.file.Parsed? && run.file.report.method_.phaseScope == a.executionPhaseScope
  {
  }

  /** The merged deltas of a clean pair: one for each executed row. */
  predicate PairMerged(a: Admission, st: RunState, st': RunState, x: ProcessRun, y: ProcessRun, p: nat, k: RowKey) {
    var before, after := DeltasOf(st.pairDeltas, k), DeltasOf(st'.pairDeltas, k);
    if k.0 in a.executionPhaseScope then
      |after| == |before| + 1 && after[..|before|] == before && IsDelta(after[|before|], x, y, k, p)
    else after == before
  }

  /** The second process of a pair leaves a going run going exactly when the pair was measured alike. */
  lemma PairCompared(a: Admission, first: ProcessRun, x: ProcessRun, y: ProcessRun, st: RunState, p: nat)
    requires Distinct(a.executionPhaseScope) && Quiet(st)
    requires FineRun(a, first) && FineRun(a, x) && FineRun(a, y)
    requires SinksAgree(first.file.report, x.file.report) && SinksAgree(first.file.report, y.file.report)
    requires FindReport(st.runs, p, Baseline) == FileReport(BaselineOf(x, y))
    requires FindReport(st.runs, p, Candidate) == FileReport(CandidateOf(x, y))
    ensures var st' := CompareIfComplete(st, p);
      && (Stopped(st') <==> !PairAlike(x, y))
      && (!Stopped(st') ==>
        && st' == st.(pairDeltas := st'.pairDeltas, compared := st.compared + [p])
        && forall k :: PairMerged(a, st, st', x, y, p, k))
  {
    hide RawReportOk, SinksAgree, CompareRows, RowKeysOf, RowMap, ShowsDelta, MeasuredAlike, MergeRows, FindReport;
    ParsedWhenOk(x, a);
    ParsedWhenOk(y, a);
    var b, c := BaselineOf(x, y), CandidateOf(x, y);
    if PairAlike(x, y) {
      PhaseScopeWhenOk(b, a);
      var keys := RowKeysOf(a.executionPhaseScope);
      var cmp := CompareRows(RowMap(b.file.report.results), RowMap(c.file.report.results), keys, p);
      forall k ensures k !in cmp.mismatches {
        CleanComparison(a, first, b, c, p, k);
      }
      assert cmp.mismatches == map[];
      MergeWithoutMismatch(st, cmp, keys);
      RowKeysDistinct(a.executionPhaseScope);
      var st' := CompareIfComplete(st, p);
      forall k ensures PairMerged(a, st, st', x, y, p, k) {
        CleanComparison(a, first, b, c, p, k);
        MergeOfRow(st, cmp, keys, k);
        RowKeysAre(a.executionPhaseScope, k);
      }
    }
  }

  // ------------------------------------------------------------- the clean run

  /** The state when a valid report has been taken and its environment recorded. */
  function ReportedState(st: RunState, run: ProcessRun): RunState
    requires run.file.Parsed?
  {
    var environment := StableEnvironment(run.file.report.environment);
    var st1 := st.(runs := st.runs + [run]);
    var st2 := if st1.referenceEnvironment.None? then st1.(referenceEnvironment := Some(environment)) else st1;
    NoteExit(TakeReport(st2, run.file.report, run.pairIndex), run.exitCode)
  }

  predicate SameDeltas(st: RunState, st': RunState) {
    st'.pairDeltas == st.pairDeltas && st'.compared == st.compared && st.mismatchRows <= st'.mismatchRows
  }

  predicate SameMismatchSets(st: RunState, st': RunState) {
    st'.mismatchRows == st.mismatchRows && st'.internalMismatchRows == st.internalMismatchRows
  }

  lemma StepOf(a: Admission, st: RunState, item: PlannedItem, e: Execution)
    ensures var run := MakeRun(item, |st.runs| + 1, e);
      var st' := ProcessStep(a, st, item, e);
      if RawReportOk(run, a) && run.file.Parsed? &&
        !EnvironmentDrifts(st, StableEnvironment(run.file.report.environment))
      then st' == CompareIfComplete(ReportedState(st, run), item.0)
      else Stopped(st') && SameDeltas(st, st') && SameMismatchSets(st, st')
  {
    hide RawReportOk, StableEnvironment, CompareIfComplete, RecordSinks, SameSerialized;
    var run := MakeRun(item, |st.runs| + 1, e);
    if RawReportOk(run, a) {
      ParsedWhenOk(run, a);
    }
  }

  lemma StepReported(a: Admission, order: seq<PlannedItem>, world: World, n: nat, st: RunState)
    requires n < |order| && Tracks(a, order, world, n, st)
    requires var run := RunAt(order, world, n); RawReportOk(run, a) && run.file.Parsed?
    ensures var run, first := RunAt(order, world, n), RunAt(order, world, 0);
      var st' := ReportedState(st, run);
      && first.file.Parsed? && (n > 0 ==> FineRun(a, first))
      && st'.runs == RunsUpTo(order, world, n + 1)
      && (!Stopped(st') <==> FineRun(a, run) && SinksAgree(first.file.report, run.file.report))
      && (!Stopped(st') ==>
        && Quiet(st') && FirstTracked(order, world, n + 1, st')
        && st'.compared == st.compared && st'.pairDeltas == st.pairDeltas)
  {
    hide RawReportOk, SinksAgree, SinksOf, RecordSinks, StableEnvironment, DeltasTracked, PairedAt;
    var run := RunAt(order, world, n);
    if n > 0 {
      assert CleanStep(a, order, world, 0);
      ParsedWhenOk(RunAt(order, world, 0), a);
    }
    var st1 := st.(runs := st.runs + [run]);
    var st2 := if st1.referenceEnvironment.None?
      then st1.(referenceEnvironment := Some(StableEnvironment(run.file.report.environment))) else st1;
    SinksFrame(st2, run.file.report.results, run.pairIndex);
    ReportTaken(a, order, world, n, st2);
  }

  lemma TracksNext(a: Admission, order: seq<PlannedItem>, world: World, n: nat, st: RunState, st': RunState, k: RowKey)
    requires n < |order| && PairedOrder(order) && DeltasTracked(a, order, world, n, st, k)
    requires if n % 2 == 0 then st'.pairDeltas == st.pairDeltas
             else PairMerged(a, st, st', RunAt(order, world, n - 1), RunAt(order, world, n), order[n].0, k)
    ensures DeltasTracked(a, order, world, n + 1, st', k)
  {
    hide IsDelta;
    if n % 2 == 1 {
      assert 2 * (n / 2) == n - 1;
    }
  }

  /** One more turn goes on exactly when its process is clean, and then the state is again the clean one. */
  lemma CleanTurn(a: Admission, order: seq<PlannedItem>, world: World, n: nat, st: RunState)
    requires n < |order| && PairedOrder(order) && Distinct(a.executionPhaseScope) && Tracks(a, order, world, n, st)
    ensures var st' := ProcessStep(a, st, order[n], world(n));
      (Stopped(st') <==> !CleanStep(a, order, world, n)) && (!Stopped(st') ==> Tracks(a, order, world, n + 1, st'))
  {
    hide RawReportOk, SinksAgree, SinksOf, RecordSinks, StableEnvironment, DeltasTracked, PairAlike, ProcessStep,
      CompareIfComplete, ReportedState, FindReport, SameSerialized, PairMerged;
    var run, first, p := RunAt(order, world, n), RunAt(order, world, 0), order[n].0;
    StepOf(a, st, order[n], world(n));
    if RawReportOk(run, a) && run.file.Parsed? &&
      !EnvironmentDrifts(st, StableEnvironment(run.file.report.environment)) {
      StepReported(a, order, world, n, st);
      var st3 := ReportedState(st, run);
      EnvironmentKept(order, world, n, st);
      CompareFrame(st3, p);
      PairReports(order, world, n);
      if n % 2 == 0 {
        NothingToCompare(st3, p);
      } else if !Stopped(st3) {
        assert CleanStep(a, order, world, n - 1) && CleanStep(a, order, world, 0);
        PairCompared(a, first, RunAt(order, world, n - 1), run, st3, p);
      }
      var st' := CompareIfComplete(st3, p);
      if !Stopped(st') {
        var m := n + 1;
        forall k ensures DeltasTracked(a, order, world, m, st', k) {
          if n % 2 == 1 {
            assert PairMerged(a, st3, st', RunAt(order, world, n - 1), run, p, k);
            MergedFrom(a, st3, st, st', RunAt(order, world, n - 1), run, p, k);
          }
          TracksNext(a, order, world, n, st, st', k);
        }
        TracksCompared(a, order, world, n, m, st, st3, st');
      }
    }
  }

  lemma MergedFrom(a: Admission, st: RunState, st0: RunState, st': RunState, x: ProcessRun, y: ProcessRun, p: nat,
                   k: RowKey)
    requires st.pairDeltas == st0.pairDeltas && PairMerged(a, st, st', x, y, p, k)
    ensures PairMerged(a, st0, st', x, y, p, k)
  {
    hide IsDelta;
  }

  lemma TracksCompared(a: Admission, order: seq<PlannedItem>, world: World, n: nat, m: nat, st: RunState,
                       st3: RunState, st': RunState)
    requires n + 1 == m <= |order| && PairedOrder(order) && Tracks(a, order, world, n, st) &&
      CleanStep(a, order, world, n)
    requires st3.runs == RunsUpTo(order, world, m) && Quiet(st3) && FirstTracked(order, world, m, st3) &&
      st3.compared == st.compared
    requires if n % 2 == 0 then st' == st3
             else st' == st3.(pairDeltas := st'.pairDeltas, compared := st.compared + [order[n].0])
    requires forall k :: DeltasTracked(a, order, world, m, st', k)
    ensures Tracks(a, order, world, m, st')
  {
    hide CleanStep, DeltasTracked, SinksOf, StableEnvironment;
    assert st'.compared == Upto(m / 2);
    assert FirstTracked(order, world, m, st');
  }

  lemma NothingToCompare(st: RunState, p: nat)
    requires FindReport(st.runs, p, Baseline).None? || FindReport(st.runs, p, Candidate).None?
    ensures CompareIfComplete(st, p) == st
  {
  }

  lemma EnvironmentKept(order: seq<PlannedItem>, world: World, n: nat, st: RunState)
    requires n < |order| && FirstTracked(order, world, n, st) && RunAt(order, world, n).file.Parsed? &&
      RunAt(order, world, 0).file.Parsed?
    ensures var run, first := RunAt(order, world, n).file.report, RunAt(order, world, 0).file.report;
      EnvironmentDrifts(st, StableEnvironment(run.environment)) <==> !SameEnvironment(first, run)
  {
    hide StableEnvironment;
  }

  lemma {:induction false} CleanStates(a: Admission, order: seq<PlannedItem>, world: World, n: nat)
    requires n <= |order| && PairedOrder(order) && Distinct(a.executionPhaseScope)
    ensures var st := StateAfter(a, order, world, n);
      (!Stopped(st) <==> CleanUpTo(a, order, world, n)) && (!Stopped(st) ==> Tracks(a, order, world, n, st))
  {
    hide ProcessStep, Stopped, CleanStep, DeltasTracked, FirstTracked;
    if n == 0 {
      CleanStart(a, order, world);
    } else {
      CleanStates(a, order, world, n - 1);
      NextState(a, order, world, n - 1);
      if !Stopped(StateAfter(a, order, world, n - 1)) {
        CleanTurn(a, order, world, n - 1, StateAfter(a, order, world, n - 1));
      }
    }
  }

  lemma CleanStart(a: Admission, order: seq<PlannedItem>, world: World)
    ensures !Stopped(INITIAL_STATE) && Tracks(a, order, world, 0, INITIAL_STATE)
  {
  }

  // ------------------------------------------------- delta lists of every run

  function PairIndexOf(d: PairDelta): nat {
    d.pairIndex
  }

  /** Pair indexes strictly increase, and a row without mismatch has one delta for each completed comparison. */
  predicate DeltaListOk(a: Admission, st: RunState, k: RowKey) {
    var ds := DeltasOf(st.pairDeltas, k);
    && (forall i, j :: 0 <= i < j < |ds| ==> ds[i].pairIndex < ds[j].pairIndex)
    && (forall i :: 0 <= i < |ds| ==> ds[i].pairIndex in st.compared)
    && (k.0 !in a.executionPhaseScope ==> ds == [])
    && (k.0 in a.executionPhaseScope && k !in st.mismatchRows ==> Map(ds, PairIndexOf) == st.compared)
  }

  ghost predicate DeltaListsOk(a: Admission, st: RunState) {
    st.compared == Upto(|st.compared|) && 2 * |st.compared| <= |st.runs| && forall k :: DeltaListOk(a, st, k)
  }

  lemma TrackedDeltaList(a: Admission, order: seq<PlannedItem>, world: World, n: nat, st: RunState, k: RowKey)
    requires n <= |order| && st.compared == Upto(n / 2) && DeltasTracked(a, order, world, n, st, k)
    ensures DeltaListOk(a, st, k)
  {
    hide RowMap;
    var ds := DeltasOf(st.pairDeltas, k);
    if k.0 in a.executionPhaseScope {
      assert forall i :: 0 <= i < |ds| ==> ds[i].pairIndex == i + 1 == st.compared[i];
      assert Map(ds, PairIndexOf) == st.compared;
    }
  }

  lemma KeptDeltaList(a: Admission, st: RunState, st': RunState, k: RowKey)
    requires DeltaListOk(a, st, k) && SameDeltas(st, st')
    ensures DeltaListOk(a, st', k)
  {
  }

  lemma LongerDeltaList(a: Admission, st: RunState, st': RunState, p: nat, k: RowKey)
    requires DeltaListOk(a, st, k) && st'.compared == st.compared + [p] && st.compared == Upto(|st.compared|) &&
      p == |st.compared| + 1
    requires st.mismatchRows <= st'.mismatchRows
    requires var before, after := DeltasOf(st.pairDeltas, k), DeltasOf(st'.pairDeltas, k);
      && (after == before || (|after| == |before| + 1 && after[..|before|] == before && after[|before|].pairIndex == p))
      && (k.0 !in a.executionPhaseScope ==> after == before)
      && (k.0 in a.executionPhaseScope && k !in st'.mismatchRows ==> |after| == |before| + 1)
    ensures DeltaListOk(a, st', k)
  {
    var before, after := DeltasOf(st.pairDeltas, k), DeltasOf(st'.pairDeltas, k);
    hide DeltasOf;
    forall i | 0 <= i < |before| ensures before[i].pairIndex < p && before[i].pairIndex in st'.compared {
      assert before[i].pairIndex in st.compared;
    }
    if |after| == |before| + 1 {
      assert after == before + [after[|before|]];
      MapOneMore(before, after[|before|]);
      assert st'.compared[|st.compared|] == p;
    }
  }

  lemma MapOneMore(ds: seq<PairDelta>, d: PairDelta)
    ensures Map(ds + [d], PairIndexOf) == Map(ds, PairIndexOf) + [d.pairIndex]
  {
  }

  /** The comparison of one pair, whatever it finds. */
  lemma PairListed(a: Admission, x: ProcessRun, y: ProcessRun, st: RunState, p: nat, k: RowKey)
    requires Distinct(a.executionPhaseScope) && FineRun(a, x) && RawReportOk(y, a) && y.file.Parsed?
    requires FindReport(st.runs, p, Baseline) == FileReport(BaselineOf(x, y))
    requires FindReport(st.runs, p, Candidate) == FileReport(CandidateOf(x, y))
    requires st.compared == Upto(|st.compared|) && p == |st.compared| + 1 && DeltaListOk(a, st, k)
    ensures var st' := CompareIfComplete(st, p);
      DeltaListOk(a, st', k) && (st'.compared == st.compared || st'.compared == st.compared + [p])
  {
    hide RawReportOk, CompareRows, RowKeysOf, RowMap, DeltaListOk, MeasuredAlike, MergeRows, FindReport, SameSerialized,
      IsRounded9;
    ParsedWhenOk(x, a);
    var b, c, st' := BaselineOf(x, y), CandidateOf(x, y), CompareIfComplete(st, p);
    if y.file.report.failure.None? && PairAlike(x, y) {
      PhaseScopeWhenOk(b, a);
      var bs, cs, keys := RowMap(b.file.report.results), RowMap(c.file.report.results),
        RowKeysOf(a.executionPhaseScope);
      var cmp := CompareRows(bs, cs, keys, p);
      RowsOfFailureFree(a, x, k);
      RowsOfFailureFree(a, y, k);
      RowKeysDistinct(a.executionPhaseScope);
      RowKeysAre(a.executionPhaseScope, k);
      MergeFrame(st, cmp, keys);
      MergeOfRow(st, cmp, keys, k);
      ComparisonOfRow(bs, cs, keys, p, k);
      LongerDeltaList(a, st, st', p, k);
    } else {
      KeptDeltaList(a, st, st', k);
    }
  }

  lemma RowsOfFailureFree(a: Admission, run: ProcessRun, k: RowKey)
    requires RawReportOk(run, a) && run.file.Parsed? && run.file.report.failure.None?
    ensures k in RowMap(run.file.report.results) <==> k.0 in a.executionPhaseScope
  {
    hide RawReportOk, RowMap;
    FineCoversScope(a, run.(exitCode := Some(0)), k) by {
      ExitDoesNotMatter(a, run);
    }
  }

  lemma ExitDoesNotMatter(a: Admission, run: ProcessRun)
    ensures RawReportOk(run.(exitCode := Some(0)), a) <==> RawReportOk(run, a)
  {
  }

  lemma ReportedKeepsDeltas(st: RunState, run: ProcessRun)
    requires run.file.Parsed?
    ensures var st' := ReportedState(st, run); SameDeltas(st, st') && st'.runs == st.runs + [run]
  {
    hide TakeReport, NoteExit, StableEnvironment;
    var st1 := st.(runs := st.runs + [run]);
    var st2 := if st1.referenceEnvironment.None?
      then st1.(referenceEnvironment := Some(StableEnvironment(run.file.report.environment))) else st1;
    TakingKeepsRuns(st2, run.file.report, run.pairIndex, run.exitCode);
  }

  /** A turn from a clean state keeps the delta lists in order, even the turn that stops the run. */
  lemma AnyTurn(a: Admission, order: seq<PlannedItem>, world: World, n: nat, st: RunState)
    requires n < |order| && PairedOrder(order) && Distinct(a.executionPhaseScope) && Tracks(a, order, world, n, st)
    ensures DeltaListsOk(a, ProcessStep(a, st, order[n], world(n)))
  {
    hide RawReportOk, StableEnvironment, DeltasTracked, FirstTracked, PairedAt, ProcessStep, AgreesWith,
      CompareIfComplete, ReportedState, FindReport, DeltaListOk, EnvironmentDrifts, Quiet;
    var run, p := RunAt(order, world, n), order[n].0;
    var st' := ProcessStep(a, st, order[n], world(n));
    StepAddsRun(a, st, order[n], world(n));
    StepOf(a, st, order[n], world(n));
    forall k ensures DeltaListOk(a, st, k) {
      TrackedDeltaList(a, order, world, n, st, k);
    }
    if RawReportOk(run, a) && run.file.Parsed? &&
      !EnvironmentDrifts(st, StableEnvironment(run.file.report.environment)) {
      var st3 := ReportedState(st, run);
      ReportedKeepsDeltas(st, run);
      assert st3.runs == RunsUpTo(order, world, n + 1);
      PairReports(order, world, n);
      forall k ensures DeltaListOk(a, st3, k) {
        KeptDeltaList(a, st, st3, k);
      }
      if n % 2 == 0 {
        NothingToCompare(st3, p);
      } else {
        assert CleanStep(a, order, world, n - 1);
        forall k ensures DeltaListOk(a, st', k) {
          PairListed(a, RunAt(order, world, n - 1), run, st3, p, k);
        }
        PairListed(a, RunAt(order, world, n - 1), run, st3, p, (RendererPrint, TrackedCustomerSummary));
      }
    } else {
      forall k ensures DeltaListOk(a, st', k) {
        KeptDeltaList(a, st, st', k);
      }
    }
  }

  /** The delta lists of every state a run can reach. */
  lemma DeltaListsInOrder(a: Admission, order: seq<PlannedItem>, world: World, n: nat)
    requires n <= |order| && PairedOrder(order) && Distinct(a.executionPhaseScope)
    ensures DeltaListsOk(a, StateAfter(a, order, world, n))
  {
    hide ProcessStep, Stopped, Tracks, DeltaListsOk, CleanUpTo;
    var st := StateAfter(a, order, world, n);
    ExecutedIsPlannedPrefix(a, order, world, n);
    var t := |st.runs|;
    if t == 0 {
      EmptyDeltaLists(a, st, order, world);
    } else {
      CleanStates(a, order, world, t - 1);
      NextState(a, order, world, t - 1);
      AnyTurn(a, order, world, t - 1, StateAfter(a, order, world, t - 1));
    }
  }

  lemma EmptyDeltaLists(a: Admission, st: RunState, order: seq<PlannedItem>, world: World)
    requires st == StateAfter(a, order, world, 0)
    ensures DeltaListsOk(a, st)
  {
    assert st == INITIAL_STATE;
  }

  // ----------------------------------------------------- mismatches in scope

  /** Sink mismatches are recorded for executed rows only; what a failing process names may lie outside. */
  predicate MismatchesInScope(a: Admission, st: RunState) {
    forall k :: k in st.mismatchRows ==> k.0 in a.executionPhaseScope
  }

  lemma {:induction false} SinkMismatchKeys(st: RunState, rows: seq<ResultRow>, p: nat, k: RowKey)
    requires k in RecordSinks(st, rows, p).mismatchRows
    ensures k in st.mismatchRows || k in Map(rows, ResultKey)
  {
    hide SameSerialized, AppendDetail;
    if rows != [] {
      var n := |rows| - 1;
      assert Map(rows, ResultKey) == Map(rows[..n], ResultKey) + [ResultKey(rows[n])];
      if k in RecordSinks(st, rows[..n], p).mismatchRows {
        SinkMismatchKeys(st, rows[..n], p, k);
      }
    }
  }

  lemma ReportedMismatches(a: Admission, st: RunState, run: ProcessRun)
    requires RawReportOk(run, a) && run.file.Parsed? && MismatchesInScope(a, st)
    ensures MismatchesInScope(a, ReportedState(st, run))
  {
    hide RawReportOk, RecordSinks, StableEnvironment, RowMap;
    var st1 := st.(runs := st.runs + [run]);
    var st2 := if st1.referenceEnvironment.None?
      then st1.(referenceEnvironment := Some(StableEnvironment(run.file.report.environment))) else st1;
    var rows := run.file.report.results;
    if run.file.report.failure.None? {
      forall k | k in RecordSinks(st2, rows, run.pairIndex).mismatchRows ensures k.0 in a.executionPhaseScope {
        SinkMismatchKeys(st2, rows, run.pairIndex, k);
        RowsOfFailureFree(a, run, k);
        RowMapHas(rows, k);
      }
    }
  }

  lemma ComparedMismatches(a: Admission, x: ProcessRun, y: ProcessRun, st: RunState, p: nat)
    requires Distinct(a.executionPhaseScope) && RawReportOk(x, a) && RawReportOk(y, a) && MismatchesInScope(a, st)
    requires FindReport(st.runs, p, Baseline) == FileReport(BaselineOf(x, y))
    requires FindReport(st.runs, p, Candidate) == FileReport(CandidateOf(x, y))
    ensures MismatchesInScope(a, CompareIfComplete(st, p))
  {
    hide RawReportOk, CompareRows, RowKeysOf, RowMap, MeasuredAlike, MergeRows, FindReport;
    var b, c := BaselineOf(x, y), CandidateOf(x, y);
    PhaseScopeWhenOk(x, a);
    PhaseScopeWhenOk(y, a);
    var keys := RowKeysOf(a.executionPhaseScope);
    var cmp := CompareRows(RowMap(b.file.report.results), RowMap(c.file.report.results), keys, p);
    RowKeysDistinct(a.executionPhaseScope);
    forall k | k in MergeRows(st, cmp, keys).mismatchRows ensures k.0 in a.executionPhaseScope {
      MergeOfRow(st, cmp, keys, k);
      RowKeysAre(a.executionPhaseScope, k);
    }
  }

  lemma TurnMismatches(a: Admission, order: seq<PlannedItem>, world: World, n: nat, st: RunState)
    requires n < |order| && PairedOrder(order) && Distinct(a.executionPhaseScope) && Tracks(a, order, world, n, st)
    ensures MismatchesInScope(a, ProcessStep(a, st, order[n], world(n)))
  {
    hide RawReportOk, StableEnvironment, DeltasTracked, FirstTracked, PairedAt, ProcessStep, AgreesWith,
      CompareIfComplete, ReportedState, FindReport, EnvironmentDrifts, MismatchesInScope;
    var run, p := RunAt(order, world, n), order[n].0;
    StepOf(a, st, order[n], world(n));
    NoMismatches(a, st);
    if RawReportOk(run, a) && run.file.Parsed? &&
      !EnvironmentDrifts(st, StableEnvironment(run.file.report.environment)) {
      var st3 := ReportedState(st, run);
      ReportedKeepsDeltas(st, run);
      ReportedMismatches(a, st, run);
      assert st3.runs == RunsUpTo(order, world, n + 1);
      PairReports(order, world, n);
      if n % 2 == 0 {
        NothingToCompare(st3, p);
      } else {
        assert CleanStep(a, order, world, n - 1);
        ComparedMismatches(a, RunAt(order, world, n - 1), run, st3, p);
      }
    } else {
      NoMismatches(a, ProcessStep(a, st, order[n], world(n)));
    }
  }

  lemma NoMismatches(a: Admission, st: RunState)
    requires st.mismatchRows == {}
    ensures MismatchesInScope(a, st)
  {
  }

  lemma MismatchesStayInScope(a: Admission, order: seq<PlannedItem>, world: World, n: nat)
    requires n <= |order| && PairedOrder(order) && Distinct(a.executionPhaseScope)
    ensures MismatchesInScope(a, StateAfter(a, order, world, n))
  {
    hide ProcessStep, Stopped, Tracks, MismatchesInScope, CleanUpTo;
    ExecutedIsPlannedPrefix(a, order, world, n);
    var t := |StateAfter(a, order, world, n).runs|;
    if t == 0 {
      NoMismatches(a, INITIAL_STATE);
    } else {
      CleanStates(a, order, world, t - 1);
      NextState(a, order, world, t - 1);
      TurnMismatches(a, order, world, t - 1, StateAfter(a, order, world, t - 1));
    }
  }

  // --------------------------------------------------- evidence of a mismatch

  predicate SameDetail(d: MismatchDetail, e: MismatchDetail) {
    d.pairIndex == e.pairIndex && SameSerialized(d.candidateSink, e.candidateSink)
  }

  /** Details that show two different sinks each, and no finding twice. */
  predicate DetailsShow(details: seq<MismatchDetail>) {
    && details != []
    && (forall i :: 0 <= i < |details| ==> !SameSerialized(details[i].baselineSink, details[i].candidateSink))
    && (forall i, j :: 0 <= i < j < |details| ==> !SameDetail(details[i], details[j]))
  }

  /** Exactly the mismatched rows have details. */
  predicate MismatchesShown(st: RunState) {
    && st.mismatchDetails.Keys == st.mismatchRows
    && forall k :: k in st.mismatchDetails ==> DetailsShow(st.mismatchDetails[k])
  }

  lemma AppendedDetailsShow(m: map<RowKey, seq<MismatchDetail>>, k: RowKey, d: MismatchDetail)
    requires (k in m ==> DetailsShow(m[k])) && !SameSerialized(d.baselineSink, d.candidateSink)
    ensures k in AppendDetail(m, k, d) && DetailsShow(AppendDetail(m, k, d)[k])
  {
    hide SameSerialized;
  }

  lemma DetailNoted(st: RunState, st': RunState, k: RowKey, d: MismatchDetail)
    requires MismatchesShown(st) && !SameSerialized(d.baselineSink, d.candidateSink)
    requires st'.mismatchRows == st.mismatchRows + {k} && st'.mismatchDetails == AppendDetail(st.mismatchDetails, k, d)
    ensures MismatchesShown(st')
  {
    AppendedDetailsShow(st.mismatchDetails, k, d);
    hide SameSerialized, DetailsShow, AlreadyListed;
  }

  lemma {:induction false} SinksShowMismatches(st: RunState, rows: seq<ResultRow>, p: nat)
    requires MismatchesShown(st)
    ensures MismatchesShown(RecordSinks(st, rows, p))
  {
    hide SameSerialized, AppendDetail, MismatchesShown;
    if rows != [] {
      var st', row := RecordSinks(st, rows[..|rows| - 1], p), rows[|rows| - 1];
      var k := ResultKey(row);
      SinksShowMismatches(st, rows[..|rows| - 1], p);
      if k in st'.referenceSinks && !SameSerialized(st'.referenceSinks[k], row.semanticSink) {
        DetailNoted(st', RecordSink(st', row, p), k, MismatchDetail(p, st'.referenceSinks[k], row.semanticSink));
      } else {
        SameMismatches(st', RecordSink(st', row, p));
      }
    }
  }

  lemma SameMismatches(st: RunState, st': RunState)
    requires MismatchesShown(st) && st'.mismatchRows == st.mismatchRows && st'.mismatchDetails == st.mismatchDetails
    ensures MismatchesShown(st')
  {
  }

  lemma {:induction false} MergeShowsMismatches(st: RunState, cmp: Comparison, keys: seq<RowKey>)
    requires MismatchesShown(st)
    requires forall k :: k in cmp.mismatches ==>
      !SameSerialized(cmp.mismatches[k].baselineSink, cmp.mismatches[k].candidateSink)
    ensures MismatchesShown(MergeRows(st, cmp, keys))
  {
    hide SameSerialized, AppendDetail, AppendDelta, MismatchesShown;
    if keys != [] {
      var st', k := MergeRows(st, cmp, keys[..|keys| - 1]), keys[|keys| - 1];
      MergeShowsMismatches(st, cmp, keys[..|keys| - 1]);
      if k in cmp.mismatches {
        DetailNoted(st', MergeRow(st', cmp, k), k, cmp.mismatches[k]);
      } else {
        SameMismatches(st', MergeRow(st', cmp, k));
      }
    }
  }

  lemma CompareShowsMismatches(st: RunState, p: nat)
    requires MismatchesShown(st)
    ensures MismatchesShown(CompareIfComplete(st, p))
  {
    hide MergeRows, MeasuredAlike, CompareRows, FindReport, RowKeysOf, RowMap, MismatchesShown, SameSerialized;
    var b, c := FindReport(st.runs, p, Baseline), FindReport(st.runs, p, Candidate);
    if b.Some? && c.Some? && MeasuredAlike(b.value, c.value) {
      var bs, cs, keys := RowMap(b.value.results), RowMap(c.value.results), RowKeysOf(b.value.method_.phaseScope);
      var cmp := CompareRows(bs, cs, keys, p);
      forall k | k in cmp.mismatches
        ensures !SameSerialized(cmp.mismatches[k].baselineSink, cmp.mismatches[k].candidateSink)
      {
        ComparisonOfRow(bs, cs, keys, p, k);
      }
      MergeShowsMismatches(st, cmp, keys);
      SameMismatches(MergeRows(st, cmp, keys), MergeRows(st, cmp, keys).(compared := st.compared + [p]));
    }
    SameMismatches(st, Thrown(st));
  }

  lemma StepShowsMismatches(a: Admission, st: RunState, item: PlannedItem, e: Execution)
    requires MismatchesShown(st)
    ensures MismatchesShown(ProcessStep(a, st, item, e))
  {
    hide RawReportOk, EnvironmentDrifts, StableEnvironment, CompareIfComplete, RecordSinks, MismatchesShown;
    var run := MakeRun(item, |st.runs| + 1, e);
    var st1 := st.(runs := st.runs + [run]);
    SameMismatches(st, st1);
    SameMismatches(st, Thrown(st1));
    if RawReportOk(run, a) {
      ParsedWhenOk(run, a);
      var environment := StableEnvironment(run.file.report.environment);
      var st2 := if st1.referenceEnvironment.None? then st1.(referenceEnvironment := Some(environment)) else st1;
      SameMismatches(st, st2);
      var st3 := TakeReport(st2, run.file.report, item.0);
      if run.file.report.failure.None? {
        SinksShowMismatches(st2, run.file.report.results, item.0);
      } else {
        SameMismatches(st2, st3);
      }
      SameMismatches(st3, NoteExit(st3, e.exitCode));
      CompareShowsMismatches(NoteExit(st3, e.exitCode), item.0);
    }
  }

  /** In every state of every run, exactly the mismatched rows have details, each showing two different sinks. */
  lemma {:induction false} MismatchesAreShown(a: Admission, order: seq<PlannedItem>, world: World, n: nat)
    requires n <= |order|
    ensures MismatchesShown(StateAfter(a, order, world, n))
  {
    hide ProcessStep, Stopped;
    if n > 0 {
      MismatchesAreShown(a, order, world, n - 1);
      NextState(a, order, world, n - 1);
      hide MismatchesShown;
      StepShowsMismatches(a, StateAfter(a, order, world, n - 1), order[n - 1], world(n - 1));
    }
  }

  // ------------------------------------------- what the last report says

  /** The report validates, and its environment is the first one's. */
  predicate Accepted(a: Admission, first: ProcessRun, run: ProcessRun) {
    RawReportOk(run, a) && run.file.Parsed? && first.file.Parsed? && SameEnvironment(first.file.report, run.file.report)
  }

  /** An accepted report without failure whose sinks are not those of the first. */
  predicate ReportsOtherSinks(a: Admission, first: ProcessRun, run: ProcessRun) {
    Accepted(a, first, run) && run.file.report.failure.None? && !SinksAgree(first.file.report, run.file.report)
  }

  /** An accepted report of a mismatch that the process found by itself. */
  predicate ReportsOwnMismatch(a: Admission, first: ProcessRun, run: ProcessRun) {
    Accepted(a, first, run) && run.file.report.failure.Some? && run.file.report.failure.value.kind == MismatchFailure
  }

  function OwnMismatchRows(a: Admission, first: ProcessRun, run: ProcessRun): set<RowKey> {
    if ReportsOwnMismatch(a, first, run) then
      {(run.file.report.failure.value.phase, run.file.report.failure.value.scenario)}
    else {}
  }

  function ExitedFine(run: ProcessRun): ProcessRun {
    run.(exitCode := Some(0))
  }

  lemma FineButForExit(a: Admission, run: ProcessRun)
    requires RawReportOk(run, a) && run.file.Parsed? && run.file.report.failure.None?
    ensures FineRun(a, ExitedFine(run)) && ExitedFine(run).file == run.file
  {
    hide RawReportOk;
    ExitDoesNotMatter(a, run);
  }

  /** The mismatch sets once a valid report has been taken. */
  lemma TakenMismatches(a: Admission, first: ProcessRun, run: ProcessRun, st: RunState, n: nat)
    requires RawReportOk(run, a) && run.file.Parsed? && Quiet(st) && first.file.Parsed?
    requires if n == 0 then first == run && st.referenceSinks == map[]
             else FineRun(a, first) && SinksOf(st.referenceSinks, first.file.report.results)
    requires run.file.report.failure.None?
    ensures RecordSinks(st, run.file.report.results, run.pairIndex).mismatchRows == {} <==>
      SinksAgree(first.file.report, run.file.report)
  {
    hide RawReportOk, SinksAgree, SinksOf, RecordSinks;
    FineButForExit(a, run);
    if n == 0 {
      FineCoversScope(a, ExitedFine(run), (RendererPrint, TrackedCustomerSummary));
      FirstSinksRecorded(st, run.file.report.results, run.pairIndex);
      SelfAgrees(run);
    } else {
      RecordedSinksCompared(a, first, ExitedFine(run), st, run.pairIndex);
    }
  }

  lemma ReportedSets(a: Admission, order: seq<PlannedItem>, world: World, n: nat, st: RunState)
    requires n < |order| && Tracks(a, order, world, n, st)
    requires var run := RunAt(order, world, n); RawReportOk(run, a) && run.file.Parsed?
    ensures var run, first := RunAt(order, world, n), RunAt(order, world, 0);
      var st' := ReportedState(st, run);
      && first.file.Parsed? && st'.runs == RunsUpTo(order, world, n + 1)
      && (st'.mismatchRows != {} <==> run.file.report.failure.None? && !SinksAgree(first.file.report, run.file.report))
      && st'.internalMismatchRows ==
        (if run.file.report.failure.Some? && run.file.report.failure.value.kind == MismatchFailure
         then {(run.file.report.failure.value.phase, run.file.report.failure.value.scenario)} else {})
  {
    hide RawReportOk, SinksAgree, SinksOf, RecordSinks, StableEnvironment, DeltasTracked, PairedAt;
    var run, first := RunAt(order, world, n), RunAt(order, world, 0);
    if n > 0 {
      assert CleanStep(a, order, world, 0);
      ParsedWhenOk(first, a);
    }
    var st1 := st.(runs := st.runs + [run]);
    var st2 := if st1.referenceEnvironment.None?
      then st1.(referenceEnvironment := Some(StableEnvironment(run.file.report.environment))) else st1;
    SinksFrame(st2, run.file.report.results, run.pairIndex);
    if run.file.report.failure.None? {
      TakenMismatches(a, first, run, st2, n);
    }
  }

  /** The comparison of a pair adds no mismatch when both sinks are the first report's. */
  lemma AgreeingPairAddsNone(a: Admission, first: ProcessRun, x: ProcessRun, y: ProcessRun, st: RunState, p: nat)
    requires FineRun(a, first) && FineRun(a, x) && RawReportOk(y, a) && y.file.Parsed?
    requires y.file.report.failure.None? ==>
      SinksAgree(first.file.report, x.file.report) && SinksAgree(first.file.report, y.file.report)
    requires FindReport(st.runs, p, Baseline) == FileReport(BaselineOf(x, y))
    requires FindReport(st.runs, p, Candidate) == FileReport(CandidateOf(x, y))
    ensures SameMismatchSets(st, CompareIfComplete(st, p))
  {
    hide RawReportOk, SinksAgree, CompareRows, RowKeysOf, RowMap, ShowsDelta, MeasuredAlike, MergeRows, FindReport;
    ParsedWhenOk(x, a);
    var b, c := BaselineOf(x, y), CandidateOf(x, y);
    if y.file.report.failure.None? && PairAlike(x, y) {
      FineButForExit(a, y);
      PhaseScopeWhenOk(b, a);
      var keys := RowKeysOf(a.executionPhaseScope);
      var cmp := CompareRows(RowMap(b.file.report.results), RowMap(c.file.report.results), keys, p);
      forall k ensures k !in cmp.mismatches {
        CleanComparison(a, first, BaselineOf(x, ExitedFine(y)), CandidateOf(x, ExitedFine(y)), p, k);
      }
      assert cmp.mismatches == map[];
      MergeWithoutMismatch(st, cmp, keys);
    }
  }

  lemma CompareKeepsMismatches(st: RunState, p: nat)
    ensures var st' := CompareIfComplete(st, p);
      st.mismatchRows <= st'.mismatchRows && st'.internalMismatchRows == st.internalMismatchRows
  {
    hide MergeRows, ComparePair, FindReport, RowKeysOf;
    var b, c := FindReport(st.runs, p, Baseline), FindReport(st.runs, p, Candidate);
    if b.Some? && c.Some? {
      var cmp := ComparePair(b.value, c.value, p);
      if cmp.Some? {
        MergeFrame(st, cmp.value, RowKeysOf(b.value.method_.phaseScope));
      }
    }
  }

  /** The mismatch sets after a turn from a clean state, read off its report. */
  lemma TurnMismatchSets(a: Admission, order: seq<PlannedItem>, world: World, n: nat, st: RunState)
    requires n < |order| && PairedOrder(order) && Tracks(a, order, world, n, st)
    ensures var run, first := RunAt(order, world, n), RunAt(order, world, 0);
      var st' := ProcessStep(a, st, order[n], world(n));
      && (st'.mismatchRows != {} <==> ReportsOtherSinks(a, first, run))
      && st'.internalMismatchRows == OwnMismatchRows(a, first, run)
  {
    hide RawReportOk, SinksAgree, SinksOf, RecordSinks, StableEnvironment, DeltasTracked, PairAlike, ProcessStep,
      CompareIfComplete, ReportedState, FindReport, SameSerialized;
    var run, first, p := RunAt(order, world, n), RunAt(order, world, 0), order[n].0;
    StepOf(a, st, order[n], world(n));
    if RawReportOk(run, a) && run.file.Parsed? {
      ReportedSets(a, order, world, n, st);
      EnvironmentKept(order, world, n, st);
      if SameEnvironment(first.file.report, run.file.report) {
        var st3 := ReportedState(st, run);
        CompareKeepsMismatches(st3, p);
        PairReports(order, world, n);
        if n % 2 == 0 {
          NothingToCompare(st3, p);
        } else if st3.mismatchRows == {} {
          assert CleanStep(a, order, world, n - 1) && CleanStep(a, order, world, 0);
          AgreeingPairAddsNone(a, first, RunAt(order, world, n - 1), run, st3, p);
        }
      }
    }
  }
}
