/** The paired benchmark protocol: manifests, the P0 reference, admission, and what one process reports. */
module PairedProtocol {
  import opened Texts
  import opened Wrappers
  import opened StableSort
  import opened Json
  import opened StableJson

  datatype Phase =
    | AnalyzerSelectOutputCollection
    | AnalyzerIntegratedConditionOptimization
    | RendererTokenBuild
    | RendererPrint
    | RendererHotFormat
    | RendererColdFormat

  datatype Scenario =
    | TrackedCustomerSummary
    | TrackedProductRanking
    | TrackedSalesSummary
    | SyntheticCteWildcardDuplicate
    | SyntheticWideOutput
    | SyntheticBooleanParameterComment
    | SyntheticDerivedUnion

  const PHASE_NAMES: seq<Phase> := [
    AnalyzerSelectOutputCollection, AnalyzerIntegratedConditionOptimization, RendererTokenBuild,
    RendererPrint, RendererHotFormat, RendererColdFormat]

  const SCENARIO_NAMES: seq<Scenario> := [
    TrackedCustomerSummary, TrackedProductRanking, TrackedSalesSummary, SyntheticCteWildcardDuplicate,
    SyntheticWideOutput, SyntheticBooleanParameterComment, SyntheticDerivedUnion]

  function PhaseText(p: Phase): string {
    match p
    case AnalyzerSelectOutputCollection => "analyzer.select-output-collection"
    case AnalyzerIntegratedConditionOptimization => "analyzer.integrated-condition-optimization"
    case RendererTokenBuild => "renderer.token-build"
    case RendererPrint => "renderer.print"
    case RendererHotFormat => "renderer.hot-format"
    case RendererColdFormat => "renderer.cold-format"
  }

  /** `rowKey` joins the two names with "::"; no name contains it, so a pair of names is the same key. */
  type RowKey = (Phase, Scenario)

  function KeysOfPhase(p: Phase): seq<RowKey> {
    Map(SCENARIO_NAMES, s => (p, s))
  }

  /** The rows of some phases: every scenario of each. */
  function RowKeysOf(phases: seq<Phase>): seq<RowKey> {
    if phases == [] then [] else KeysOfPhase(phases[0]) + RowKeysOf(phases[1..])
  }

  function AllRowKeys(): seq<RowKey> {
    RowKeysOf(PHASE_NAMES)
  }

  datatype Condition = Baseline | Candidate

  datatype Stage = Screen | Confirmation | FullProfile

  datatype ProfileName = Pr | Full

  datatype Status = RepeatableSignal | AdverseSignal | NeutralOrInconclusive | SemanticMismatch | NotMeasured

  datatype CandidateKind = RealCandidate | SelfComparison

  datatype CandidateInfo = CandidateInfo(id: string, kind: CandidateKind, summary: string, hypothesis: string,
                                         baseCommit: string, candidateCommit: string, limitation: string)

  datatype Threshold = Threshold(phase: Phase, scenario: Scenario, minimum: real)

  datatype Manifest = Manifest(
    schemaVersion: int, stage: Stage, candidate: CandidateInfo, baselineDirectory: string, candidateDirectory: string,
    phaseScope: seq<Phase>, scopeRationale: string, practicalThresholds: seq<Threshold>,
    screenRunId: Option<string>, confirmationRunId: Option<string>)

  datatype P0Row = P0Row(phase: Phase, scenario: Scenario, minimumMeanMs: real, maximumMeanMs: real, rangeMs: real)

  datatype P0Reference = P0Reference(
    schemaVersion: int, p0Commit: string, profile: string, sourceDocument: string, sourceDocumentSha256: string,
    protocolDocumentSha256: string, benchmarkSourceSha256: string, unit: string, rows: seq<P0Row>)

  const P0_COMMIT := "c6f28dbbf4594e99a8e1b1ab662334c010bd7281"
  const BENCHMARK_SOURCE := "benchmarks/ast-analysis-phase-benchmark.ts"
  const SOURCE_DOCUMENT := "docs/bench/ast-analysis-phase-benchmark.md"

  // ------------------------------------------------------------- run orders

  type PlannedItem = (nat, Condition)

  function RunOrderForStage(stage: Stage): seq<PlannedItem> {
    if stage == Screen then [(1, Baseline), (1, Candidate)]
    else [(1, Baseline), (1, Candidate), (2, Candidate), (2, Baseline), (3, Baseline), (3, Candidate)]
  }

  function RunOrderForManifest(m: Manifest): seq<PlannedItem> {
    if m.stage == FullProfile && m.candidate.kind == SelfComparison then RunOrderForStage(Screen)
    else RunOrderForStage(m.stage)
  }

  // ------------------------------------------------------------- validation

  predicate IsLowerHex(s: string, length: nat) {
    |s| == length && forall i :: 0 <= i < |s| ==> '0' <= s[i] <= '9' || 'a' <= s[i] <= 'f'
  }

  /** The text is not empty once trimmed. */
  predicate HasText(s: string) {
    Trim(s) != ""
  }

  predicate IsCandidateId(s: string) {
    s != "" && IsIdStart(s[0]) && forall i :: 0 <= i < |s| ==>
      IsIdStart(s[i]) || s[i] == '.' || s[i] == '_' || s[i] == '-'
  }

  predicate IsIdStart(c: char) {
    'a' <= c <= 'z' || '0' <= c <= '9'
  }

  function Round9(x: real): real {
    (x * 1000000000.0 + 0.5).Floor as real / 1000000000.0
  }

  function P0Key(r: P0Row): RowKey {
    (r.phase, r.scenario)
  }

  function ThresholdKey(t: Threshold): RowKey {
    (t.phase, t.scenario)
  }

  predicate P0RowOk(r: P0Row) {
    0.0 <= r.minimumMeanMs <= r.maximumMeanMs && 0.0 <= r.rangeMs &&
    Round9(r.maximumMeanMs - r.minimumMeanMs) == Round9(r.rangeMs)
  }

  predicate P0ReferenceOk(r: P0Reference) {
    && r.schemaVersion == 1 && r.profile == "pr" && r.p0Commit == P0_COMMIT
    && r.sourceDocument == SOURCE_DOCUMENT && r.unit == "mean milliseconds"
    && IsLowerHex(r.sourceDocumentSha256, 64) && IsLowerHex(r.protocolDocumentSha256, 64)
    && IsLowerHex(r.benchmarkSourceSha256, 64)
    && Distinct(Map(r.rows, P0Key))
    && (forall i :: 0 <= i < |r.rows| ==> P0RowOk(r.rows[i]))
    && |r.rows| == |AllRowKeys()|
  }

  predicate RunIdsOk(m: Manifest) {
    && (m.stage == Confirmation ==> m.screenRunId.Some? && HasText(m.screenRunId.value))
    && (m.stage != Confirmation ==> m.screenRunId.None?)
    && (m.stage == FullProfile && m.candidate.kind == RealCandidate ==>
         m.confirmationRunId.Some? && HasText(m.confirmationRunId.value))
    && (m.stage != FullProfile || m.candidate.kind == SelfComparison ==> m.confirmationRunId.None?)
  }

  predicate CandidateOk(m: Manifest) {
    var c := m.candidate;
    && IsCandidateId(c.id) && HasText(c.summary) && HasText(c.hypothesis) && HasText(c.limitation)
    && IsLowerHex(c.baseCommit, 40) && IsLowerHex(c.candidateCommit, 40)
    && (c.kind == SelfComparison ==> m.stage != Confirmation && c.baseCommit == c.candidateCommit)
    && (c.kind == RealCandidate ==> c.baseCommit != c.candidateCommit)
  }

  predicate ThresholdsOk(m: Manifest) {
    && Distinct(Map(m.practicalThresholds, ThresholdKey))
    && (forall i :: 0 <= i < |m.practicalThresholds| ==>
         m.practicalThresholds[i].phase in m.phaseScope && m.practicalThresholds[i].minimum > 0.0)
    && |m.practicalThresholds| == |RowKeysOf(m.phaseScope)|
  }

  /** The checks a manifest passes before any timing. */
  predicate ManifestShapeOk(m: Manifest, r: P0Reference) {
    && m.schemaVersion == 1 && RunIdsOk(m) && CandidateOk(m)
    && HasText(m.scopeRationale) && HasText(m.baselineDirectory) && HasText(m.candidateDirectory)
    && m.phaseScope != [] && Distinct(m.phaseScope)
    && (m.stage == FullProfile && m.candidate.kind == SelfComparison ==> m.phaseScope == PHASE_NAMES)
    && ThresholdsOk(m)
    && P0ReferenceOk(r)
  }

  // -------------------------------------------------------------- admission

  datatype Sampling = Sampling(warmupSamples: nat, measuredSamples: nat, invocationsPerSample: nat)

  /** Paths, fingerprints and the run id, as the file system, SHA-256 and the clock give them. */
  datatype Surroundings = Surroundings(
    manifestSha256: string, p0ReferenceSha256: string, protocolDocumentSha256: string, benchmarkSourceSha256: string,
    runnerRoot: string, runId: string, tsNodeCliPath: string)

  datatype Admission = Admission(
    manifest: Manifest, reference: P0Reference, phaseScope: seq<Phase>, executionPhaseScope: seq<Phase>,
    thresholdByRow: map<RowKey, real>, p0ByRow: map<RowKey, real>, profile: ProfileName, sampling: Sampling,
    files: Surroundings)

  /** A map filled in list order, so that the last entry of a row wins. */
  function ThresholdMap(ts: seq<Threshold>): map<RowKey, real> {
    if ts == [] then map[]
    else ThresholdMap(ts[..|ts| - 1])[ThresholdKey(ts[|ts| - 1]) := ts[|ts| - 1].minimum]
  }

  function P0Map(rows: seq<P0Row>): map<RowKey, real> {
    if rows == [] then map[] else P0Map(rows[..|rows| - 1])[P0Key(rows[|rows| - 1]) := rows[|rows| - 1].rangeMs]
  }

  function NormalizedScope(scope: seq<Phase>): seq<Phase> {
    Filter(PHASE_NAMES, p => p in scope)
  }

  function Admit(m: Manifest, r: P0Reference, files: Surroundings): Admission {
    var scope := NormalizedScope(m.phaseScope);
    Admission(m, r, scope, if m.stage == FullProfile then PHASE_NAMES else scope,
              ThresholdMap(m.practicalThresholds), P0Map(r.rows),
              if m.stage == FullProfile then Full else Pr,
              if m.stage == FullProfile then Sampling(8, 50, 16) else Sampling(4, 20, 8), files)
  }

  /** `normalizeThresholds`: the thresholds in row order, or the first row that has none. */
  function ThresholdsFor(keys: seq<RowKey>, byRow: map<RowKey, real>): Result<seq<Threshold>, RowKey> {
    if keys == [] then Success([])
    else if keys[0] !in byRow then Failure(keys[0])
    else
      var rest := ThresholdsFor(keys[1..], byRow);
      if rest.Failure? then rest else Success([Threshold(keys[0].0, keys[0].1, byRow[keys[0]])] + rest.value)
  }

  function NormalizeThresholds(m: Manifest): Result<seq<Threshold>, RowKey> {
    ThresholdsFor(RowKeysOf(NormalizedScope(m.phaseScope)), ThresholdMap(m.practicalThresholds))
  }

  // ------------------------------------------------- what a process reports

  datatype CommitInfo = CommitInfo(sha: string, dirty: bool)

  datatype Method = Method(sampling: Sampling, corpusSeed: string, phaseScope: seq<Phase>, policies: Json)

  datatype PairRun = PairRun(candidateId: string, condition: Condition, pairIndex: nat)

  datatype Stats = Stats(meanMs: real, p95Ms: real, stddevMs: real, minMs: real, maxMs: real, sampleCount: nat)

  datatype ResultRow = ResultRow(phase: Phase, scenario: Scenario, sampling: Sampling, rawSamplesMs: seq<real>,
                                 stats: Stats, semanticSink: Json)

  datatype FailureKind = MismatchFailure | ExecutionFailure

  datatype ReportFailure = ReportFailure(kind: FailureKind, phase: Phase, scenario: Scenario)

  datatype Report = Report(
    profile: ProfileName, commit: CommitInfo, environment: seq<Member>, method_: Method, pairRun: Option<PairRun>,
    formatterOptions: Json, corpus: seq<(Scenario, Json)>, phases: seq<(Phase, Json)>, results: seq<ResultRow>,
    failure: Option<ReportFailure>)

  /** What is found at the report path when a process has ended. */
  datatype ReportFile = Missing | Unreadable | Parsed(report: Report)

  /** How one spawned process turns out. */
  datatype Execution = Execution(exitCode: Option<int>, file: ReportFile)

  datatype ProcessRun = ProcessRun(pairIndex: nat, condition: Condition, sequence: nat, exitCode: Option<int>,
                                   file: ReportFile)

  function ResultKey(r: ResultRow): RowKey {
    (r.phase, r.scenario)
  }

  const CORPUS_SEED := "rawsql-ts-ast-phase-v1"

  /** A semantic sink has a kind, a SHA-256 signature and a summary object. */
  predicate SinkOk(sink: Json) {
    && sink.Obj?
    && var kind, signature, summary :=
         MemberValue(sink.members, "kind"), MemberValue(sink.members, "signatureSha256"),
           MemberValue(sink.members, "summary");
    && kind.Some? && kind.value.Str?
    && signature.Some? && signature.value.Str? && IsLowerHex(signature.value.s, 64)
    && summary.Some? && (summary.value.Obj? || summary.value.Arr?)
  }

  predicate ResultRowOk(r: ResultRow, sampling: Sampling) {
    && r.sampling == sampling
    && |r.rawSamplesMs| == sampling.measuredSamples &&
         (forall i :: 0 <= i < |r.rawSamplesMs| ==> r.rawSamplesMs[i] >= 0.0)
    && r.stats.sampleCount == sampling.measuredSamples
    && r.stats.meanMs >= 0.0 && r.stats.p95Ms >= 0.0 && r.stats.stddevMs >= 0.0 && r.stats.minMs >= 0.0 &&
         r.stats.maxMs >= 0.0
    && SinkOk(r.semanticSink)
  }

  /** A report without failure has each executed row exactly once. */
  predicate RowsComplete(rows: seq<ResultRow>, keys: seq<RowKey>) {
    && Distinct(Map(rows, ResultKey))
    && (forall i :: 0 <= i < |rows| ==> ResultKey(rows[i]) in keys)
    && |rows| == |keys|
  }

  function ExpectedCommit(m: Manifest, c: Condition): string {
    if c == Baseline then m.candidate.baseCommit else m.candidate.candidateCommit
  }

  function FirstOf<A, B>(p: (A, B)): A {
    p.0
  }

  /** `validateRawReport` accepts the run. */
  predicate RawReportOk(run: ProcessRun, a: Admission) {
    && run.file.Parsed?
    && var r := run.file.report;
    && r.profile == a.profile
    && r.commit == CommitInfo(ExpectedCommit(a.manifest, run.condition), false)
    && r.method_.sampling == a.sampling && r.method_.corpusSeed == CORPUS_SEED
    && r.method_.phaseScope == a.executionPhaseScope
    && r.pairRun == Some(PairRun(a.manifest.candidate.id, run.condition, run.pairIndex))
    && Map(r.corpus, FirstOf) == SCENARIO_NAMES
    && Map(r.phases, FirstOf) == PHASE_NAMES
    && (forall i :: 0 <= i < |r.results| ==> ResultRowOk(r.results[i], a.sampling))
    && (r.failure.None? ==> RowsComplete(r.results, RowKeysOf(a.executionPhaseScope)))
  }

  const ENVIRONMENT_KEYS: seq<string> :=
    ["node", "pnpm", "platform", "release", "architecture", "cpu", "logicalCores", "launcher"]

  /** The part of an environment that must not drift. */
  function StableEnvironment(environment: seq<Member>): Json {
    Obj(RecordMembers(ENVIRONMENT_KEYS, Map(ENVIRONMENT_KEYS, k => MemberValue(environment, k))))
  }

  predicate SameSerialized(a: Json, b: Json) {
    StableSerialize(a) == StableSerialize(b)
  }

  predicate SameDetails<T(==)>(xs: seq<(T, Json)>, ys: seq<(T, Json)>) {
    |xs| == |ys| && forall i :: 0 <= i < |xs| ==> xs[i].0 == ys[i].0 && SameSerialized(xs[i].1, ys[i].1)
  }

  /** Two reports of a pair were measured alike. */
  predicate MeasuredAlike(b: Report, c: Report) {
    && SameSerialized(StableEnvironment(b.environment), StableEnvironment(c.environment))
    && b.method_ == c.method_.(policies := b.method_.policies) && SameSerialized(b.method_.policies, c.method_.policies)
    && SameSerialized(b.formatterOptions, c.formatterOptions)
    && SameDetails(b.corpus, c.corpus) && SameDetails(b.phases, c.phases)
  }

  // -------------------------------------------------- facts about row keys

  lemma {:induction false} RowKeysAre(phases: seq<Phase>, k: RowKey)
    ensures k in RowKeysOf(phases) <==> k.0 in phases
  {
    if phases != [] {
      RowKeysAre(phases[1..], k);
      var keys := KeysOfPhase(phases[0]);
      ScenariosAreAll(k.1);
      var i :| 0 <= i < |SCENARIO_NAMES| && SCENARIO_NAMES[i] == k.1;
      assert keys[i] == (phases[0], k.1);
      assert forall j :: 0 <= j < |keys| ==> keys[j].0 == phases[0];
      assert forall p :: p in phases <==> p == phases[0] || p in phases[1..];
    }
  }

  lemma ScenariosAreAll(s: Scenario)
    ensures s in SCENARIO_NAMES
  {
    assert SCENARIO_NAMES[0] == TrackedCustomerSummary && SCENARIO_NAMES[1] == TrackedProductRanking
      && SCENARIO_NAMES[2] == TrackedSalesSummary && SCENARIO_NAMES[3] == SyntheticCteWildcardDuplicate
      && SCENARIO_NAMES[4] == SyntheticWideOutput && SCENARIO_NAMES[5] == SyntheticBooleanParameterComment
      && SCENARIO_NAMES[6] == SyntheticDerivedUnion;
  }

  lemma PhasesAreAll(p: Phase)
    ensures p in PHASE_NAMES
  {
    assert PHASE_NAMES[0] == AnalyzerSelectOutputCollection && PHASE_NAMES[1] == AnalyzerIntegratedConditionOptimization
      && PHASE_NAMES[2] == RendererTokenBuild && PHASE_NAMES[3] == RendererPrint
      && PHASE_NAMES[4] == RendererHotFormat && PHASE_NAMES[5] == RendererColdFormat;
  }

  lemma {:induction false} RowKeysDistinct(phases: seq<Phase>)
    requires Distinct(phases)
    ensures Distinct(RowKeysOf(phases)) && |RowKeysOf(phases)| == 7 * |phases|
  {
    if phases != [] {
      RowKeysDistinct(phases[1..]);
      var keys, rest := KeysOfPhase(phases[0]), RowKeysOf(phases[1..]);
      assert forall i, j :: 0 <= i < j < |SCENARIO_NAMES| ==> SCENARIO_NAMES[i] != SCENARIO_NAMES[j];
      assert forall j :: 0 <= j < |keys| ==> keys[j] == (phases[0], SCENARIO_NAMES[j]);
      forall j | 0 <= j < |rest| ensures rest[j].0 != phases[0] {
        RowKeysAre(phases[1..], rest[j]);
        assert rest[j] in rest;
      }
    }
  }

  lemma PhaseNamesDistinct()
    ensures Distinct(PHASE_NAMES) && |AllRowKeys()| == 42
  {
    RowKeysDistinct(PHASE_NAMES);
  }

  /** As many distinct entries as there are rows, all of them rows: then every row is there. */
  lemma CoversAllRows(entries: seq<RowKey>, keys: seq<RowKey>, k: RowKey)
    requires Distinct(entries) && (forall i :: 0 <= i < |entries| ==> entries[i] in keys) && |entries| == |keys|
    requires k in keys
    ensures k in entries
  {
    var es, ks := set i | 0 <= i < |entries| :: entries[i], set i | 0 <= i < |keys| :: keys[i];
    DistinctSetSize(entries);
    SetNoLarger(keys);
    assert es <= ks;
    if k !in entries {
      assert es + {k} <= ks;
      SubsetNoLarger(es + {k}, ks);
    }
  }

  lemma SubsetNoLarger<T>(a: set<T>, b: set<T>)
    requires a <= b
    ensures |a| <= |b|
  {
    assert b == a + (b - a);
  }

  lemma {:induction false} DistinctSetSize<T>(s: seq<T>)
    requires Distinct(s)
    ensures |set i | 0 <= i < |s| :: s[i]| == |s|
  {
    if s != [] {
      var n := |s| - 1;
      DistinctSetSize(s[..n]);
      var small := set i | 0 <= i < |s[..n]| :: s[..n][i];
      assert (set i | 0 <= i < |s| :: s[i]) == small + {s[n]};
    }
  }

  lemma {:induction false} SetNoLarger<T>(s: seq<T>)
    ensures |set i | 0 <= i < |s| :: s[i]| <= |s|
  {
    if s != [] {
      var n := |s| - 1;
      SetNoLarger(s[..n]);
      var small := set i | 0 <= i < |s[..n]| :: s[..n][i];
      assert (set i | 0 <= i < |s| :: s[i]) == small + {s[n]};
    }
  }

  lemma ScopeAre(scope: seq<Phase>, p: Phase)
    ensures p in NormalizedScope(scope) <==> p in scope
  {
    PhasesAreAll(p);
  }

  lemma {:induction false} FilterDistinct<T(!new)>(s: seq<T>, p: T -> bool)
    requires Distinct(s)
    ensures Distinct(Filter(s, p))
  {
    if s != [] {
      FilterDistinct(s[1..], p);
      assert s[0] !in Filter(s[1..], p);
    }
  }

  lemma ScopeDistinct(scope: seq<Phase>)
    ensures Distinct(NormalizedScope(scope))
  {
    PhaseNamesDistinct();
    FilterDistinct(PHASE_NAMES, p => p in scope);
  }

  lemma {:induction false} ThresholdMapHas(ts: seq<Threshold>, k: RowKey)
    ensures k in ThresholdMap(ts) <==> k in Map(ts, ThresholdKey)
  {
    if ts != [] {
      ThresholdMapHas(ts[..|ts| - 1], k);
      assert Map(ts, ThresholdKey) == Map(ts[..|ts| - 1], ThresholdKey) + [ThresholdKey(ts[|ts| - 1])];
    }
  }

  lemma {:induction false} ThresholdLookup(ts: seq<Threshold>, i: nat)
    requires i < |ts| && Distinct(Map(ts, ThresholdKey))
    ensures ThresholdKey(ts[i]) in ThresholdMap(ts) && ThresholdMap(ts)[ThresholdKey(ts[i])] == ts[i].minimum
  {
    var n := |ts| - 1;
    var keys := Map(ts, ThresholdKey);
    if i < n {
      assert Map(ts[..n], ThresholdKey) == keys[..n];
      assert keys[i] != keys[n];
      ThresholdLookup(ts[..n], i);
    }
  }

  lemma {:induction false} P0MapHas(rows: seq<P0Row>, k: RowKey)
    requires forall i :: 0 <= i < |rows| ==> P0RowOk(rows[i])
    ensures k in P0Map(rows) <==> k in Map(rows, P0Key)
    ensures k in P0Map(rows) ==> P0Map(rows)[k] >= 0.0
  {
    if rows != [] {
      P0MapHas(rows[..|rows| - 1], k);
      assert Map(rows, P0Key) == Map(rows[..|rows| - 1], P0Key) + [P0Key(rows[|rows| - 1])];
    }
  }

  /** An admitted run has a non-negative P0 range for every row and a threshold for every declared row. */
  lemma AdmittedRowsHaveData(m: Manifest, r: P0Reference, files: Surroundings, k: RowKey)
    requires ManifestShapeOk(m, r)
    ensures var a := Admit(m, r, files);
      && k in a.p0ByRow && a.p0ByRow[k] >= 0.0
      && (k in a.thresholdByRow <==> k.0 in a.phaseScope)
      && (k.0 in a.phaseScope ==> k.0 in a.executionPhaseScope)
  {
    hide RowKeysOf, ThresholdMap, P0Map, Map;
    var a := Admit(m, r, files);
    PhasesAreAll(k.0);
    RowKeysAre(PHASE_NAMES, k);
    P0MapHas(r.rows, k);
    forall i | 0 <= i < |r.rows| ensures Map(r.rows, P0Key)[i] in AllRowKeys() {
      PhasesAreAll(Map(r.rows, P0Key)[i].0);
      RowKeysAre(PHASE_NAMES, Map(r.rows, P0Key)[i]);
    }
    CoversAllRows(Map(r.rows, P0Key), AllRowKeys(), k);
    ScopeAre(m.phaseScope, k.0);
    RowKeysAre(m.phaseScope, k);
    ThresholdMapHas(m.practicalThresholds, k);
    var ts := Map(m.practicalThresholds, ThresholdKey);
    forall i | 0 <= i < |ts| ensures ts[i] in RowKeysOf(m.phaseScope) {
      RowKeysAre(m.phaseScope, ts[i]);
    }
    if k.0 in m.phaseScope {
      CoversAllRows(ts, RowKeysOf(m.phaseScope), k);
    }
    if k in ts {
      assert exists i :: 0 <= i < |ts| && ts[i] == k;
    }
  }
}
