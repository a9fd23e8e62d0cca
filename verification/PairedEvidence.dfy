/** The evidence record a paired run writes, and the checks the next stage puts it through. */
module PairedEvidence {
  import opened Texts
  import opened Wrappers
  import opened StableSort
  import opened Json
  import opened PairedProtocol
  import opened PairedRun
  import opened PairedRunLaws
  import opened PairedVerdicts

  datatype Command = Command(
    sequence: nat, pairIndex: nat, condition: Condition, command: string, args: seq<string>, cwdRole: Condition,
    exitCode: Option<int>, reportPath: Option<string>, processPath: string, commit: Option<CommitInfo>,
    environment: Option<seq<Member>>)

  datatype FailureRecord =
    | ProcessFailure(sequence: nat, pairIndex: nat, condition: Condition, exitCode: Option<int>,
                     failure: Option<ReportFailure>, processPath: string)
    | RunnerFailure

  datatype Protocol = Protocol(p0Commit: string, p0ReferenceSha256: string, protocolDocumentSha256: string,
                               benchmarkSourceSha256: string, manifestSha256: string)

  datatype Record = Record(
    runId: string, candidate: CandidateInfo, stage: Stage, profile: ProfileName, status: Status,
    escalationDecision: string, phaseScope: seq<Phase>, executionPhaseScope: seq<Phase>, scopeRationale: string,
    practicalThresholds: seq<Threshold>,
    screenRunId: Option<string>, confirmationRunId: Option<string>, plannedOrder: seq<PlannedItem>, sampling: Sampling,
    protocol: Protocol, commands: seq<Command>, rawArtifacts: seq<string>, failures: seq<FailureRecord>,
    scenarioRows: seq<OutcomeRow>)

  // --------------------------------------------------------- paths and arguments

  const OUTPUT_ROOT := "tmp/ast-analysis-paired-runs"

  function ConditionText(c: Condition): string {
    if c == Baseline then "baseline" else "candidate"
  }

  function ProfileText(p: ProfileName): string {
    if p == Pr then "pr" else "full"
  }

  function PadTwo(s: string): string {
    if |s| >= 2 then s else if |s| == 1 then "0" + s else "00"
  }

  function Stem(run: ProcessRun): string {
    PadTwo(Digits(run.sequence)) + "-pair-" + Digits(run.pairIndex) + "-" + ConditionText(run.condition)
  }

  /** A file of the run's output directory, as an absolute path. */
  function OutputPath(files: Surroundings, name: string): string {
    files.runnerRoot + "/" + OUTPUT_ROOT + "/" + files.runId + "/" + name
  }

  function RelativeToRoot(root: string, path: string): string {
    if root + "/" <= path then path[|root| + 1..] else path
  }

  function RelativeOutput(files: Surroundings, name: string): string {
    RelativeToRoot(files.runnerRoot, OutputPath(files, name))
  }

  function ReportName(run: ProcessRun): string {
    Stem(run) + ".json"
  }

  function ProcessName(run: ProcessRun): string {
    Stem(run) + ".process.json"
  }

  function JoinPhases(phases: seq<Phase>): string {
    if phases == [] then ""
    else if |phases| == 1 then PhaseText(phases[0])
    else PhaseText(phases[0]) + "," + JoinPhases(phases[1..])
  }

  const OUTPUT_FILE := "--output-file="

  /** The arguments a process is started with. */
  function ProcessArgs(a: Admission, run: ProcessRun): seq<string> {
    var cwd := if run.condition == Baseline then a.manifest.baselineDirectory else a.manifest.candidateDirectory;
    [a.files.tsNodeCliPath, cwd + "/" + BENCHMARK_SOURCE, "--profile=" + ProfileText(a.profile),
     "--phases=" + JoinPhases(a.executionPhaseScope), "--condition=" + ConditionText(run.condition),
     "--candidate-id=" + a.manifest.candidate.id, "--pair-index=" + Digits(run.pairIndex),
     OUTPUT_FILE + OutputPath(a.files, ReportName(run))]
  }

  function RecordedArg(a: Admission, run: ProcessRun, index: nat, arg: string): string {
    if index == 0 then "<ts-node-cli>"
    else if index == 1 then BENCHMARK_SOURCE
    else if OUTPUT_FILE <= arg then OUTPUT_FILE + RelativeOutput(a.files, ReportName(run))
    else arg
  }

  /** The arguments as the record shows them, without machine-specific paths. */
  function RecordedArgs(a: Admission, run: ProcessRun): seq<string> {
    var args := ProcessArgs(a, run);
    seq(|args|, i requires 0 <= i < |args| => RecordedArg(a, run, i, args[i]))
  }

  /** The arguments a validator expects. */
  function NormalizedCommandArgs(profile: ProfileName, scope: seq<Phase>, condition: Condition, candidateId: string,
                                 pairIndex: nat, reportPath: string): seq<string> {
    ["<ts-node-cli>", BENCHMARK_SOURCE, "--profile=" + ProfileText(profile), "--phases=" + JoinPhases(scope),
     "--condition=" + ConditionText(condition), "--candidate-id=" + candidateId, "--pair-index=" + Digits(pairIndex),
     OUTPUT_FILE + reportPath]
  }

  // -------------------------------------------------------------- the record

  function ReportPath(a: Admission, run: ProcessRun): Option<string> {
    if run.file == Missing then None else Some(RelativeOutput(a.files, ReportName(run)))
  }

  function ProcessPath(a: Admission, run: ProcessRun): string {
    RelativeOutput(a.files, ProcessName(run))
  }

  function CommandOf(a: Admission, run: ProcessRun): Command {
    Command(run.sequence, run.pairIndex, run.condition, "node", RecordedArgs(a, run), run.condition, run.exitCode,
            ReportPath(a, run), ProcessPath(a, run),
            if run.file.Parsed? then Some(run.file.report.commit) else None,
            if run.file.Parsed? then Some(run.file.report.environment) else None)
  }

  function ArtifactsOf(a: Admission, runs: seq<ProcessRun>): seq<string> {
    if runs == [] then []
    else
      var path := ReportPath(a, runs[0]);
      (if path.Some? then [path.value] else []) + [ProcessPath(a, runs[0])] + ArtifactsOf(a, runs[1..])
  }

  /** `rawArtifacts`: the admission, what each process left, the summary. */
  function ArtifactIndex(a: Admission, runs: seq<ProcessRun>): seq<string> {
    [RelativeOutput(a.files, "admission.json")] + ArtifactsOf(a, runs) +
    [RelativeOutput(a.files, "paired-summary.json")]
  }

  function FailureOf(run: ProcessRun): Option<ReportFailure> {
    if run.file.Parsed? then run.file.report.failure else None
  }

  function ProcessFailures(a: Admission, runs: seq<ProcessRun>): seq<FailureRecord> {
    if runs == [] then []
    else
      var run := runs[0];
      (if run.exitCode != Some(0) || FailureOf(run).Some?
       then [ProcessFailure(run.sequence, run.pairIndex, run.condition, run.exitCode, FailureOf(run),
         ProcessPath(a, run))]
       else []) + ProcessFailures(a, runs[1..])
  }

  function Escalation(a: Admission, st: RunState, status: Status): string {
    if st.executionFailed then "repair_runner_or_environment_then_rerun"
    else if status == SemanticMismatch then "reject_or_repair_candidate"
    else if a.manifest.candidate.kind == SelfComparison then "demonstration_only"
    else if a.manifest.stage == Screen then "human_decision_required_before_confirmation"
    else if a.manifest.stage == FullProfile then "human_adoption_rejection_or_defer_decision"
    else if status == RepeatableSignal then "full_profile_required_before_adoption"
    else "reject_defer_or_human_directed_escalation"
  }

  /** The record of a run, or the row whose P0 reference or threshold is missing. */
  function RecordOf(a: Admission, st: RunState): Result<Record, RowKey> {
    var rows := BuildOutcomeRows(a, st);
    var thresholds := NormalizeThresholds(a.manifest);
    if rows.Failure? then Failure(rows.error)
    else if thresholds.Failure? then Failure(thresholds.error)
    else
      var m, status := a.manifest, AggregateStatus(rows.value);
      Success(Record(
        a.files.runId, m.candidate, m.stage, a.profile, status, Escalation(a, st, status), a.phaseScope,
        a.executionPhaseScope, m.scopeRationale, thresholds.value, m.screenRunId,
        m.confirmationRunId, RunOrderForManifest(m), a.sampling,
        Protocol(a.reference.p0Commit, a.files.p0ReferenceSha256, a.files.protocolDocumentSha256,
                 a.files.benchmarkSourceSha256, a.files.manifestSha256),
        Map(st.runs, run => CommandOf(a, run)),
        ArtifactIndex(a, st.runs),
        ProcessFailures(a, st.runs) + (if st.orchestrationFailed then [RunnerFailure] else []),
        rows.value))
  }

  // ------------------------------------------------------------- the validators

  predicate EndsWith(s: string, suffix: string) {
    |suffix| <= |s| && s[|s| - |suffix|..] == suffix
  }

  /** One command record against its place in the planned order. */
  predicate CommandOk(c: Command, i: nat, expected: PlannedItem, candidate: CandidateInfo, scope: seq<Phase>) {
    && c.sequence == i + 1 && c.pairIndex == expected.0 && c.condition == expected.1
    && c.command == "node" && c.cwdRole == expected.1
    && c.reportPath.Some? && c.reportPath.value != "" && c.processPath != ""
    && c.args == NormalizedCommandArgs(Pr, scope, expected.1, candidate.id, expected.0, c.reportPath.value)
    && c.exitCode == Some(0)
    && c.commit ==
         Some(CommitInfo(if c.condition == Baseline then candidate.baseCommit else candidate.candidateCommit, false))
    && c.environment.Some?
  }

  predicate CommandsComplete(commands: seq<Command>, order: seq<PlannedItem>, candidate: CandidateInfo,
                             scope: seq<Phase>) {
    |commands| == |order| && forall i :: 0 <= i < |commands| ==> CommandOk(commands[i], i, order[i], candidate, scope)
  }

  function AsSet<T>(s: seq<T>): set<T> {
    set i | 0 <= i < |s| :: s[i]
  }

  predicate ArtifactsNamed(artifacts: seq<string>, commands: seq<Command>) {
    && (exists i :: 0 <= i < |artifacts| && EndsWith(artifacts[i], "/admission.json"))
    && (exists i :: 0 <= i < |artifacts| && EndsWith(artifacts[i], "/paired-summary.json"))
    && (forall i :: 0 <= i < |commands| ==>
         commands[i].reportPath.Some? && commands[i].reportPath.value in artifacts &&
           commands[i].processPath in artifacts)
  }

  function RowKeyOf(row: OutcomeRow): RowKey {
    (row.phase, row.scenario)
  }

  predicate RowsCover(rows: seq<OutcomeRow>) {
    && |rows| == |AllRowKeys()| && |AsSet(Map(rows, RowKeyOf))| == |AllRowKeys()|
    && forall i :: 0 <= i < |AllRowKeys()| ==> AllRowKeys()[i] in Map(rows, RowKeyOf)
  }

  predicate ScreenRowOk(row: OutcomeRow, scope: seq<Phase>, thresholds: map<RowKey, real>) {
    if row.phase in scope then
      && row.status == NeutralOrInconclusive && row.sinkComparison == Matched
      && RowKeyOf(row) in thresholds && row.practicalThresholdMs == Some(thresholds[RowKeyOf(row)])
      && row.p0RangeMs >= 0.0 && |row.pairs| == 1 && row.pairs[0].pairIndex == 1
    else UnmeasuredRowOk(row)
  }

  predicate UnmeasuredRowOk(row: OutcomeRow) {
    row.status == NotMeasured && row.sinkComparison == SinkNotMeasured && row.practicalThresholdMs == None &&
    row.p0RangeMs >= 0.0 && row.pairs == []
  }

  /** `validateCompleteScreenEvidence` accepts the record for a manifest that wants to inherit it. */
  predicate CompleteScreenEvidence(screen: Record, m: Manifest, scope: seq<Phase>) {
    && screen.failures == []
    && IsLowerHex(screen.protocol.manifestSha256, 64)
    && CommandsComplete(screen.commands, RunOrderForStage(Screen), m.candidate, scope)
    && |screen.rawArtifacts| == 6 && (forall i :: 0 <= i < 6 ==> screen.rawArtifacts[i] != "")
    && |AsSet(screen.rawArtifacts)| == 6 && ArtifactsNamed(screen.rawArtifacts, screen.commands)
    && RowsCover(screen.scenarioRows)
    && NormalizeThresholds(m).Success?
    && (forall i :: 0 <= i < |screen.scenarioRows| ==>
         ScreenRowOk(screen.scenarioRows[i], scope, ThresholdMap(NormalizeThresholds(m).value)))
  }

  /** Candidate, scope, rationale, thresholds and protocol fingerprints are the record's own. */
  predicate Inherits(m: Manifest, scope: seq<Phase>, files: Surroundings, rec: Record) {
    && rec.candidate == m.candidate
    && NormalizeThresholds(m) == Success(rec.practicalThresholds)
    && rec.protocol.p0Commit == P0_COMMIT
    && rec.protocol.protocolDocumentSha256 == files.protocolDocumentSha256
    && rec.protocol.benchmarkSourceSha256 == files.benchmarkSourceSha256
    && rec.protocol.p0ReferenceSha256 == files.p0ReferenceSha256
    && rec.phaseScope == scope && rec.scopeRationale == m.scopeRationale
  }

  /** `validateConfirmationRecord` */
  predicate ConfirmationRecordOk(m: Manifest, screen: Record, scope: seq<Phase>, files: Surroundings) {
    screen.stage == Screen && screen.status == NeutralOrInconclusive && screen.failures == [] &&
      Inherits(m, scope, files, screen)
  }

  predicate ConfirmationRowOk(row: OutcomeRow, scope: seq<Phase>, thresholds: map<RowKey, real>) {
    && row.status != SemanticMismatch && row.p0RangeMs >= 0.0
    && if row.phase !in scope then UnmeasuredRowOk(row)
       else
         && row.status != NotMeasured && row.sinkComparison == Matched
         && RowKeyOf(row) in thresholds && row.practicalThresholdMs == Some(thresholds[RowKeyOf(row)])
         && |row.pairs| == 3 && forall i :: 0 <= i < 3 ==> row.pairs[i].pairIndex == i + 1
  }

  /** `hasCompleteConfirmationEvidence` */
  predicate CompleteConfirmationEvidence(rec: Record, scope: seq<Phase>) {
    && rec.screenRunId.Some? && rec.screenRunId.value != "" && rec.escalationDecision != ""
    && IsLowerHex(rec.protocol.manifestSha256, 64)
    && CommandsComplete(rec.commands, RunOrderForStage(Confirmation), rec.candidate, scope)
    && |AsSet(rec.rawArtifacts)| == 14 && ArtifactsNamed(rec.rawArtifacts, rec.commands)
    && RowsCover(rec.scenarioRows)
    && (forall i :: 0 <= i < |rec.scenarioRows| ==>
         ConfirmationRowOk(rec.scenarioRows[i], scope, ThresholdMap(rec.practicalThresholds)))
    && AggregateStatus(rec.scenarioRows) == rec.status
  }

  /** `validateFullProfileRecord` */
  predicate FullProfileRecordOk(m: Manifest, rec: Record, scope: seq<Phase>, files: Surroundings) {
    && rec.stage == Confirmation && IsVerdict(rec.status) && rec.failures == []
    && CompleteConfirmationEvidence(rec, scope) && Inherits(m, scope, files, rec)
  }

  // ------------------------------------------------------- paths and arguments

  lemma RelativeIs(files: Surroundings, name: string)
    ensures RelativeOutput(files, name) == OUTPUT_ROOT + "/" + files.runId + "/" + name
  {
    var rest := OUTPUT_ROOT + "/" + files.runId + "/" + name;
    var path := OutputPath(files, name);
    assert path == (files.runnerRoot + "/") + rest;
    assert path[..|files.runnerRoot| + 1] == files.runnerRoot + "/";
    assert path[|files.runnerRoot| + 1..] == rest;
  }

  /** What a process was started with, once recorded, is what a validator computes from the manifest. */
  lemma RecordedArgsAreNormalized(a: Admission, run: ProcessRun)
    ensures RecordedArgs(a, run) == NormalizedCommandArgs(a.profile, a.executionPhaseScope, run.condition,
      a.manifest.candidate.id, run.pairIndex, RelativeOutput(a.files, ReportName(run)))
  {
    var args := ProcessArgs(a, run);
    hide ReportName, OutputPath, RelativeOutput, Digits, JoinPhases;
    assert args[2][2] == 'p' && args[3][2] == 'p' && args[4][2] == 'c' && args[5][2] == 'c' && args[6][2] == 'p';
    assert OUTPUT_FILE[2] == 'o';
    assert OUTPUT_FILE <= args[7];
  }

  lemma FineCommandOk(a: Admission, run: ProcessRun, i: nat, item: PlannedItem, scope: seq<Phase>)
    requires FineRun(a, run) && a.profile == Pr && a.executionPhaseScope == scope
    requires run.sequence == i + 1 && run.pairIndex == item.0 && run.condition == item.1
    ensures CommandOk(CommandOf(a, run), i, item, a.manifest.candidate, scope)
  {
    assert run.file.Parsed? && run.file.report.commit == CommitInfo(ExpectedCommit(a.manifest, run.condition), false);
    hide FineRun, RecordedArgs, NormalizedCommandArgs, RelativeOutput;
    RecordedArgsAreNormalized(a, run);
    RelativeIs(a.files, ReportName(run));
    RelativeIs(a.files, ProcessName(run));
  }

  // ---------------------------------------------------------------- artifacts

  /** The names of the files the processes leave: each its report, then its process record. */
  function NamesOf(runs: seq<ProcessRun>): (r: seq<string>)
    ensures |r| == 2 * |runs|
  {
    if runs == [] then [] else [ReportName(runs[0]), ProcessName(runs[0])] + NamesOf(runs[1..])
  }

  lemma {:induction false} NameAt(runs: seq<ProcessRun>, i: nat)
    requires i < 2 * |runs|
    ensures NamesOf(runs)[i] == if i % 2 == 0 then ReportName(runs[i / 2]) else ProcessName(runs[i / 2])
  {
    hide ReportName, ProcessName;
    if i >= 2 {
      NameAt(runs[1..], i - 2);
      assert (i - 2) % 2 == i % 2 && (i - 2) / 2 == i / 2 - 1;
    }
  }

  function AllNames(runs: seq<ProcessRun>): seq<string> {
    ["admission.json"] + NamesOf(runs) + ["paired-summary.json"]
  }

  lemma {:induction false} ArtifactsAreNames(a: Admission, runs: seq<ProcessRun>, f: string -> string)
    requires forall j :: 0 <= j < |runs| ==> runs[j].file.Parsed?
    requires forall name :: f(name) == RelativeOutput(a.files, name)
    ensures ArtifactsOf(a, runs) == Map(NamesOf(runs), f)
  {
    hide RelativeOutput, ReportName, ProcessName;
    if runs != [] {
      ArtifactsAreNames(a, runs[1..], f);
      MapTwo(ReportName(runs[0]), ProcessName(runs[0]), NamesOf(runs[1..]), f);
    }
  }

  lemma MapTwo(x: string, y: string, rest: seq<string>, f: string -> string)
    ensures Map([x, y] + rest, f) == [f(x), f(y)] + Map(rest, f)
  {
  }

  /** A process's files start with its two-digit number. */
  lemma NameStarts(run: ProcessRun)
    requires 1 <= run.sequence <= 9
    ensures var r, p := ReportName(run), ProcessName(run);
      && |r| >= 2 && |p| == |r| + 8 && r[..2] == p[..2] == ['0', '0' + run.sequence as char]
  {
    assert Digits(run.sequence) == ['0' + run.sequence as char];
    var stem := Stem(run);
    assert stem[0] == '0' && stem[1] == '0' + run.sequence as char;
  }

  lemma NamesDiffer(runs: seq<ProcessRun>, i: nat, j: nat)
    requires |runs| <= 9 && (forall j :: 0 <= j < |runs| ==> runs[j].sequence == j + 1)
    requires i < j < 2 * |runs|
    ensures NamesOf(runs)[i] != NamesOf(runs)[j]
  {
    hide ReportName, ProcessName, NamesOf;
    NameAt(runs, i);
    NameAt(runs, j);
    NameStarts(runs[i / 2]);
    NameStarts(runs[j / 2]);
    var x, y := NamesOf(runs)[i], NamesOf(runs)[j];
    assert x[..2][1] == '0' + (i / 2 + 1) as char;
    assert y[..2][1] == '0' + (j / 2 + 1) as char;
    if i / 2 == j / 2 {
      assert i % 2 == 0 && j % 2 == 1;
    }
  }

  lemma AllNamesDistinct(runs: seq<ProcessRun>)
    requires |runs| <= 9 && (forall j :: 0 <= j < |runs| ==> runs[j].sequence == j + 1)
    ensures Distinct(AllNames(runs)) && |AllNames(runs)| == 2 * |runs| + 2
  {
    hide ReportName, ProcessName, NamesOf;
    var names := NamesOf(runs);
    forall i | 0 <= i < |names| ensures names[i] != "admission.json" && names[i] != "paired-summary.json" {
      NameAt(runs, i);
      NameStarts(runs[i / 2]);
      assert names[i][..2][0] == '0';
      assert names[i][0] == '0' && "admission.json"[0] == 'a' && "paired-summary.json"[0] == 'p';
    }
    forall i, j | 0 <= i < j < |names| ensures names[i] != names[j] {
      NamesDiffer(runs, i, j);
    }
    EndsDistinct("admission.json", names, "paired-summary.json") by {
      assert "admission.json"[0] == 'a' && "paired-summary.json"[0] == 'p';
    }
  }

  lemma EndsDistinct(x: string, s: seq<string>, y: string)
    requires Distinct(s) && x != y && forall i :: 0 <= i < |s| ==> s[i] != x && s[i] != y
    ensures Distinct([x] + s + [y])
  {
  }

  lemma MapEnds(x: string, s: seq<string>, y: string, f: string -> string)
    ensures Map([x] + s + [y], f) == [f(x)] + Map(s, f) + [f(y)]
  {
  }

  lemma ArtifactIndexIsNames(a: Admission, runs: seq<ProcessRun>, f: string -> string)
    requires forall j :: 0 <= j < |runs| ==> runs[j].file.Parsed?
    requires forall name :: f(name) == RelativeOutput(a.files, name)
    ensures ArtifactIndex(a, runs) == Map(AllNames(runs), f)
  {
    hide RelativeOutput, NamesOf, ArtifactsOf, Map;
    ArtifactsAreNames(a, runs, f);
    MapEnds("admission.json", NamesOf(runs), "paired-summary.json", f);
  }

  lemma RelativeDiffers(files: Surroundings, x: string, y: string)
    requires x != y
    ensures RelativeOutput(files, x) != RelativeOutput(files, y)
  {
    RelativeIs(files, x);
    RelativeIs(files, y);
    hide RelativeOutput;
    var prefix := OUTPUT_ROOT + "/" + files.runId + "/";
    assert (prefix + x)[|prefix|..] == x && (prefix + y)[|prefix|..] == y;
  }

  /** A complete run's artifact index: two entries for each process and two more, no two equal, none empty. */
  lemma ArtifactsComplete(a: Admission, runs: seq<ProcessRun>)
    requires |runs| <= 9 && forall j :: 0 <= j < |runs| ==> runs[j].sequence == j + 1 && runs[j].file.Parsed?
    ensures var artifacts := ArtifactIndex(a, runs);
      && |artifacts| == 2 * |runs| + 2 == |AsSet(artifacts)|
      && (forall i :: 0 <= i < |artifacts| ==> artifacts[i] != "")
      && ArtifactsNamed(artifacts, Map(runs, run => CommandOf(a, run)))
  {
    var artifacts, names := ArtifactIndex(a, runs), AllNames(runs);
    ArtifactIndexIsNames(a, runs, name => RelativeOutput(a.files, name));
    AllNamesDistinct(runs);
    forall i | 0 <= i < |artifacts| ensures artifacts[i] != "" && artifacts[i] == RelativeOutput(a.files, names[i]) {
      RelativeIs(a.files, names[i]);
    }
    hide RelativeOutput, NamesOf, ArtifactIndex, AllNames;
    forall i, j | 0 <= i < j < |artifacts| ensures artifacts[i] != artifacts[j] {
      RelativeDiffers(a.files, names[i], names[j]);
    }
    DistinctSetSize(artifacts);
    ArtifactsAreNamed(a, runs);
  }

  lemma ArtifactsAreNamed(a: Admission, runs: seq<ProcessRun>)
    requires forall j :: 0 <= j < |runs| ==> runs[j].file.Parsed?
    ensures ArtifactsNamed(ArtifactIndex(a, runs), Map(runs, run => CommandOf(a, run)))
  {
    hide RelativeOutput, ArtifactsOf, RecordedArgs, ReportPath, ProcessPath, EndsWith;
    var artifacts := ArtifactIndex(a, runs);
    NameAtEnd(a.files, "admission.json");
    NameAtEnd(a.files, "paired-summary.json");
    assert "/" + "admission.json" == "/admission.json" && "/" + "paired-summary.json" == "/paired-summary.json";
    assert EndsWith(artifacts[0], "/admission.json");
    assert EndsWith(artifacts[|artifacts| - 1], "/paired-summary.json");
    forall j | 0 <= j < |runs|
      ensures ReportPath(a, runs[j]).Some? && ReportPath(a, runs[j]).value in artifacts &&
        ProcessPath(a, runs[j]) in artifacts
    {
      ArtifactListed(a, runs, j);
    }
  }

  lemma NameAtEnd(files: Surroundings, name: string)
    ensures EndsWith(RelativeOutput(files, name), "/" + name)
  {
    RelativeIs(files, name);
    var prefix := OUTPUT_ROOT + "/" + files.runId;
    assert RelativeOutput(files, name) == prefix + ("/" + name);
  }

  lemma {:induction false} ArtifactListed(a: Admission, runs: seq<ProcessRun>, j: nat)
    requires j < |runs| && runs[j].file.Parsed?
    ensures ReportPath(a, runs[j]).Some? && ReportPath(a, runs[j]).value in ArtifactsOf(a, runs)
    ensures ProcessPath(a, runs[j]) in ArtifactsOf(a, runs)
  {
    hide RelativeOutput;
    if j > 0 {
      ArtifactListed(a, runs[1..], j - 1);
    }
  }

  // --------------------------------------------------------------- thresholds

  lemma {:induction false} ThresholdsFound(keys: seq<RowKey>, byRow: map<RowKey, real>)
    requires forall i :: 0 <= i < |keys| ==> keys[i] in byRow
    ensures var ts := ThresholdsFor(keys, byRow);
      ts.Success? && |ts.value| == |keys| &&
      forall i :: 0 <= i < |keys| ==> ts.value[i] == Threshold(keys[i].0, keys[i].1, byRow[keys[i]])
  {
    if keys != [] {
      ThresholdsFound(keys[1..], byRow);
    }
  }

  /** Normalizing an admitted manifest's thresholds keeps each declared row's threshold. */
  lemma NormalizedThresholdsKept(m: Manifest, r: P0Reference, files: Surroundings, k: RowKey)
    requires ManifestShapeOk(m, r)
    ensures var ts, a := NormalizeThresholds(m), Admit(m, r, files);
      ts.Success? && (k.0 in a.phaseScope ==>
        k in ThresholdMap(ts.value) && k in a.thresholdByRow && ThresholdMap(ts.value)[k] == a.thresholdByRow[k])
  {
    hide ManifestShapeOk, RowKeysOf, ThresholdMap, P0Map, NormalizedScope;
    var keys, byRow := RowKeysOf(NormalizedScope(m.phaseScope)), ThresholdMap(m.practicalThresholds);
    forall i | 0 <= i < |keys| ensures keys[i] in byRow {
      RowKeysAre(NormalizedScope(m.phaseScope), keys[i]);
      AdmittedRowsHaveData(m, r, files, keys[i]);
    }
    ThresholdsFound(keys, byRow);
    var ts := ThresholdsFor(keys, byRow).value;
    if k.0 in NormalizedScope(m.phaseScope) {
      ScopeDistinct(m.phaseScope);
      RowKeysDistinct(NormalizedScope(m.phaseScope));
      RowKeysAre(NormalizedScope(m.phaseScope), k);
      assert Map(ts, ThresholdKey) == keys;
      var i :| 0 <= i < |keys| && keys[i] == k;
      ThresholdLookup(ts, i);
    }
  }

  // --------------------------------------------------------------------- rows

  /** The row of a run of a real candidate that went through, when only declared phases were executed. */
  predicate CleanFields(a: Admission, pairs: seq<PairDelta>, k: RowKey, row: OutcomeRow) {
    && RowKeyOf(row) == k
    && (k.0 !in a.phaseScope ==>
         row.status == NotMeasured && row.sinkComparison == SinkNotMeasured && row.practicalThresholdMs == None &&
           row.pairs == [])
    && (k.0 in a.phaseScope && pairs != [] && k in a.thresholdByRow ==>
         && IsVerdict(row.status) && (a.manifest.stage != Confirmation ==> row.status == NeutralOrInconclusive)
         && row.sinkComparison == Matched && row.practicalThresholdMs == Some(a.thresholdByRow[k]) &&
              row.pairs == pairs)
  }

  lemma CleanRowFields(a: Admission, st: RunState, k: RowKey, p0Range: real)
    requires !Stopped(st) && a.phaseScope == a.executionPhaseScope && a.manifest.candidate.kind == RealCandidate
    ensures var row := BuildRow(a, st, k, p0Range);
      row.p0RangeMs == p0Range && CleanFields(a, DeltasOf(st.pairDeltas, k), k, row)
  {
    hide ClassifyConfirmationRow;
    ClassifiedIff(Map(DeltasOf(st.pairDeltas, k), DeltaMs), if k in a.thresholdByRow then a.thresholdByRow[k] else 0.0,
      p0Range);
  }

  /** A declared row has its threshold and its pairs, numbered from 1. */
  predicate RowInputs(a: Admission, pairs: seq<PairDelta>, k: RowKey, ts: map<RowKey, real>) {
    k in ts && k in a.thresholdByRow && ts[k] == a.thresholdByRow[k] && pairs != [] &&
    forall i :: 0 <= i < |pairs| ==> pairs[i].pairIndex == i + 1
  }

  lemma CleanFieldsOk(a: Admission, pairs: seq<PairDelta>, k: RowKey, row: OutcomeRow, ts: map<RowKey, real>)
    requires CleanFields(a, pairs, k, row) && row.p0RangeMs >= 0.0
    requires k.0 in a.phaseScope ==> RowInputs(a, pairs, k, ts)
    ensures a.manifest.stage != Confirmation && (k.0 in a.phaseScope ==> |pairs| == 1) ==>
      ScreenRowOk(row, a.phaseScope, ts)
    ensures k.0 in a.phaseScope ==> |pairs| == 3 ==> ConfirmationRowOk(row, a.phaseScope, ts)
    ensures k.0 !in a.phaseScope ==> ConfirmationRowOk(row, a.phaseScope, ts)
  {
  }

  lemma CleanPairs(m: Manifest, r: P0Reference, files: Surroundings, world: World, k: RowKey)
    requires CleanRun(Admit(m, r, files), world) && k.0 in Admit(m, r, files).executionPhaseScope
    ensures var pairs := DeltasOf(FinalState(Admit(m, r, files), world).pairDeltas, k);
      |pairs| == |RunOrderForManifest(m)| / 2 > 0 && forall i :: 0 <= i < |pairs| ==> pairs[i].pairIndex == i + 1
  {
    var a, order := Admit(m, r, files), RunOrderForManifest(m);
    OrdersArePaired(m);
    hide CleanRun, Stopped, FinalState, Admit, RunOrderForManifest, CleanUpTo, FirstTracked, RowMap;
    GoesThroughIffClean(m, r, files, world);
    assert DeltasTracked(a, order, world, |order|, FinalState(a, world), k);
  }

  lemma CleanRowInputs(m: Manifest, r: P0Reference, files: Surroundings, world: World, k: RowKey)
    requires ManifestShapeOk(m, r) && CleanRun(Admit(m, r, files), world)
    requires k.0 in Admit(m, r, files).phaseScope
    ensures var a, ts := Admit(m, r, files), NormalizeThresholds(m);
      ts.Success? && RowInputs(a, DeltasOf(FinalState(a, world).pairDeltas, k), k, ThresholdMap(ts.value))
  {
    hide FinalState, Admit, ManifestShapeOk, RunOrderForManifest, NormalizeThresholds, ThresholdMap, CleanRun;
    AdmittedRowsHaveData(m, r, files, k);
    NormalizedThresholdsKept(m, r, files, k);
    CleanPairs(m, r, files, world, k);
  }

  predicate OnlyDeclaredPhases(m: Manifest) {
    m.candidate.kind == RealCandidate && m.stage != FullProfile
  }

  lemma DeclaredAreExecuted(m: Manifest, r: P0Reference, files: Surroundings)
    ensures var a := Admit(m, r, files);
      a.manifest == m && (m.stage != FullProfile ==> a.phaseScope == a.executionPhaseScope && a.profile == Pr)
  {
  }

  /** What both validators ask of a row of a clean run. */
  lemma CleanRowOk(m: Manifest, r: P0Reference, files: Surroundings, world: World, k: RowKey)
    requires ManifestShapeOk(m, r) && OnlyDeclaredPhases(m) && CleanRun(Admit(m, r, files), world)
    ensures NormalizeThresholds(m).Success?
    ensures var a := Admit(m, r, files);
      && k in a.p0ByRow
      && var row, ts := BuildRow(a, FinalState(a, world), k, a.p0ByRow[k]), ThresholdMap(NormalizeThresholds(m).value);
      && (m.stage == Screen ==> ScreenRowOk(row, a.phaseScope, ts))
      && (m.stage == Confirmation ==> ConfirmationRowOk(row, a.phaseScope, ts))
  {
    hide BuildRow, FinalState, Admit, ManifestShapeOk, RunOrderForManifest, NormalizeThresholds, ThresholdMap,
      Stopped, CleanRun, ScreenRowOk, ConfirmationRowOk, CleanFields, Tracks, PairedOrder, RowInputs, DeltasOf;
    var a := Admit(m, r, files);
    DeclaredAreExecuted(m, r, files);
    OrdersArePaired(m);
    GoesThroughIffClean(m, r, files, world);
    AdmittedRowsHaveData(m, r, files, k);
    NormalizedThresholdsKept(m, r, files, k);
    CleanRowFields(a, FinalState(a, world), k, a.p0ByRow[k]);
    if k.0 in a.phaseScope {
      CleanRowInputs(m, r, files, world, k);
      CleanPairs(m, r, files, world, k);
    }
    CleanFieldsOk(a, DeltasOf(FinalState(a, world).pairDeltas, k), k,
                  BuildRow(a, FinalState(a, world), k, a.p0ByRow[k]), ThresholdMap(NormalizeThresholds(m).value));
  }

  /** The rows of an admitted run are the 42 rows, each once. */
  lemma BuiltRowsCover(m: Manifest, r: P0Reference, files: Surroundings, st: RunState)
    requires ManifestShapeOk(m, r)
    ensures BuildOutcomeRows(Admit(m, r, files), st).Success? &&
      RowsCover(BuildOutcomeRows(Admit(m, r, files), st).value)
  {
    hide ManifestShapeOk, Admit, BuildOutcomeRows, RowKeysOf;
    var a := Admit(m, r, files);
    AdmittedRowsBuilt(m, r, files, st);
    var rows := BuildOutcomeRows(a, st).value;
    forall i | 0 <= i < |rows| ensures RowKeyOf(rows[i]) == AllRowKeys()[i] {
      BuiltRowKey(a, st, AllRowKeys()[i], a.p0ByRow[AllRowKeys()[i]]);
    }
    hide BuildRow;
    assert Map(rows, RowKeyOf) == AllRowKeys();
    RowKeysDistinct(PHASE_NAMES) by {
      PhaseNamesDistinct();
    }
    DistinctSetSize(AllRowKeys());
  }

  lemma BuiltRowKey(a: Admission, st: RunState, k: RowKey, p0Range: real)
    ensures RowKeyOf(BuildRow(a, st, k, p0Range)) == k
  {
    hide ClassifyConfirmationRow;
  }

  // ----------------------------------------------------------------- failures

  lemma {:induction false} NoProcessFailures(a: Admission, runs: seq<ProcessRun>)
    requires forall j :: 0 <= j < |runs| ==> FineRun(a, runs[j])
    ensures ProcessFailures(a, runs) == []
  {
    hide RawReportOk, ProcessPath;
    if runs != [] {
      assert FineRun(a, runs[0]);
      NoProcessFailures(a, runs[1..]);
    }
  }

  // ------------------------------------------------- producer meets validator

  lemma RecordWritten(m: Manifest, r: P0Reference, files: Surroundings, st: RunState)
    requires ManifestShapeOk(m, r)
    ensures RecordOf(Admit(m, r, files), st).Success?
  {
    hide BuildOutcomeRows, ManifestShapeOk, NormalizeThresholds;
    AdmittedRowsBuilt(m, r, files, st);
    NormalizedThresholdsKept(m, r, files, (RendererPrint, TrackedCustomerSummary));
  }

  /** The record a run of an admitted manifest writes. */
  function RecordOfRun(m: Manifest, r: P0Reference, files: Surroundings, world: World): Record
    requires ManifestShapeOk(m, r)
  {
    RecordWritten(m, r, files, FinalState(Admit(m, r, files), world));
    RecordOf(Admit(m, r, files), FinalState(Admit(m, r, files), world)).value
  }

  /** What the record says of the manifest. */
  predicate SaysManifest(a: Admission, rec: Record) {
    && rec.runId == a.files.runId && rec.stage == a.manifest.stage && rec.candidate == a.manifest.candidate
    && rec.phaseScope == a.phaseScope && rec.scopeRationale == a.manifest.scopeRationale &&
         rec.screenRunId == a.manifest.screenRunId
    && NormalizeThresholds(a.manifest) == Success(rec.practicalThresholds)
    && rec.protocol == Protocol(a.reference.p0Commit, a.files.p0ReferenceSha256, a.files.protocolDocumentSha256,
                                a.files.benchmarkSourceSha256, a.files.manifestSha256)
  }

  /** What the record says of the run. */
  predicate SaysRun(a: Admission, st: RunState, rec: Record) {
    && rec.commands == Map(st.runs, run => CommandOf(a, run)) && rec.rawArtifacts == ArtifactIndex(a, st.runs)
    && rec.failures == ProcessFailures(a, st.runs) + (if st.orchestrationFailed then [RunnerFailure] else [])
    && BuildOutcomeRows(a, st) == Success(rec.scenarioRows) && rec.status == AggregateStatus(rec.scenarioRows)
    && rec.escalationDecision != ""
  }

  lemma RecordSays(a: Admission, st: RunState, rec: Record)
    requires RecordOf(a, st) == Success(rec)
    ensures SaysManifest(a, rec) && SaysRun(a, st, rec)
  {
    hide BuildOutcomeRows, NormalizeThresholds, CommandOf, ArtifactIndex, ProcessFailures, AggregateStatus,
      RunOrderForManifest;
  }

  lemma StatusSaid(m: Manifest, r: P0Reference, files: Surroundings, world: World)
    requires ManifestShapeOk(m, r)
    ensures var rec := RecordOfRun(m, r, files, world);
      && rec.status == RunStatus(m, r, files, world) && rec.stage == m.stage
      && SaysManifest(Admit(m, r, files), rec) &&
           SaysRun(Admit(m, r, files), FinalState(Admit(m, r, files), world), rec)
  {
    hide RecordOf, ManifestShapeOk, FinalState, BuildOutcomeRows, NormalizeThresholds, SaysRun;
    var a := Admit(m, r, files);
    RecordWritten(m, r, files, FinalState(a, world));
    RecordSays(a, FinalState(a, world), RecordOfRun(m, r, files, world));
    StatusOfSaid(m, r, files, world, RecordOfRun(m, r, files, world));
  }

  lemma StatusOfSaid(m: Manifest, r: P0Reference, files: Surroundings, world: World, rec: Record)
    requires ManifestShapeOk(m, r) && SaysRun(Admit(m, r, files), FinalState(Admit(m, r, files), world), rec)
    ensures rec.status == RunStatus(m, r, files, world)
  {
    hide ManifestShapeOk, FinalState, BuildOutcomeRows, Admit, CommandOf, ArtifactIndex, ProcessFailures,
      AggregateStatus;
  }

  /** What a clean run of declared phases leaves behind, apart from its rows. */
  predicate CleanLeavings(a: Admission, rec: Record, order: seq<PlannedItem>) {
    && rec.failures == []
    && CommandsComplete(rec.commands, order, a.manifest.candidate, a.phaseScope)
    && |rec.rawArtifacts| == 2 * |order| + 2 == |AsSet(rec.rawArtifacts)|
    && (forall i :: 0 <= i < |rec.rawArtifacts| ==> rec.rawArtifacts[i] != "")
    && ArtifactsNamed(rec.rawArtifacts, rec.commands)
  }

  lemma CompleteLeaves(a: Admission, world: World, st: RunState, rec: Record)
    requires CompleteRun(a, world, st.runs) && |st.runs| <= 9 && !st.orchestrationFailed && SaysRun(a, st, rec)
    requires a.profile == Pr && a.executionPhaseScope == a.phaseScope
    ensures CleanLeavings(a, rec, RunOrderForManifest(a.manifest))
  {
    CompleteFacts(a, world, st.runs);
    hide RunOrderForManifest, CompleteRun, FineRun, ArtifactIndex, CommandOf, ProcessFailures, ArtifactsNamed,
      CommandOk, AsSet, BuildOutcomeRows, AggregateStatus;
    var order := RunOrderForManifest(a.manifest);
    NoProcessFailures(a, st.runs);
    ArtifactsComplete(a, st.runs);
    forall i | 0 <= i < |st.runs|
      ensures CommandOk(CommandOf(a, st.runs[i]), i, order[i], a.manifest.candidate, a.phaseScope)
    {
      FineCommandOk(a, st.runs[i], i, order[i], a.phaseScope);
    }
  }

  lemma CleanRunLeaves(m: Manifest, r: P0Reference, files: Surroundings, world: World)
    requires ManifestShapeOk(m, r) && OnlyDeclaredPhases(m) && CleanRun(Admit(m, r, files), world)
    ensures CleanLeavings(Admit(m, r, files), RecordOfRun(m, r, files, world), RunOrderForManifest(m))
  {
    var a := Admit(m, r, files);
    var st := FinalState(a, world);
    DeclaredAreExecuted(m, r, files);
    hide RecordOfRun, Admit, FinalState, ManifestShapeOk, RunOrderForManifest, CleanRun, CompleteRun, PairedOrder,
      Stopped, SaysRun, SaysManifest, RunStatus, CleanLeavings;
    OrdersArePaired(m);
    CleanIsComplete(m, r, files, world);
    CompleteLength(m, r, files, world);
    CleanIsQuiet(m, r, files, world);
    StatusSaid(m, r, files, world);
    CompleteLeaves(a, world, st, RecordOfRun(m, r, files, world));
  }

  lemma CleanIsQuiet(m: Manifest, r: P0Reference, files: Surroundings, world: World)
    requires CleanRun(Admit(m, r, files), world)
    ensures Quiet(FinalState(Admit(m, r, files), world))
  {
    hide FinalState, Admit, RunOrderForManifest, CleanRun, FirstTracked, CleanUpTo, Stopped;
    GoesThroughIffClean(m, r, files, world);
  }

  lemma CompleteFacts(a: Admission, world: World, runs: seq<ProcessRun>)
    requires CompleteRun(a, world, runs)
    ensures |runs| == |RunOrderForManifest(a.manifest)|
    ensures forall j :: 0 <= j < |runs| ==>
      FineRun(a, runs[j]) && runs[j].file.Parsed? && runs[j].sequence == j + 1 &&
      runs[j].pairIndex == RunOrderForManifest(a.manifest)[j].0 &&
        runs[j].condition == RunOrderForManifest(a.manifest)[j].1
  {
    hide RawReportOk, AgreesWith, RunOrderForManifest;
    forall j | 0 <= j < |runs| ensures runs[j].file.Parsed? {
      ParsedWhenOk(runs[j], a);
    }
  }

  /** The later manifest repeats the earlier one's declarations, under the same fingerprints. */
  predicate InheritsFrom(m: Manifest, files: Surroundings, m0: Manifest, files0: Surroundings) {
    && m.candidate == m0.candidate && m.scopeRationale == m0.scopeRationale
    && NormalizedScope(m.phaseScope) == NormalizedScope(m0.phaseScope) &&
         NormalizeThresholds(m) == NormalizeThresholds(m0)
    && files.protocolDocumentSha256 == files0.protocolDocumentSha256
    && files.benchmarkSourceSha256 == files0.benchmarkSourceSha256 &&
         files.p0ReferenceSha256 == files0.p0ReferenceSha256
  }

  /** Both checks a confirmation puts a screen record through. */
  predicate ScreenAccepted(rec: Record, m: Manifest, files: Surroundings) {
    CompleteScreenEvidence(rec, m, NormalizedScope(m.phaseScope)) &&
      ConfirmationRecordOk(m, rec, NormalizedScope(m.phaseScope), files)
  }

  /** The check a full profile puts a confirmation record through. */
  predicate ConfirmationAccepted(rec: Record, m: Manifest, files: Surroundings) {
    FullProfileRecordOk(m, rec, NormalizedScope(m.phaseScope), files)
  }

  lemma InheritsIff(m: Manifest, files: Surroundings, m0: Manifest, r: P0Reference, files0: Surroundings, rec: Record)
    requires ManifestShapeOk(m0, r) && SaysManifest(Admit(m0, r, files0), rec)
    ensures Inherits(m, NormalizedScope(m.phaseScope), files, rec) <==> InheritsFrom(m, files, m0, files0)
  {
    assert r.p0Commit == P0_COMMIT;
    hide ManifestShapeOk, NormalizeThresholds, NormalizedScope, ThresholdMap, P0Map;
  }

  /** A clean run's rows pass the row check of its stage. */
  lemma CleanRowsOk(m: Manifest, r: P0Reference, files: Surroundings, world: World, rec: Record, i: nat)
    requires ManifestShapeOk(m, r) && OnlyDeclaredPhases(m) && CleanRun(Admit(m, r, files), world)
    requires rec == RecordOfRun(m, r, files, world) && i < |rec.scenarioRows|
    ensures var ts := ThresholdMap(rec.practicalThresholds);
      && (m.stage == Screen ==> ScreenRowOk(rec.scenarioRows[i], rec.phaseScope, ts))
      && (m.stage == Confirmation ==> ConfirmationRowOk(rec.scenarioRows[i], rec.phaseScope, ts))
  {
    var a := Admit(m, r, files);
    var st := FinalState(a, world);
    hide RecordOfRun, FinalState, ManifestShapeOk, CleanRun, NormalizeThresholds, ThresholdMap, Admit, BuildRow,
      ScreenRowOk, ConfirmationRowOk, CommandOf, ArtifactIndex, ProcessFailures, AggregateStatus, RowKeysOf,
      OnlyDeclaredPhases;
    DeclaredAreExecuted(m, r, files);
    StatusSaid(m, r, files, world);
    RowsComeFromKeys(a, st, AllRowKeys(), i);
    CleanRowOk(m, r, files, world, AllRowKeys()[i]);
  }

  lemma RecordRowsCover(m: Manifest, r: P0Reference, files: Surroundings, world: World)
    requires ManifestShapeOk(m, r)
    ensures RowsCover(RecordOfRun(m, r, files, world).scenarioRows)
  {
    hide RecordOfRun, FinalState, ManifestShapeOk, Admit, RowsCover, BuildOutcomeRows, CommandOf, ArtifactIndex,
      ProcessFailures, AggregateStatus;
    StatusSaid(m, r, files, world);
    BuiltRowsCover(m, r, files, FinalState(Admit(m, r, files), world));
  }

  /**
   * Producer and validator of screen evidence agree: of the records the runner can write, a confirmation accepts
   * exactly those of clean screens of a real candidate whose declarations it repeats.
   */
  lemma ScreenAcceptedIff(m0: Manifest, r: P0Reference, files0: Surroundings, world: World, m: Manifest,
                          files: Surroundings)
    requires ManifestShapeOk(m0, r)
    ensures ScreenAccepted(RecordOfRun(m0, r, files0, world), m, files) <==>
      && m0.stage == Screen && m0.candidate.kind == RealCandidate && CleanRun(Admit(m0, r, files0), world)
      && InheritsFrom(m, files, m0, files0) && IsLowerHex(files0.manifestSha256, 64)
  {
    hide RecordOfRun, Admit, ManifestShapeOk, CleanRun, ScreenAccepted, IsLowerHex, InheritsFrom;
    if ScreenAccepted(RecordOfRun(m0, r, files0, world), m, files) {
      AcceptedScreenIsClean(m0, r, files0, world, m, files);
    }
    if m0.stage == Screen && m0.candidate.kind == RealCandidate && CleanRun(Admit(m0, r, files0), world)
      && InheritsFrom(m, files, m0, files0) && IsLowerHex(files0.manifestSha256, 64) {
      CleanScreenIsAccepted(m0, r, files0, world, m, files);
    }
  }

  lemma AcceptedScreenIsClean(m0: Manifest, r: P0Reference, files0: Surroundings, world: World, m: Manifest,
                              files: Surroundings)
    requires ManifestShapeOk(m0, r) && ScreenAccepted(RecordOfRun(m0, r, files0, world), m, files)
    ensures m0.stage == Screen && m0.candidate.kind == RealCandidate && CleanRun(Admit(m0, r, files0), world)
    ensures InheritsFrom(m, files, m0, files0) && IsLowerHex(files0.manifestSha256, 64)
  {
    hide RecordOfRun, ManifestShapeOk, CleanRun, RunStatus, NormalizeThresholds, ThresholdMap, IsLowerHex, P0Map,
      CommandsComplete, ArtifactsNamed, RowsCover, ScreenRowOk, SaysRun, FinalState, NormalizedScope, AsSet,
      InheritsFrom;
    StatusSaid(m0, r, files0, world);
    StatusIff(m0, r, files0, world);
    InheritsIff(m, files, m0, r, files0, RecordOfRun(m0, r, files0, world));
  }

  lemma CleanScreenIsAccepted(m0: Manifest, r: P0Reference, files0: Surroundings, world: World, m: Manifest,
                              files: Surroundings)
    requires ManifestShapeOk(m0, r) && m0.stage == Screen && m0.candidate.kind == RealCandidate &&
      CleanRun(Admit(m0, r, files0), world)
    requires InheritsFrom(m, files, m0, files0) && IsLowerHex(files0.manifestSha256, 64)
    ensures ScreenAccepted(RecordOfRun(m0, r, files0, world), m, files)
  {
    var rec, a := RecordOfRun(m0, r, files0, world), Admit(m0, r, files0);
    hide RecordOfRun, ManifestShapeOk, CleanRun, RunStatus, FinalState, Admit, CleanLeavings, RowsCover, ScreenRowOk,
      ScreenAccepted, ThresholdMap, SaysRun, SaysManifest, InheritsFrom, IsLowerHex, Inherits;
    DeclaredAreExecuted(m0, r, files0);
    FilesAdmitted(m0, r, files0);
    StatusSaid(m0, r, files0, world);
    StatusIff(m0, r, files0, world);
    InheritsIff(m, files, m0, r, files0, rec);
    CleanRunLeaves(m0, r, files0, world);
    RecordRowsCover(m0, r, files0, world);
    forall i | 0 <= i < |rec.scenarioRows|
      ensures ScreenRowOk(rec.scenarioRows[i], rec.phaseScope, ThresholdMap(rec.practicalThresholds))
    {
      CleanRowsOk(m0, r, files0, world, rec, i);
    }
    ScreenPiecesFit(a, rec, m, files);
  }

  lemma FilesAdmitted(m: Manifest, r: P0Reference, files: Surroundings)
    ensures Admit(m, r, files).files == files && Admit(m, r, files).phaseScope == NormalizedScope(m.phaseScope)
  {
  }

  lemma ScreenPiecesFit(a: Admission, rec: Record, m: Manifest, files: Surroundings)
    requires SaysManifest(a, rec) && a.manifest.stage == Screen && IsLowerHex(a.files.manifestSha256, 64)
    requires CleanLeavings(a, rec, RunOrderForStage(Screen)) && RowsCover(rec.scenarioRows) &&
      rec.status == NeutralOrInconclusive
    requires Inherits(m, NormalizedScope(m.phaseScope), files, rec)
    requires forall i :: 0 <= i < |rec.scenarioRows| ==>
      ScreenRowOk(rec.scenarioRows[i], rec.phaseScope, ThresholdMap(rec.practicalThresholds))
    ensures ScreenAccepted(rec, m, files)
  {
    hide RowsCover, ScreenRowOk, ThresholdMap, NormalizeThresholds, NormalizedScope, CommandsComplete, ArtifactsNamed,
      IsLowerHex, AsSet;
  }

  /**
   * The same for confirmation evidence: a full profile accepts exactly the records of clean confirmations whose
   * declarations it repeats.
   */
  lemma ConfirmationAcceptedIff(m0: Manifest, r: P0Reference, files0: Surroundings, world: World, m: Manifest,
                                files: Surroundings)
    requires ManifestShapeOk(m0, r)
    ensures ConfirmationAccepted(RecordOfRun(m0, r, files0, world), m, files) <==>
      && m0.stage == Confirmation && CleanRun(Admit(m0, r, files0), world)
      && InheritsFrom(m, files, m0, files0) && IsLowerHex(files0.manifestSha256, 64)
  {
    hide RecordOfRun, Admit, ManifestShapeOk, CleanRun, ConfirmationAccepted, IsLowerHex, InheritsFrom;
    if ConfirmationAccepted(RecordOfRun(m0, r, files0, world), m, files) {
      AcceptedConfirmationIsClean(m0, r, files0, world, m, files);
    }
    if m0.stage == Confirmation && CleanRun(Admit(m0, r, files0), world)
      && InheritsFrom(m, files, m0, files0) && IsLowerHex(files0.manifestSha256, 64) {
      CleanConfirmationIsAccepted(m0, r, files0, world, m, files);
    }
  }

  lemma AcceptedConfirmationIsClean(m0: Manifest, r: P0Reference, files0: Surroundings, world: World, m: Manifest,
                                    files: Surroundings)
    requires ManifestShapeOk(m0, r) && ConfirmationAccepted(RecordOfRun(m0, r, files0, world), m, files)
    ensures m0.stage == Confirmation && CleanRun(Admit(m0, r, files0), world)
    ensures InheritsFrom(m, files, m0, files0) && IsLowerHex(files0.manifestSha256, 64)
  {
    hide RecordOfRun, ManifestShapeOk, CleanRun, RunStatus, NormalizeThresholds, ThresholdMap, IsLowerHex, P0Map,
      AggregateStatus, CommandsComplete, ArtifactsNamed, RowsCover, ConfirmationRowOk, SaysRun, FinalState,
      NormalizedScope, AsSet, InheritsFrom;
    StatusSaid(m0, r, files0, world);
    StatusIff(m0, r, files0, world);
    InheritsIff(m, files, m0, r, files0, RecordOfRun(m0, r, files0, world));
  }

  lemma CleanConfirmationIsAccepted(m0: Manifest, r: P0Reference, files0: Surroundings, world: World, m: Manifest,
                                    files: Surroundings)
    requires ManifestShapeOk(m0, r) && m0.stage == Confirmation && CleanRun(Admit(m0, r, files0), world)
    requires InheritsFrom(m, files, m0, files0) && IsLowerHex(files0.manifestSha256, 64)
    ensures ConfirmationAccepted(RecordOfRun(m0, r, files0, world), m, files)
  {
    var rec, a := RecordOfRun(m0, r, files0, world), Admit(m0, r, files0);
    ConfirmationsAreReal(m0, r);
    hide RecordOfRun, ManifestShapeOk, CleanRun, RunStatus, FinalState, Admit, CleanLeavings, RowsCover,
      ConfirmationRowOk, ConfirmationAccepted, ThresholdMap, SaysManifest, InheritsFrom, IsLowerHex, Inherits,
      BuildOutcomeRows, CommandOf, ArtifactIndex, ProcessFailures, AggregateStatus;
    DeclaredAreExecuted(m0, r, files0);
    FilesAdmitted(m0, r, files0);
    StatusSaid(m0, r, files0, world);
    StatusIff(m0, r, files0, world);
    InheritsIff(m, files, m0, r, files0, rec);
    CleanRunLeaves(m0, r, files0, world);
    RecordRowsCover(m0, r, files0, world);
    forall i | 0 <= i < |rec.scenarioRows|
      ensures ConfirmationRowOk(rec.scenarioRows[i], rec.phaseScope, ThresholdMap(rec.practicalThresholds))
    {
      CleanRowsOk(m0, r, files0, world, rec, i);
    }
    ConfirmationPiecesFit(a, rec, m, files);
  }

  lemma ConfirmationsAreReal(m: Manifest, r: P0Reference)
    requires ManifestShapeOk(m, r) && m.stage == Confirmation
    ensures m.candidate.kind == RealCandidate && m.screenRunId.Some? && m.screenRunId.value != ""
  {
  }

  lemma ConfirmationPiecesFit(a: Admission, rec: Record, m: Manifest, files: Surroundings)
    requires SaysManifest(a, rec) && a.manifest.stage == Confirmation && IsLowerHex(a.files.manifestSha256, 64)
    requires a.manifest.screenRunId.Some? && a.manifest.screenRunId.value != "" && rec.escalationDecision != ""
    requires CleanLeavings(a, rec, RunOrderForStage(Confirmation)) && RowsCover(rec.scenarioRows)
    requires IsVerdict(rec.status) && rec.status == AggregateStatus(rec.scenarioRows)
    requires Inherits(m, NormalizedScope(m.phaseScope), files, rec)
    requires forall i :: 0 <= i < |rec.scenarioRows| ==>
      ConfirmationRowOk(rec.scenarioRows[i], rec.phaseScope, ThresholdMap(rec.practicalThresholds))
    ensures ConfirmationAccepted(rec, m, files)
  {
    hide RowsCover, ConfirmationRowOk, ThresholdMap, NormalizeThresholds, NormalizedScope, CommandsComplete,
      ArtifactsNamed, IsLowerHex, AsSet, AggregateStatus;
  }

  // ------------------------------------------------------ links through the log

  /** The first record of the log with this run id. */
  function FindRecord(log: seq<Record>, id: Option<string>): (found: Option<Record>)
    ensures found.Some? ==> found.value in log && id == Some(found.value.runId)
  {
    if log == [] then None
    else if id == Some(log[0].runId) then Some(log[0])
    else FindRecord(log[1..], id)
  }

  /** `validateConfirmationLink` */
  predicate ConfirmationLinkOk(log: seq<Record>, m: Manifest, files: Surroundings) {
    var screen := FindRecord(log, m.screenRunId);
    screen.Some? && ScreenAccepted(screen.value, m, files)
  }

  /** `validateFullProfileLink` */
  predicate FullProfileLinkOk(log: seq<Record>, m: Manifest, files: Surroundings) {
    var confirmation := FindRecord(log, m.confirmationRunId);
    confirmation.Some? &&
    var screen := FindRecord(log, confirmation.value.screenRunId);
    screen.Some? && ScreenAccepted(screen.value, m, files) && ConfirmationAccepted(confirmation.value, m, files)
  }

  /** Where a record comes from. */
  datatype Origin = Origin(manifest: Manifest, reference: P0Reference, files: Surroundings, world: World)

  predicate WrittenBy(rec: Record, o: Origin) {
    ManifestShapeOk(o.manifest, o.reference) && rec == RecordOfRun(o.manifest, o.reference, o.files, o.world)
  }

  predicate CleanOrigin(o: Origin, stage: Stage, m: Manifest, files: Surroundings) {
    && o.manifest.stage == stage && o.manifest.candidate.kind == RealCandidate
    && CleanRun(Admit(o.manifest, o.reference, o.files), o.world) && InheritsFrom(m, files, o.manifest, o.files)
  }

  lemma ConfirmationKind(o: Origin)
    requires ManifestShapeOk(o.manifest, o.reference)
    ensures o.manifest.stage == Confirmation ==> o.manifest.candidate.kind == RealCandidate
  {
  }

  lemma {:induction false} FindAppended(log: seq<Record>, rec: Record)
    requires FindRecord(log, Some(rec.runId)).None?
    ensures FindRecord(log + [rec], Some(rec.runId)) == Some(rec)
  {
    if log != [] {
      FindAppended(log[1..], rec);
      assert (log + [rec])[1..] == log[1..] + [rec];
    }
  }

  /** A clean screen, once appended to the log under a new run id, admits every confirmation that inherits from it. */
  lemma CleanScreenAdmitsConfirmation(log: seq<Record>, o: Origin, m: Manifest, files: Surroundings)
    requires ManifestShapeOk(o.manifest, o.reference) && CleanOrigin(o, Screen, m, files) &&
      IsLowerHex(o.files.manifestSha256, 64)
    requires var rec := RecordOfRun(o.manifest, o.reference, o.files, o.world);
      FindRecord(log, Some(rec.runId)).None? && m.screenRunId == Some(rec.runId)
    ensures ConfirmationLinkOk(log + [RecordOfRun(o.manifest, o.reference, o.files, o.world)], m, files)
  {
    hide ScreenAccepted, CleanRun, InheritsFrom, RecordOfRun, ManifestShapeOk, IsLowerHex;
    CleanScreenIsAccepted(o.manifest, o.reference, o.files, o.world, m, files);
    FindAppended(log, RecordOfRun(o.manifest, o.reference, o.files, o.world));
  }

  // ------------------------------------------------- exactly which links hold

  /** The first record of the log with this run id stands at `i`. */
  predicate FirstAt(log: seq<Record>, i: nat, id: Option<string>) {
    i < |log| && id == Some(log[i].runId) && forall j :: 0 <= j < i ==> id != Some(log[j].runId)
  }

  lemma {:induction false} FirstIsFound(log: seq<Record>, i: nat, id: Option<string>)
    requires FirstAt(log, i, id)
    ensures FindRecord(log, id) == Some(log[i])
  {
    if i > 0 {
      assert id != Some(log[0].runId);
      assert forall j :: 0 <= j < i - 1 ==> log[1..][j] == log[j + 1];
      FirstIsFound(log[1..], i - 1, id);
    }
  }

  lemma {:induction false} FoundIsFirst(log: seq<Record>, id: Option<string>) returns (i: nat)
    requires FindRecord(log, id).Some?
    ensures FirstAt(log, i, id) && FindRecord(log, id) == Some(log[i])
  {
    if id == Some(log[0].runId) {
      i := 0;
    } else {
      var k := FoundIsFirst(log[1..], id);
      i := k + 1;
      assert forall j :: 1 <= j < i ==> log[1..][j - 1] == log[j];
    }
  }

  /** A clean run of the stage that the manifest inherits from, under a manifest fingerprint of the right form. */
  predicate AdmissibleOrigin(o: Origin, stage: Stage, m: Manifest, files: Surroundings) {
    CleanOrigin(o, stage, m, files) && IsLowerHex(o.files.manifestSha256, 64)
  }

  lemma ScreenOriginIff(rec: Record, o: Origin, m: Manifest, files: Surroundings)
    requires WrittenBy(rec, o)
    ensures ScreenAccepted(rec, m, files) <==> AdmissibleOrigin(o, Screen, m, files)
  {
    hide ScreenAccepted, CleanRun, InheritsFrom, RecordOfRun, ManifestShapeOk, IsLowerHex, Admit;
    ScreenAcceptedIff(o.manifest, o.reference, o.files, o.world, m, files);
  }

  lemma ConfirmationOriginIff(rec: Record, o: Origin, m: Manifest, files: Surroundings)
    requires WrittenBy(rec, o)
    ensures ConfirmationAccepted(rec, m, files) <==> AdmissibleOrigin(o, Confirmation, m, files)
  {
    ConfirmationKind(o);
    hide ConfirmationAccepted, CleanRun, InheritsFrom, RecordOfRun, ManifestShapeOk, IsLowerHex, Admit;
    ConfirmationAcceptedIff(o.manifest, o.reference, o.files, o.world, m, files);
  }

  /** The log holds, first under their run ids, a confirmation for the manifest and the screen it names, both clean. */
  predicate LinkedRuns(log: seq<Record>, origins: seq<Origin>, s: nat, c: nat, m: Manifest, files: Surroundings)
    requires |origins| == |log|
  {
    && FirstAt(log, c, m.confirmationRunId) && FirstAt(log, s, log[c].screenRunId)
    && AdmissibleOrigin(origins[s], Screen, m, files) && AdmissibleOrigin(origins[c], Confirmation, m, files)
  }

  /** With a log that only the runner writes, a full profile is admitted exactly when such two runs are in it. */
  lemma FullProfileLinkIff(log: seq<Record>, origins: seq<Origin>, m: Manifest, files: Surroundings)
    requires |origins| == |log| && forall i :: 0 <= i < |log| ==> WrittenBy(log[i], origins[i])
    ensures FullProfileLinkOk(log, m, files) <==> exists s: nat, c: nat :: LinkedRuns(log, origins, s, c, m, files)
  {
    hide ScreenAccepted, ConfirmationAccepted, AdmissibleOrigin, WrittenBy, FindRecord;
    if FullProfileLinkOk(log, m, files) {
      var c := FoundIsFirst(log, m.confirmationRunId);
      var s := FoundIsFirst(log, log[c].screenRunId);
      ScreenOriginIff(log[s], origins[s], m, files);
      ConfirmationOriginIff(log[c], origins[c], m, files);
      assert LinkedRuns(log, origins, s, c, m, files);
    }
    if s: nat, c: nat :| LinkedRuns(log, origins, s, c, m, files) {
      FirstIsFound(log, c, m.confirmationRunId);
      FirstIsFound(log, s, log[c].screenRunId);
      ScreenOriginIff(log[s], origins[s], m, files);
      ConfirmationOriginIff(log[c], origins[c], m, files);
    }
  }

  /** A confirmation is admitted exactly when the first record under its screen's run id is of an admissible screen. */
  lemma ConfirmationLinkIff(log: seq<Record>, origins: seq<Origin>, m: Manifest, files: Surroundings)
    requires |origins| == |log| && forall i :: 0 <= i < |log| ==> WrittenBy(log[i], origins[i])
    ensures ConfirmationLinkOk(log, m, files) <==>
      exists s: nat :: FirstAt(log, s, m.screenRunId) && AdmissibleOrigin(origins[s], Screen, m, files)
  {
    hide ScreenAccepted, AdmissibleOrigin, WrittenBy, FindRecord;
    if ConfirmationLinkOk(log, m, files) {
      var s := FoundIsFirst(log, m.screenRunId);
      ScreenOriginIff(log[s], origins[s], m, files);
    }
    if s: nat :| FirstAt(log, s, m.screenRunId) && AdmissibleOrigin(origins[s], Screen, m, files) {
      FirstIsFound(log, s, m.screenRunId);
      ScreenOriginIff(log[s], origins[s], m, files);
    }
  }

  lemma {:induction false} FindKept(log: seq<Record>, more: seq<Record>, id: Option<string>)
    ensures FindRecord(log + more, id) ==
      if FindRecord(log, id).Some? then FindRecord(log, id) else FindRecord(more, id)
  {
    if log == [] {
      assert log + more == more;
    } else {
      assert (log + more)[1..] == log[1..] + more;
      FindKept(log[1..], more, id);
    }
  }

  lemma FindTwo(x: Record, y: Record)
    requires x.runId != y.runId
    ensures FindRecord([x, y], Some(x.runId)) == Some(x) && FindRecord([x, y], Some(y.runId)) == Some(y)
  {
    assert [x, y][1..] == [y];
  }

  function RecordBy(o: Origin): Record
    requires ManifestShapeOk(o.manifest, o.reference)
  {
    RecordOfRun(o.manifest, o.reference, o.files, o.world)
  }

  lemma RecordIds(o: Origin)
    requires ManifestShapeOk(o.manifest, o.reference)
    ensures RecordBy(o).runId == o.files.runId && RecordBy(o).screenRunId == o.manifest.screenRunId
  {
    hide RecordOfRun, ManifestShapeOk, SaysRun, RunStatus, NormalizeThresholds, NormalizedScope, ThresholdMap, P0Map;
    StatusSaid(o.manifest, o.reference, o.files, o.world);
  }

  /**
   * A clean screen and a clean confirmation that names it, appended to any log under new and different run ids, admit
   * every full profile that names the confirmation and inherits from both.
   */
  lemma CleanCampaignAdmitsFullProfile(log: seq<Record>, screen: Origin, confirmation: Origin, m: Manifest,
                                       files: Surroundings)
    requires ManifestShapeOk(screen.manifest, screen.reference)
    requires ManifestShapeOk(confirmation.manifest, confirmation.reference)
    requires AdmissibleOrigin(screen, Screen, m, files) && AdmissibleOrigin(confirmation, Confirmation, m, files)
    requires screen.files.runId != confirmation.files.runId
    requires FindRecord(log, Some(screen.files.runId)).None? && FindRecord(log, Some(confirmation.files.runId)).None?
    requires confirmation.manifest.screenRunId == Some(screen.files.runId)
    requires m.confirmationRunId == Some(confirmation.files.runId)
    ensures FullProfileLinkOk(log + [RecordBy(screen), RecordBy(confirmation)], m, files)
  {
    hide ScreenAccepted, ConfirmationAccepted, AdmissibleOrigin, ManifestShapeOk, RecordOfRun, FindRecord;
    var s, c := RecordBy(screen), RecordBy(confirmation);
    RecordIds(screen);
    RecordIds(confirmation);
    FindTwo(s, c);
    FindKept(log, [s, c], Some(s.runId));
    FindKept(log, [s, c], Some(c.runId));
    ScreenOriginIff(s, screen, m, files);
    ConfirmationOriginIff(c, confirmation, m, files);
  }
}
