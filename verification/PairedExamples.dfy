/** Runs that exist: no condition of the paired protocol's laws is empty. */
module PairedExamples {
  import opened Wrappers
  import opened StableSort
  import opened Json
  import opened StableJson
  import opened PairedProtocol
  import opened PairedRunLaws
  import opened PairedVerdicts
  import opened PairedEvidence

  function Zeros(n: nat): string {
    seq(n, i => '0')
  }

  function PlainSink(): Json {
    Obj([Member("kind", Str("ast")), Member("signatureSha256", Str(Zeros(64))), Member("summary", Obj([]))])
  }

  function PlainRow(s: Sampling, k: RowKey): ResultRow {
    ResultRow(k.0, k.1, s, seq(s.measuredSamples, i => 1.0), Stats(1.0, 1.0, 0.0, 1.0, 1.0, s.measuredSamples),
      PlainSink())
  }

  /** A report in which every executed row is measured and nothing goes wrong. */
  function PlainReport(a: Admission, item: PlannedItem): Report {
    Report(a.profile, CommitInfo(ExpectedCommit(a.manifest, item.1), false), [],
           Method(a.sampling, CORPUS_SEED, a.executionPhaseScope, Null),
             Some(PairRun(a.manifest.candidate.id, item.1, item.0)), Null,
           Map(SCENARIO_NAMES, (s: Scenario) => (s, Null)), Map(PHASE_NAMES, (p: Phase) => (p, Null)),
           Map(RowKeysOf(a.executionPhaseScope), (k: RowKey) => PlainRow(a.sampling, k)), None)
  }

  function PlainWorld(a: Admission): World {
    (j: nat) =>
      var order := RunOrderForManifest(a.manifest);
      Execution(Some(0), Parsed(PlainReport(a, if j < |order| then order[j] else (1, Baseline))))
  }

  lemma PlainSinkOk()
    ensures SinkOk(PlainSink())
  {
    var ms := PlainSink().members;
    assert ms[1..] == [Member("signatureSha256", Str(Zeros(64))), Member("summary", Obj([]))];
    assert ms[1..][1..] == [Member("summary", Obj([]))];
    assert "kind"[0] == 'k' && "signatureSha256"[1] == 'i' && "summary"[1] == 'u';
    assert MemberValue(ms, "kind") == Some(Str("ast"));
    assert MemberValue(ms, "signatureSha256") == Some(Str(Zeros(64)));
    assert MemberValue(ms, "summary") == Some(Obj([]));
  }

  lemma PlainReportOk(a: Admission, item: PlannedItem, sequence: nat)
    requires Distinct(a.executionPhaseScope)
    ensures FineRun(a, ProcessRun(item.0, item.1, sequence, Some(0), Parsed(PlainReport(a, item))))
  {
    hide RowKeysOf, SinkOk, PlainSink;
    var report, keys := PlainReport(a, item), RowKeysOf(a.executionPhaseScope);
    assert Map(report.corpus, FirstOf) == SCENARIO_NAMES;
    assert Map(report.phases, FirstOf) == PHASE_NAMES;
    assert Map(report.results, ResultKey) == keys;
    RowKeysDistinct(a.executionPhaseScope);
    PlainSinkOk();
    assert forall i :: 0 <= i < |report.results| ==> report.results[i] == PlainRow(a.sampling, keys[i]);
  }

  lemma PlainReportsAgree(a: Admission, x: PlannedItem, y: PlannedItem)
    ensures SameEnvironment(PlainReport(a, x), PlainReport(a, y)) && SinksAgree(PlainReport(a, x), PlainReport(a, y))
    ensures MeasuredAlike(PlainReport(a, x), PlainReport(a, y))
  {
    hide RowKeysOf, StableEnvironment, StableSerialize, PlainSink;
  }

  /** Every admission, valid or not, has a run that goes through. */
  lemma CleanRunsExist(m: Manifest, r: P0Reference, files: Surroundings)
    ensures CleanRun(Admit(m, r, files), PlainWorld(Admit(m, r, files)))
  {
    hide Admit, RunOrderForManifest, FineRun, PlainReport, SameEnvironment, SinksAgree, MeasuredAlike, PairedOrder,
      Distinct;
    var a, order := Admit(m, r, files), RunOrderForManifest(m);
    DeclaredAreExecuted(m, r, files);
    AdmittedScopeDistinct(m, r, files);
    forall j | 0 <= j < |order| ensures CleanStep(a, order, PlainWorld(a), j) {
      PlainReportOk(a, order[j], j + 1);
      PlainReportsAgree(a, order[0], order[j]);
      if j % 2 == 1 {
        PlainReportsAgree(a, order[j - 1], order[j]);
        PlainReportsAgree(a, order[j], order[j - 1]);
      }
    }
  }

  // -------------------------------------------------------- a whole campaign

  function PlainReference(): P0Reference {
    P0Reference(1, P0_COMMIT, "pr", SOURCE_DOCUMENT, Zeros(64), Zeros(64), Zeros(64), "mean milliseconds",
                Map(AllRowKeys(), (k: RowKey) => P0Row(k.0, k.1, 0.0, 0.0, 0.0)))
  }

  /** A manifest of each stage over one scope; the later ones name the runs `s` and `c` before them. */
  function PlainManifest(stage: Stage, scope: seq<Phase>, s: string, c: string): Manifest {
    Manifest(1, stage, CandidateInfo("a", RealCandidate, "s", "h", Zeros(40), "1" + Zeros(39), "l"), "b", "c", scope,
      "r",
             Map(RowKeysOf(scope), (k: RowKey) => Threshold(k.0, k.1, 1.0)),
             if stage == Confirmation then Some(s) else None, if stage == FullProfile then Some(c) else None)
  }

  /** For every stage and every non-empty scope without repetition there is a manifest that admission accepts. */
  lemma ManifestsExist(stage: Stage, scope: seq<Phase>, s: string, c: string)
    requires scope != [] && Distinct(scope) && HasText(s) && HasText(c)
    ensures ManifestShapeOk(PlainManifest(stage, scope, s, c), PlainReference())
  {
    hide RowKeysOf;
    var m, r := PlainManifest(stage, scope, s, c), PlainReference();
    assert m.candidate.baseCommit[0] == '0' && m.candidate.candidateCommit[0] == '1';
    PhaseNamesDistinct();
    assert Map(r.rows, P0Key) == AllRowKeys();
    RowKeysDistinct(PHASE_NAMES);
    RowKeysDistinct(scope);
    assert Map(m.practicalThresholds, ThresholdKey) == RowKeysOf(scope);
    forall i | 0 <= i < |m.practicalThresholds| ensures m.practicalThresholds[i].phase in m.phaseScope {
      RowKeysAre(scope, RowKeysOf(scope)[i]);
      assert RowKeysOf(scope)[i] in RowKeysOf(scope);
    }
  }

  lemma PlainManifestsInherit(stage: Stage, stage0: Stage, scope: seq<Phase>, s: string, c: string,
                              files: Surroundings, files0: Surroundings)
    requires files0 == files.(runId := files0.runId)
    ensures InheritsFrom(PlainManifest(stage, scope, s, c), files, PlainManifest(stage0, scope, s, c), files0)
  {
    hide RowKeysOf, ThresholdsFor, ThresholdMap;
  }

  /** The plain run of a stage, recorded under its own run id. */
  function PlainOrigin(stage: Stage, scope: seq<Phase>, s: string, c: string, files: Surroundings): Origin {
    var m, r, own := PlainManifest(stage, scope, s, c), PlainReference(),
      files.(runId := if stage == Screen then s else c);
    Origin(m, r, own, PlainWorld(Admit(m, r, own)))
  }

  lemma PlainOriginIsAdmissible(stage0: Stage, stage: Stage, scope: seq<Phase>, s: string, c: string,
                                files: Surroundings)
    requires scope != [] && Distinct(scope) && HasText(s) && HasText(c) && IsLowerHex(files.manifestSha256, 64)
    ensures var o := PlainOrigin(stage0, scope, s, c, files);
      && ManifestShapeOk(o.manifest, o.reference)
      && AdmissibleOrigin(o, stage0, PlainManifest(stage, scope, s, c), files)
  {
    var o := PlainOrigin(stage0, scope, s, c, files);
    assert o.manifest.stage == stage0 && o.manifest.candidate.kind == RealCandidate;
    hide ManifestShapeOk, Admit, InheritsFrom, CleanRun, PlainWorld, PlainManifest, PlainReference, IsLowerHex,
      Distinct, HasText;
    ManifestsExist(stage0, scope, s, c);
    CleanRunsExist(o.manifest, o.reference, o.files);
    PlainManifestsInherit(stage, stage0, scope, s, c, files, o.files);
  }

  lemma PlainLinks(scope: seq<Phase>, s: string, c: string)
    ensures PlainManifest(Confirmation, scope, s, c).screenRunId == Some(s)
    ensures PlainManifest(FullProfile, scope, s, c).confirmationRunId == Some(c)
  {
  }

  lemma PlainIds(stage: Stage, scope: seq<Phase>, s: string, c: string, files: Surroundings)
    ensures var o := PlainOrigin(stage, scope, s, c, files);
      o.files.runId == (if stage == Screen then s else c) && o.manifest == PlainManifest(stage, scope, s, c)
  {
  }

  /**
   * For every scope and every two new run ids there is a whole campaign: a screen, a confirmation that the log with the
   * screen admits, and a full profile that the log with both admits.
   */
  lemma CampaignsExist(log: seq<Record>, scope: seq<Phase>, s: string, c: string, files: Surroundings)
    requires scope != [] && Distinct(scope) && IsLowerHex(files.manifestSha256, 64)
    requires HasText(s) && HasText(c) && s != c && FindRecord(log, Some(s)).None? && FindRecord(log, Some(c)).None?
    ensures var screen, confirmation := PlainOrigin(Screen, scope, s, c, files),
      PlainOrigin(Confirmation, scope, s, c, files);
      && ManifestShapeOk(screen.manifest, screen.reference)
      && ManifestShapeOk(confirmation.manifest, confirmation.reference)
      && ManifestShapeOk(PlainManifest(FullProfile, scope, s, c), PlainReference())
      && ConfirmationLinkOk(log + [RecordBy(screen)], confirmation.manifest, files)
      && FullProfileLinkOk(log + [RecordBy(screen), RecordBy(confirmation)], PlainManifest(FullProfile, scope, s, c),
           files)
  {
    hide ManifestShapeOk, PlainOrigin, PlainManifest, PlainReference, IsLowerHex, Distinct, HasText,
      ConfirmationLinkOk, FullProfileLinkOk, FindRecord, CleanOrigin, RecordOfRun;
    var screen, confirmation := PlainOrigin(Screen, scope, s, c, files), PlainOrigin(Confirmation, scope, s, c, files);
    ManifestsExist(FullProfile, scope, s, c);
    PlainLinks(scope, s, c);
    PlainIds(Screen, scope, s, c, files);
    PlainIds(Confirmation, scope, s, c, files);
    PlainOriginIsAdmissible(Screen, Confirmation, scope, s, c, files);
    PlainOriginIsAdmissible(Screen, FullProfile, scope, s, c, files);
    PlainOriginIsAdmissible(Confirmation, FullProfile, scope, s, c, files);
    RecordIds(screen);
    CleanScreenAdmitsConfirmation(log, screen, confirmation.manifest, files);
    hide AdmissibleOrigin;
    CleanCampaignAdmitsFullProfile(log, screen, confirmation, PlainManifest(FullProfile, scope, s, c), files);
  }
}
