/** What admission and report checks ask for, said of the manifest, the P0 reference and the reports themselves. */
module PairedDeclarations {
  import opened Texts
  import opened Wrappers
  import opened StableSort
  import opened Json
  import opened StableJson
  import opened JsonRecords
  import opened PairedProtocol
  import opened PairedRun
  import opened PairedRunLaws
  import opened PairedVerdicts

  // --------------------------------------------------------------- manifests

  predicate HasInk(s: string) {
    exists i :: 0 <= i < |s| && !IsSpace(s[i])
  }

  predicate IsIdCharacter(c: char) {
    c in "abcdefghijklmnopqrstuvwxyz" || c in "0123456789" || c in "._-"
  }

  predicate HasInkIf(wanted: bool, s: Option<string>) {
    if wanted then s.Some? && HasInk(s.value) else s.None?
  }

  predicate IsHex(s: string, length: nat) {
    |s| == length && forall i :: 0 <= i < |s| ==> s[i] in "0123456789abcdef"
  }

  /** The entries name every wanted row exactly once, and no other. */
  ghost predicate NamesEach(entries: seq<RowKey>, wanted: RowKey -> bool) {
    && (forall k :: wanted(k) <==> exists i :: 0 <= i < |entries| && entries[i] == k)
    && (forall i, j :: 0 <= i < j < |entries| ==> entries[i] != entries[j])
  }

  /** Which earlier run each stage and kind of candidate must name, and which combination there is not. */
  predicate StageProper(m: Manifest) {
    && HasInkIf(m.stage == Confirmation, m.screenRunId)
    && HasInkIf(m.stage == FullProfile && m.candidate.kind == RealCandidate, m.confirmationRunId)
    && match m.candidate.kind
       case RealCandidate => m.candidate.baseCommit != m.candidate.candidateCommit
       case SelfComparison =>
         && m.candidate.baseCommit == m.candidate.candidateCommit
         && (m.stage == Screen || (m.stage == FullProfile && m.phaseScope == PHASE_NAMES))
  }

  ghost predicate ThresholdsProper(m: Manifest) {
    && NamesEach(Map(m.practicalThresholds, ThresholdKey), (k: RowKey) => k.0 in m.phaseScope)
    && forall t :: t in m.practicalThresholds ==> t.minimum > 0.0
  }

  /** The two ranges are the same number once rounded to nine decimals. */
  ghost predicate RangeStated(row: P0Row) {
    && 0.0 <= row.minimumMeanMs <= row.maximumMeanMs && 0.0 <= row.rangeMs
    && exists n: int :: SameNano(row.maximumMeanMs - row.minimumMeanMs, n) && SameNano(row.rangeMs, n)
  }

  predicate SameNano(x: real, n: int) {
    -0.5 <= x * 1000000000.0 - n as real < 0.5
  }

  ghost predicate ReferenceProper(r: P0Reference) {
    && r.schemaVersion == 1 && r.profile == "pr" && r.unit == "mean milliseconds"
    && r.p0Commit == "c6f28dbbf4594e99a8e1b1ab662334c010bd7281"
    && r.sourceDocument == "docs/bench/ast-analysis-phase-benchmark.md"
    && IsHex(r.sourceDocumentSha256, 64) && IsHex(r.protocolDocumentSha256, 64) && IsHex(r.benchmarkSourceSha256, 64)
    && NamesEach(Map(r.rows, P0Key), (k: RowKey) => true)
    && forall row :: row in r.rows ==> RangeStated(row)
  }

  ghost predicate ManifestProper(m: Manifest, r: P0Reference) {
    && m.schemaVersion == 1 && StageProper(m)
    && m.candidate.id != "" && m.candidate.id[0] !in "._-"
    && (forall c :: c in m.candidate.id ==> IsIdCharacter(c))
    && HasInk(m.candidate.summary) && HasInk(m.candidate.hypothesis) && HasInk(m.candidate.limitation)
    && IsHex(m.candidate.baseCommit, 40) && IsHex(m.candidate.candidateCommit, 40)
    && HasInk(m.scopeRationale) && HasInk(m.baselineDirectory) && HasInk(m.candidateDirectory)
    && m.phaseScope != [] && (forall i, j :: 0 <= i < j < |m.phaseScope| ==> m.phaseScope[i] != m.phaseScope[j])
    && ThresholdsProper(m) && ReferenceProper(r)
  }

  lemma {:induction false} InkStaysStart(s: string)
    ensures HasInk(s) <==> TrimStart(s) != ""
    ensures HasInk(TrimStart(s)) <==> HasInk(s)
  {
    if s != "" && IsSpace(s[0]) {
      InkStaysStart(s[1..]);
      if i :| 0 <= i < |s| && !IsSpace(s[i]) {
        assert !IsSpace(s[1..][i - 1]);
      }
      if i :| 0 <= i < |s[1..]| && !IsSpace(s[1..][i]) {
        assert !IsSpace(s[i + 1]);
      }
    }
  }

  lemma {:induction false} InkStaysEnd(s: string)
    ensures HasInk(s) <==> TrimEnd(s) != ""
  {
    if s != "" && IsSpace(s[|s| - 1]) {
      var n := |s| - 1;
      InkStaysEnd(s[..n]);
      if i :| 0 <= i < |s| && !IsSpace(s[i]) {
        assert !IsSpace(s[..n][i]);
      }
      if i :| 0 <= i < |s[..n]| && !IsSpace(s[..n][i]) {
        assert !IsSpace(s[i]);
      }
    }
  }

  lemma InkIsText(s: string)
    ensures HasInk(s) <==> HasText(s)
  {
    InkStaysStart(s);
    InkStaysEnd(TrimStart(s));
  }

  lemma HexIs(s: string, length: nat)
    ensures IsHex(s, length) <==> IsLowerHex(s, length)
  {
    HexDigits();
  }

  lemma HexDigits()
    ensures forall c: char :: c in "0123456789abcdef" <==> '0' <= c <= '9' || 'a' <= c <= 'f'
  {
    var digits := "0123456789abcdef";
    forall c: char | '0' <= c <= '9' || 'a' <= c <= 'f' ensures c in digits {
      if c <= '9' {
        assert digits[c as int - '0' as int] == c;
      } else {
        assert digits[10 + c as int - 'a' as int] == c;
      }
    }
  }

  lemma LowerLetters()
    ensures forall c: char :: c in "abcdefghijklmnopqrstuvwxyz" <==> 'a' <= c <= 'z'
  {
    forall c: char | 'a' <= c <= 'z' ensures c in "abcdefghijklmnopqrstuvwxyz" {
      assert "abcdefghijklmnopqrstuvwxyz"[c as int - 'a' as int] == c;
    }
  }

  lemma DecimalDigits()
    ensures forall c: char :: c in "0123456789" <==> '0' <= c <= '9'
  {
    forall c: char | '0' <= c <= '9' ensures c in "0123456789" {
      assert "0123456789"[c as int - '0' as int] == c;
    }
  }

  lemma Punctuation()
    ensures forall c: char :: c in "._-" <==> c == '.' || c == '_' || c == '-'
  {
    assert "._-"[0] == '.' && "._-"[1] == '_' && "._-"[2] == '-';
  }

  lemma IdCharacters()
    ensures forall c: char :: IsIdCharacter(c) <==> IsIdStart(c) || c == '.' || c == '_' || c == '-'
    ensures forall c: char :: IsIdStart(c) ==> c !in "._-"
  {
    LowerLetters();
    DecimalDigits();
    Punctuation();
  }

  lemma IdIs(id: string)
    ensures IsCandidateId(id) <==> id != "" && id[0] !in "._-" && forall c :: c in id ==> IsIdCharacter(c)
  {
    IdCharacters();
    Punctuation();
    hide IsIdCharacter, IsIdStart;
    if id != "" {
      assert id[0] in id;
    }
  }

  /** As many distinct entries as there are wanted rows, all of them wanted: each is named once. */
  lemma NamesEachIff(entries: seq<RowKey>, keys: seq<RowKey>, wanted: RowKey -> bool)
    requires Distinct(keys) && forall k :: wanted(k) <==> k in keys
    ensures NamesEach(entries, wanted) <==>
      Distinct(entries) && (forall i :: 0 <= i < |entries| ==> entries[i] in keys) && |entries| == |keys|
  {
    if NamesEach(entries, wanted) {
      assert forall k :: k in entries <==> k in keys;
      DistinctSameSet(entries, keys);
      SameElements(entries, keys);
    }
    if Distinct(entries) && (forall i :: 0 <= i < |entries| ==> entries[i] in keys) && |entries| == |keys| {
      forall k ensures wanted(k) <==> exists i :: 0 <= i < |entries| && entries[i] == k {
        if k in keys {
          CoversAllRows(entries, keys, k);
        }
      }
    }
  }

  lemma ThresholdsProperIff(m: Manifest)
    requires Distinct(m.phaseScope)
    ensures ThresholdsOk(m) <==> ThresholdsProper(m)
  {
    var ts, keys := m.practicalThresholds, RowKeysOf(m.phaseScope);
    var entries := Map(ts, ThresholdKey);
    RowKeysDistinct(m.phaseScope);
    forall k ensures k in keys <==> k.0 in m.phaseScope {
      RowKeysAre(m.phaseScope, k);
    }
    hide RowKeysOf, NamesEach;
    NamesEachIff(entries, keys, (k: RowKey) => k.0 in m.phaseScope);
    assert forall i :: 0 <= i < |ts| ==> (entries[i] in keys <==> ts[i].phase in m.phaseScope);
    if ThresholdsProper(m) {
      forall i | 0 <= i < |ts| ensures ts[i].phase in m.phaseScope && ts[i].minimum > 0.0 {
        assert ts[i] in ts && entries[i] in keys;
      }
    }
  }

  lemma RangeStatedIff(row: P0Row)
    ensures P0RowOk(row) <==> RangeStated(row)
  {
    NanoIs(row.maximumMeanMs - row.minimumMeanMs);
    NanoIs(row.rangeMs);
    hide Round9;
  }

  lemma NanoIs(x: real)
    ensures exists n :: SameNano(x, n)
    ensures forall n :: SameNano(x, n) <==> Round9(x) == n as real / 1000000000.0
  {
    var y := x * 1000000000.0;
    forall n: int ensures SameNano(x, n) <==> (y + 0.5).Floor == n {
    }
    assert SameNano(x, (y + 0.5).Floor);
  }

  lemma ReferenceProperIff(r: P0Reference)
    ensures P0ReferenceOk(r) <==> ReferenceProper(r)
  {
    var entries := Map(r.rows, P0Key);
    PhaseNamesDistinct();
    RowKeysDistinct(PHASE_NAMES);
    forall k: RowKey ensures k in AllRowKeys() {
      PhasesAreAll(k.0);
      RowKeysAre(PHASE_NAMES, k);
    }
    HexIs(r.sourceDocumentSha256, 64);
    HexIs(r.protocolDocumentSha256, 64);
    HexIs(r.benchmarkSourceSha256, 64);
    forall row ensures P0RowOk(row) <==> RangeStated(row) {
      RangeStatedIff(row);
    }
    hide AllRowKeys, NamesEach, P0RowOk, RangeStated, IsHex, IsLowerHex;
    NamesEachIff(entries, AllRowKeys(), (k: RowKey) => true);
    assert forall i :: 0 <= i < |r.rows| ==> r.rows[i] in r.rows;
  }

  lemma CandidateProperIff(m: Manifest)
    requires m.phaseScope != []
    ensures
      (RunIdsOk(m) && CandidateOk(m) &&
       (m.stage == FullProfile && m.candidate.kind == SelfComparison ==> m.phaseScope == PHASE_NAMES)) <==>
      (StageProper(m) && IsCandidateId(m.candidate.id) &&
       HasInk(m.candidate.summary) && HasInk(m.candidate.hypothesis) && HasInk(m.candidate.limitation) &&
       IsHex(m.candidate.baseCommit, 40) && IsHex(m.candidate.candidateCommit, 40))
  {
    var c := m.candidate;
    InkIsText(c.summary);
    InkIsText(c.hypothesis);
    InkIsText(c.limitation);
    HexIs(c.baseCommit, 40);
    HexIs(c.candidateCommit, 40);
    if m.screenRunId.Some? {
      InkIsText(m.screenRunId.value);
    }
    if m.confirmationRunId.Some? {
      InkIsText(m.confirmationRunId.value);
    }
    hide HasInk, HasText, IsHex, IsLowerHex, IsCandidateId;
  }

  /** A manifest and a P0 reference pass the checks exactly when they are proper. */
  lemma ManifestAcceptedIff(m: Manifest, r: P0Reference)
    ensures ManifestShapeOk(m, r) <==> ManifestProper(m, r)
  {
    IdIs(m.candidate.id);
    InkIsText(m.scopeRationale);
    InkIsText(m.baselineDirectory);
    InkIsText(m.candidateDirectory);
    ReferenceProperIff(r);
    hide HasInk, HasText, IsHex, IsLowerHex, IsCandidateId, P0ReferenceOk, ReferenceProper, ThresholdsOk,
      ThresholdsProper, RunIdsOk, CandidateOk, StageProper;
    if m.phaseScope != [] && Distinct(m.phaseScope) {
      CandidateProperIff(m);
      ThresholdsProperIff(m);
    }
  }

  // --------------------------------------------------------------- admission

  /** The order in which phases are run and reported. */
  function PhasePlace(p: Phase): nat {
    match p
    case AnalyzerSelectOutputCollection => 0
    case AnalyzerIntegratedConditionOptimization => 1
    case RendererTokenBuild => 2
    case RendererPrint => 3
    case RendererHotFormat => 4
    case RendererColdFormat => 5
  }

  predicate InPlace(phases: seq<Phase>) {
    forall i, j :: 0 <= i < j < |phases| ==> PhasePlace(phases[i]) < PhasePlace(phases[j])
  }

  /** Exactly the wanted phases, in their order. */
  ghost predicate Lists(phases: seq<Phase>, wanted: Phase -> bool) {
    InPlace(phases) && forall p :: p in phases <==> wanted(p)
  }

  /** A full profile runs every phase; the other stages run those declared. */
  predicate Executes(m: Manifest, p: Phase) {
    m.stage == FullProfile || p in m.phaseScope
  }

  /** What admission makes of a manifest, said of its own declarations and of the reference's rows. */
  ghost predicate AdmittedAsDeclared(a: Admission, m: Manifest, r: P0Reference) {
    && a.manifest == m && a.reference == r
    && Lists(a.phaseScope, p => p in m.phaseScope) && Lists(a.executionPhaseScope, p => Executes(m, p))
    && (forall t :: t in m.practicalThresholds ==>
         (t.phase, t.scenario) in a.thresholdByRow && a.thresholdByRow[(t.phase, t.scenario)] == t.minimum)
    && (forall k :: k in a.thresholdByRow <==> k.0 in m.phaseScope)
    && (forall row :: row in r.rows ==>
         (row.phase, row.scenario) in a.p0ByRow && a.p0ByRow[(row.phase, row.scenario)] == row.rangeMs)
    && (forall k :: k in a.p0ByRow)
    && match m.stage
       case FullProfile => a.profile == Full && a.sampling == Sampling(8, 50, 16)
       case _ => a.profile == Pr && a.sampling == Sampling(4, 20, 8)
  }

  lemma PlacesAre(i: nat)
    requires i < |PHASE_NAMES|
    ensures PhasePlace(PHASE_NAMES[i]) == i
  {
    if i != 0 && i != 1 && i != 2 {
      assert i == 3 || i == 4 || i == 5;
    }
  }

  lemma {:induction false} FilterKeepsPlaces(ps: seq<Phase>, p: Phase -> bool)
    requires InPlace(ps)
    ensures InPlace(Filter(ps, p))
  {
    hide PhasePlace;
    if ps != [] {
      FilterKeepsPlaces(ps[1..], p);
      var rest := Filter(ps[1..], p);
      forall i | 0 <= i < |rest| ensures PhasePlace(ps[0]) < PhasePlace(rest[i]) {
        assert rest[i] in ps[1..];
        var j :| 0 <= j < |ps[1..]| && ps[1..][j] == rest[i];
        assert ps[j + 1] == rest[i];
      }
      FirstInPlace(ps[0], rest);
    }
  }

  lemma FirstInPlace(p: Phase, rest: seq<Phase>)
    requires InPlace(rest) && forall i :: 0 <= i < |rest| ==> PhasePlace(p) < PhasePlace(rest[i])
    ensures InPlace([p] + rest)
  {
    hide PhasePlace;
  }

  lemma NamesInPlace()
    ensures InPlace(PHASE_NAMES)
  {
    forall i | 0 <= i < |PHASE_NAMES| ensures PhasePlace(PHASE_NAMES[i]) == i {
      PlacesAre(i);
    }
    hide PhasePlace;
  }

  lemma ScopeLists(scope: seq<Phase>)
    ensures Lists(NormalizedScope(scope), p => p in scope) && Lists(PHASE_NAMES, p => true)
  {
    NamesInPlace();
    hide InPlace;
    FilterKeepsPlaces(PHASE_NAMES, p => p in scope);
    forall p ensures p in PHASE_NAMES {
      PhasesAreAll(p);
    }
  }

  lemma {:induction false} RangeFound(rows: seq<P0Row>, i: nat)
    requires i < |rows| && Distinct(Map(rows, P0Key))
    ensures P0Key(rows[i]) in P0Map(rows) && P0Map(rows)[P0Key(rows[i])] == rows[i].rangeMs
  {
    var n, keys := |rows| - 1, Map(rows, P0Key);
    if i < n {
      assert keys[i] != keys[n];
      assert Map(rows[..n], P0Key) == keys[..n];
      RangeFound(rows[..n], i);
    }
  }

  lemma AdmittedValues(m: Manifest, r: P0Reference, files: Surroundings)
    requires ManifestShapeOk(m, r)
    ensures var a := Admit(m, r, files);
      && (forall t :: t in m.practicalThresholds ==>
           ThresholdKey(t) in a.thresholdByRow && a.thresholdByRow[ThresholdKey(t)] == t.minimum)
      && (forall row :: row in r.rows ==> P0Key(row) in a.p0ByRow && a.p0ByRow[P0Key(row)] == row.rangeMs)
  {
    hide NormalizedScope, ThresholdMap, P0Map, RunIdsOk, CandidateOk;
    var a := Admit(m, r, files);
    forall t | t in m.practicalThresholds
      ensures ThresholdKey(t) in a.thresholdByRow && a.thresholdByRow[ThresholdKey(t)] == t.minimum
    {
      var i :| 0 <= i < |m.practicalThresholds| && m.practicalThresholds[i] == t;
      ThresholdLookup(m.practicalThresholds, i);
    }
    forall row | row in r.rows ensures P0Key(row) in a.p0ByRow && a.p0ByRow[P0Key(row)] == row.rangeMs {
      var i :| 0 <= i < |r.rows| && r.rows[i] == row;
      RangeFound(r.rows, i);
    }
  }

  lemma AdmittedScopes(m: Manifest, r: P0Reference, files: Surroundings)
    ensures var a := Admit(m, r, files);
      Lists(a.phaseScope, p => p in m.phaseScope) && Lists(a.executionPhaseScope, p => Executes(m, p))
  {
    hide NormalizedScope, ThresholdMap, P0Map, InPlace;
    ScopeLists(m.phaseScope);
  }

  /** An accepted manifest is admitted with exactly what it and the P0 reference declare. */
  lemma AdmissionIsAsDeclared(m: Manifest, r: P0Reference, files: Surroundings)
    requires ManifestShapeOk(m, r)
    ensures AdmittedAsDeclared(Admit(m, r, files), m, r)
  {
    hide NormalizedScope, ThresholdMap, P0Map, ManifestShapeOk, Lists;
    AdmittedValues(m, r, files);
    AdmittedScopes(m, r, files);
    forall k ensures k in Admit(m, r, files).p0ByRow &&
      (k in Admit(m, r, files).thresholdByRow <==> k.0 in m.phaseScope)
    {
      AdmittedRowsHaveData(m, r, files, k);
      ScopeAre(m.phaseScope, k.0);
    }
  }

  // ----------------------------------------------------------------- reports

  function ScenarioPlace(s: Scenario): nat {
    match s
    case TrackedCustomerSummary => 0
    case TrackedProductRanking => 1
    case TrackedSalesSummary => 2
    case SyntheticCteWildcardDuplicate => 3
    case SyntheticWideOutput => 4
    case SyntheticBooleanParameterComment => 5
    case SyntheticDerivedUnion => 6
  }

  function DeclaredSampling(m: Manifest): Sampling {
    match m.stage
    case Screen => Sampling(4, 20, 8)
    case Confirmation => Sampling(4, 20, 8)
    case FullProfile => Sampling(8, 50, 16)
  }

  function DeclaredCommit(m: Manifest, c: Condition): string {
    match c
    case Baseline => m.candidate.baseCommit
    case Candidate => m.candidate.candidateCommit
  }

  /** A sink names its kind, a SHA-256 signature, and a summary that is no scalar. */
  ghost predicate SinkProper(sink: Json) {
    && sink.Obj?
    && (exists s :: MemberValue(sink.members, "kind") == Some(Str(s)))
    && (exists s :: MemberValue(sink.members, "signatureSha256") == Some(Str(s)) && IsHex(s, 64))
    && (exists v :: MemberValue(sink.members, "summary") == Some(v) && (v.Obj? || v.Arr?))
  }

  /** A row was sampled as declared, with a non-negative number for every sample and statistic. */
  ghost predicate RowProper(row: ResultRow, s: Sampling) {
    && row.sampling == s && |row.rawSamplesMs| == s.measuredSamples == row.stats.sampleCount
    && (forall x :: x in row.rawSamplesMs ==> 0.0 <= x)
    && (forall x :: x in [row.stats.meanMs, row.stats.p95Ms, row.stats.stddevMs, row.stats.minMs, row.stats.maxMs] ==>
         0.0 <= x)
    && SinkProper(row.semanticSink)
  }

  /** The report is of the item's own process, measured the way the manifest declares. */
  ghost predicate ReportAsDeclared(m: Manifest, item: PlannedItem, rep: Report) {
    && rep.profile == (if m.stage == FullProfile then Full else Pr)
    && rep.commit.sha == DeclaredCommit(m, item.1) && !rep.commit.dirty
    && rep.method_.sampling == DeclaredSampling(m) && rep.method_.corpusSeed == "rawsql-ts-ast-phase-v1"
    && Lists(rep.method_.phaseScope, p => Executes(m, p))
    && rep.pairRun.Some? && rep.pairRun.value.candidateId == m.candidate.id
    && rep.pairRun.value.pairIndex == item.0 && rep.pairRun.value.condition == item.1
    && |rep.corpus| == 7 && (forall i :: 0 <= i < 7 ==> ScenarioPlace(rep.corpus[i].0) == i)
    && |rep.phases| == 6 && (forall i :: 0 <= i < 6 ==> PhasePlace(rep.phases[i].0) == i)
    && (forall row :: row in rep.results ==> RowProper(row, DeclaredSampling(m)))
    && (rep.failure.None? ==> NamesEach(Map(rep.results, ResultKey), (k: RowKey) => Executes(m, k.0)))
  }

  lemma SinkProperIff(sink: Json)
    ensures SinkOk(sink) <==> SinkProper(sink)
  {
    if sink.Obj? {
      var signature := MemberValue(sink.members, "signatureSha256");
      if signature.Some? && signature.value.Str? {
        HexIs(signature.value.s, 64);
      }
      hide IsHex, IsLowerHex;
      if SinkOk(sink) {
        assert MemberValue(sink.members, "kind") == Some(Str(MemberValue(sink.members, "kind").value.s));
        assert signature == Some(Str(signature.value.s));
      }
    }
  }

  lemma RowProperIff(row: ResultRow, s: Sampling)
    ensures ResultRowOk(row, s) <==> RowProper(row, s)
  {
    SinkProperIff(row.semanticSink);
    hide SinkOk, SinkProper;
    var stats := [row.stats.meanMs, row.stats.p95Ms, row.stats.stddevMs, row.stats.minMs, row.stats.maxMs];
    assert stats[0] in stats && stats[1] in stats && stats[2] in stats && stats[3] in stats && stats[4] in stats;
    if RowProper(row, s) {
      assert forall i :: 0 <= i < |row.rawSamplesMs| ==> row.rawSamplesMs[i] in row.rawSamplesMs;
    }
  }

  lemma PlaceDecides(p: Phase, q: Phase)
    requires PhasePlace(p) == PhasePlace(q)
    ensures p == q
  {
  }

  lemma ListsAreEqual(ps: seq<Phase>, qs: seq<Phase>, wanted: Phase -> bool)
    requires Lists(ps, wanted) && Lists(qs, wanted)
    ensures ps == qs
  {
    var le := (p: Phase, q: Phase) => PhasePlace(p) <= PhasePlace(q);
    assert Distinct(ps) && Distinct(qs);
    DistinctSameSet(ps, qs);
    forall p, q | le(p, q) && le(q, p) ensures p == q {
      PlaceDecides(p, q);
    }
    hide PhasePlace;
    SortedIsUnique(ps, qs, le);
  }

  lemma NamesByPlace(corpus: seq<(Scenario, Json)>)
    ensures Map(corpus, FirstOf) == SCENARIO_NAMES <==>
      |corpus| == 7 && forall i :: 0 <= i < 7 ==> ScenarioPlace(corpus[i].0) == i
  {
    var names := Map(corpus, FirstOf);
    assert |SCENARIO_NAMES| == 7;
    forall i | 0 <= i < 7 ensures forall s :: ScenarioPlace(s) == i <==> s == SCENARIO_NAMES[i] {
      ScenarioPlaces(i);
    }
    hide ScenarioPlace;
  }

  lemma ScenarioPlaces(i: nat)
    requires i < |SCENARIO_NAMES|
    ensures forall s :: ScenarioPlace(s) == i <==> s == SCENARIO_NAMES[i]
  {
    if i != 0 && i != 1 && i != 2 {
      assert i == 3 || i == 4 || i == 5 || i == 6;
    }
  }

  lemma PhasesByPlace(phases: seq<(Phase, Json)>)
    ensures Map(phases, FirstOf) == PHASE_NAMES <==>
      |phases| == 6 && forall i :: 0 <= i < 6 ==> PhasePlace(phases[i].0) == i
  {
    assert |PHASE_NAMES| == 6;
    forall i | 0 <= i < 6 ensures forall p :: PhasePlace(p) == i <==> p == PHASE_NAMES[i] {
      PlacesAre(i);
      forall p | PhasePlace(p) == i ensures p == PHASE_NAMES[i] {
        PlaceDecides(p, PHASE_NAMES[i]);
      }
    }
    hide PhasePlace;
  }

  lemma RowsNamedOnce(m: Manifest, r: P0Reference, files: Surroundings, rows: seq<ResultRow>)
    ensures RowsComplete(rows, RowKeysOf(Admit(m, r, files).executionPhaseScope)) <==>
      NamesEach(Map(rows, ResultKey), (k: RowKey) => Executes(m, k.0))
  {
    var scope := Admit(m, r, files).executionPhaseScope;
    AdmittedScopeDistinct(m, r, files);
    AdmittedScopes(m, r, files);
    hide Admit;
    RowKeysDistinct(scope);
    forall k ensures k in RowKeysOf(scope) <==> Executes(m, k.0) {
      RowKeysAre(scope, k);
    }
    hide RowKeysOf, NamesEach, InPlace;
    NamesEachIff(Map(rows, ResultKey), RowKeysOf(scope), (k: RowKey) => Executes(m, k.0));
  }

  lemma ScopeIff(m: Manifest, r: P0Reference, files: Surroundings, phases: seq<Phase>)
    ensures phases == Admit(m, r, files).executionPhaseScope <==> Lists(phases, p => Executes(m, p))
  {
    AdmittedScopes(m, r, files);
    hide Admit, InPlace;
    if Lists(phases, p => Executes(m, p)) {
      ListsAreEqual(phases, Admit(m, r, files).executionPhaseScope, p => Executes(m, p));
    }
  }

  lemma RowsIff(rows: seq<ResultRow>, s: Sampling)
    ensures (forall i :: 0 <= i < |rows| ==> ResultRowOk(rows[i], s)) <==>
      (forall row :: row in rows ==> RowProper(row, s))
  {
    forall row ensures ResultRowOk(row, s) <==> RowProper(row, s) {
      RowProperIff(row, s);
    }
    hide ResultRowOk, RowProper;
    assert forall i :: 0 <= i < |rows| ==> rows[i] in rows;
  }

  lemma AdmittedMethod(m: Manifest, r: P0Reference, files: Surroundings)
    ensures var a := Admit(m, r, files);
      && a.manifest == m && a.sampling == DeclaredSampling(m)
      && a.profile == if m.stage == FullProfile then Full else Pr
  {
  }

  /** A raw report is accepted exactly when it is there and says what the manifest declares. */
  lemma ReportAcceptedIff(m: Manifest, r: P0Reference, files: Surroundings, run: ProcessRun)
    ensures RawReportOk(run, Admit(m, r, files)) <==>
      run.file.Parsed? && ReportAsDeclared(m, (run.pairIndex, run.condition), run.file.report)
  {
    hide Admit, RowsComplete, NamesEach, RowKeysOf, ResultRowOk, RowProper, Lists, ScenarioPlace, PhasePlace, Executes;
    AdmittedMethod(m, r, files);
    if run.file.Parsed? {
      var rep := run.file.report;
      ScopeIff(m, r, files, rep.method_.phaseScope);
      RowsNamedOnce(m, r, files, rep.results);
      NamesByPlace(rep.corpus);
      PhasesByPlace(rep.phases);
      RowsIff(rep.results, DeclaredSampling(m));
      hide DeclaredSampling;
    }
  }

  // --------------------------------------------------------------- whole runs

  /** No object in the report has a key twice; a parsed JSON text never has one. */
  ghost predicate WellFormedReport(rep: Report) {
    && WellFormed(Obj(rep.environment)) && WellFormed(rep.method_.policies) && WellFormed(rep.formatterOptions)
    && (forall i :: 0 <= i < |rep.corpus| ==> WellFormed(rep.corpus[i].1))
    && (forall i :: 0 <= i < |rep.phases| ==> WellFormed(rep.phases[i].1))
    && (forall i :: 0 <= i < |rep.results| ==> WellFormed(rep.results[i].semanticSink))
  }

  ghost predicate WellFormedWorld(world: World) {
    forall j :: world(j).file.Parsed? ==> WellFormedReport(world(j).file.report)
  }

  /** The machine and its tools are the same; other environment fields may differ. */
  ghost predicate SameMachine(r: Report, s: Report) {
    forall k :: k in {"node", "pnpm", "platform", "release", "architecture", "cpu", "logicalCores", "launcher"} ==>
      SameValue(MemberValue(r.environment, k), MemberValue(s.environment, k))
  }

  /** What the two reports measured is equal up to key order, beyond what the manifest declares. */
  ghost predicate SameSubject(r: Report, s: Report) {
    && Equiv(r.method_.policies, s.method_.policies) && Equiv(r.formatterOptions, s.formatterOptions)
    && |r.corpus| == |s.corpus| && (forall i :: 0 <= i < |r.corpus| ==> Equiv(r.corpus[i].1, s.corpus[i].1))
    && |r.phases| == |s.phases| && (forall i :: 0 <= i < |r.phases| ==> Equiv(r.phases[i].1, s.phases[i].1))
  }

  ghost predicate SameSinks(r: Report, s: Report) {
    forall x, y :: x in r.results && y in s.results && x.phase == y.phase && x.scenario == y.scenario ==>
      Equiv(x.semanticSink, y.semanticSink)
  }

  lemma EnvironmentKeysAre(k: string)
    ensures k in ENVIRONMENT_KEYS <==>
      k in {"node", "pnpm", "platform", "release", "architecture", "cpu", "logicalCores", "launcher"}
  {
    var ks := ENVIRONMENT_KEYS;
    assert ks == ["node", "pnpm", "platform", "release", "architecture", "cpu", "logicalCores", "launcher"];
    assert ks[0] == "node" && ks[1] == "pnpm" && ks[2] == "platform" && ks[3] == "release" && ks[4] == "architecture";
    assert ks[5] == "cpu" && ks[6] == "logicalCores" && ks[7] == "launcher";
  }

  lemma EnvironmentKeysDistinct()
    ensures Distinct(ENVIRONMENT_KEYS)
  {
    var ks := ENVIRONMENT_KEYS;
    assert |ks[0]| == 4 && |ks[1]| == 4 && |ks[2]| == 8 && |ks[3]| == 7 && |ks[4]| == 12 && |ks[5]| == 3;
    assert |ks[6]| == 12 && |ks[7]| == 8;
    assert ks[0][0] == 'n' && ks[1][0] == 'p' && ks[2][0] == 'p' && ks[7][0] == 'l';
    assert ks[4][0] == 'a' && ks[6][0] == 'l';
  }

  lemma EnvironmentValues(environment: seq<Member>) returns (vs: seq<Option<Json>>)
    requires WellFormed(Obj(environment))
    ensures |vs| == |ENVIRONMENT_KEYS| && WellFormedValues(vs)
    ensures forall i :: 0 <= i < |vs| ==> vs[i] == MemberValue(environment, ENVIRONMENT_KEYS[i])
    ensures StableEnvironment(environment) == Obj(RecordMembers(ENVIRONMENT_KEYS, vs))
  {
    hide WellFormed;
    vs := Map(ENVIRONMENT_KEYS, k => MemberValue(environment, k));
    forall i | 0 <= i < |vs| && vs[i].Some? ensures WellFormed(vs[i].value) {
      var j := MemberValueFrom(environment, ENVIRONMENT_KEYS[i]);
      MemberIsWellFormed(environment, j);
    }
  }

  lemma MemberIsWellFormed(ms: seq<Member>, j: nat)
    requires WellFormed(Obj(ms)) && j < |ms|
    ensures WellFormed(ms[j].value)
  {
    assert ms[j] in ms;
  }

  lemma SameMachineIff(r: Report, s: Report)
    requires WellFormedReport(r) && WellFormedReport(s)
    ensures SameEnvironment(r, s) <==> SameMachine(r, s)
  {
    var vs := EnvironmentValues(r.environment);
    var ws := EnvironmentValues(s.environment);
    EnvironmentKeysDistinct();
    RecordsEquiv(ENVIRONMENT_KEYS, vs, ws);
    RecordIsWellFormed(ENVIRONMENT_KEYS, vs);
    RecordIsWellFormed(ENVIRONMENT_KEYS, ws);
    hide WellFormed, Equiv, StableSerialize, WellFormedReport, StableEnvironment, SameValue, RecordMembers;
    StableSerializeIdentifies(StableEnvironment(r.environment), StableEnvironment(s.environment));
    forall k ensures k in ENVIRONMENT_KEYS <==>
      k in {"node", "pnpm", "platform", "release", "architecture", "cpu", "logicalCores", "launcher"}
    {
      EnvironmentKeysAre(k);
    }
    if SameMachine(r, s) {
      forall i | 0 <= i < |vs| ensures SameValue(vs[i], ws[i]) {
        assert ENVIRONMENT_KEYS[i] in ENVIRONMENT_KEYS;
      }
    }
    if SameValues(vs, ws) {
      forall k | k in ENVIRONMENT_KEYS ensures SameValue(MemberValue(r.environment, k), MemberValue(s.environment, k)) {
        var i :| 0 <= i < |vs| && ENVIRONMENT_KEYS[i] == k;
        assert SameValue(vs[i], ws[i]);
      }
    }
  }

  lemma SameSinksIff(r: Report, s: Report)
    requires WellFormedReport(r) && WellFormedReport(s)
    ensures SinksAgree(r, s) <==> SameSinks(r, s)
  {
    hide WellFormed, Equiv, StableSerialize;
    forall i, j | 0 <= i < |r.results| && 0 <= j < |s.results|
      ensures SameSerialized(r.results[i].semanticSink, s.results[j].semanticSink) <==>
        Equiv(r.results[i].semanticSink, s.results[j].semanticSink)
    {
      StableSerializeIdentifies(r.results[i].semanticSink, s.results[j].semanticSink);
    }
    hide SameSerialized, WellFormedReport;
    if SameSinks(r, s) {
      forall i, j | 0 <= i < |r.results| && 0 <= j < |s.results| && ResultKey(r.results[i]) == ResultKey(s.results[j])
        ensures SameSerialized(r.results[i].semanticSink, s.results[j].semanticSink)
      {
        assert r.results[i] in r.results && s.results[j] in s.results;
      }
    }
    if SinksAgree(r, s) {
      forall x, y | x in r.results && y in s.results && x.phase == y.phase && x.scenario == y.scenario
        ensures Equiv(x.semanticSink, y.semanticSink)
      {
        var i :| 0 <= i < |r.results| && r.results[i] == x;
        var j :| 0 <= j < |s.results| && s.results[j] == y;
        assert ResultKey(r.results[i]) == ResultKey(s.results[j]);
      }
    }
  }

  lemma SameDetailsIff<T>(xs: seq<(T, Json)>, ys: seq<(T, Json)>)
    requires forall i :: 0 <= i < |xs| ==> WellFormed(xs[i].1)
    requires forall i :: 0 <= i < |ys| ==> WellFormed(ys[i].1)
    requires |xs| == |ys| && forall i :: 0 <= i < |xs| ==> xs[i].0 == ys[i].0
    ensures SameDetails(xs, ys) <==> forall i :: 0 <= i < |xs| ==> Equiv(xs[i].1, ys[i].1)
  {
    hide WellFormed, Equiv, StableSerialize;
    forall i | 0 <= i < |xs| ensures SameSerialized(xs[i].1, ys[i].1) <==> Equiv(xs[i].1, ys[i].1) {
      StableSerializeIdentifies(xs[i].1, ys[i].1);
    }
  }

  lemma SameNames(r: Report, s: Report)
    requires |r.corpus| == 7 && (forall i :: 0 <= i < 7 ==> ScenarioPlace(r.corpus[i].0) == i)
    requires |s.corpus| == 7 && (forall i :: 0 <= i < 7 ==> ScenarioPlace(s.corpus[i].0) == i)
    requires |r.phases| == 6 && (forall i :: 0 <= i < 6 ==> PhasePlace(r.phases[i].0) == i)
    requires |s.phases| == 6 && (forall i :: 0 <= i < 6 ==> PhasePlace(s.phases[i].0) == i)
    ensures forall i :: 0 <= i < 7 ==> r.corpus[i].0 == s.corpus[i].0
    ensures forall i :: 0 <= i < 6 ==> r.phases[i].0 == s.phases[i].0
  {
    NamesByPlace(r.corpus);
    NamesByPlace(s.corpus);
    PhasesByPlace(r.phases);
    PhasesByPlace(s.phases);
    hide ScenarioPlace, PhasePlace;
    assert forall i :: 0 <= i < 7 ==> Map(r.corpus, FirstOf)[i] == Map(s.corpus, FirstOf)[i];
    assert forall i :: 0 <= i < 6 ==> Map(r.phases, FirstOf)[i] == Map(s.phases, FirstOf)[i];
  }

  lemma DeclaredMethods(m: Manifest, x: PlannedItem, y: PlannedItem, r: Report, s: Report)
    requires ReportAsDeclared(m, x, r) && ReportAsDeclared(m, y, s)
    ensures r.method_ == s.method_.(policies := r.method_.policies)
    ensures |r.corpus| == |s.corpus| && forall i :: 0 <= i < |r.corpus| ==> r.corpus[i].0 == s.corpus[i].0
    ensures |r.phases| == |s.phases| && forall i :: 0 <= i < |r.phases| ==> r.phases[i].0 == s.phases[i].0
  {
    hide Lists, RowProper, NamesEach, DeclaredSampling, DeclaredCommit, ScenarioPlace, PhasePlace, Executes;
    ListsAreEqual(r.method_.phaseScope, s.method_.phaseScope, p => Executes(m, p));
    SameNames(r, s);
  }

  /** Reports that are as declared were measured alike exactly when machine and subject are the same. */
  lemma MeasuredAlikeIff(m: Manifest, x: PlannedItem, y: PlannedItem, r: Report, s: Report)
    requires WellFormedReport(r) && WellFormedReport(s) && ReportAsDeclared(m, x, r) && ReportAsDeclared(m, y, s)
    ensures MeasuredAlike(r, s) <==> SameMachine(r, s) && SameSubject(r, s)
  {
    hide WellFormed, Equiv, StableSerialize, SameMachine, StableEnvironment, ReportAsDeclared;
    SameMachineIff(r, s);
    DeclaredMethods(m, x, y, r, s);
    SameDetailsIff(r.corpus, s.corpus);
    SameDetailsIff(r.phases, s.phases);
    StableSerializeIdentifies(r.method_.policies, s.method_.policies);
    StableSerializeIdentifies(r.formatterOptions, s.formatterOptions);
    hide SameDetails;
  }

  /** The process ended well and reported, as declared, without failure. */
  ghost predicate ProcessProper(m: Manifest, item: PlannedItem, e: Execution) {
    && e.exitCode == Some(0) && e.file.Parsed? && e.file.report.failure.None?
    && ReportAsDeclared(m, item, e.file.report)
  }

  /**
   * Every planned process ended well on the machine of the first one, with its sinks, and the two of each pair
   * measured the same subject.
   */
  ghost predicate RunProper(m: Manifest, world: World) {
    var order := RunOrderForManifest(m);
    forall j :: 0 <= j < |order| ==> TurnProper(m, order, world, j)
  }

  ghost predicate TurnProper(m: Manifest, order: seq<PlannedItem>, world: World, j: nat)
    requires j < |order|
  {
    && AgreesWithFirst(m, order[j], world, j)
    && (j % 2 == 1 ==>
         world(j - 1).file.Parsed? && SameSubject(world(j - 1).file.report, world(j).file.report))
  }

  ghost predicate AgreesWithFirst(m: Manifest, item: PlannedItem, world: World, j: nat) {
    && ProcessProper(m, item, world(j)) && world(0).file.Parsed?
    && SameMachine(world(0).file.report, world(j).file.report)
    && SameSinks(world(0).file.report, world(j).file.report)
  }

  lemma FineIffProper(m: Manifest, r: P0Reference, files: Surroundings, world: World, j: nat)
    requires j < |RunOrderForManifest(m)|
    ensures var order := RunOrderForManifest(m);
      FineRun(Admit(m, r, files), RunAt(order, world, j)) <==> ProcessProper(m, order[j], world(j))
  {
    hide RawReportOk, ReportAsDeclared, RunOrderForManifest, Admit;
    var order := RunOrderForManifest(m);
    ReportAcceptedIff(m, r, files, RunAt(order, world, j));
  }

  lemma AgreesIff(order: seq<PlannedItem>, world: World, j: nat)
    requires j < |order| && WellFormedWorld(world)
    ensures AgreesWith(RunAt(order, world, 0), RunAt(order, world, j)) <==>
      && world(0).file.Parsed? && world(j).file.Parsed?
      && SameMachine(world(0).file.report, world(j).file.report)
      && SameSinks(world(0).file.report, world(j).file.report)
  {
    hide WellFormedReport, SameEnvironment, SinksAgree, SameMachine, SameSinks;
    if world(0).file.Parsed? && world(j).file.Parsed? {
      SameMachineIff(world(0).file.report, world(j).file.report);
      SameSinksIff(world(0).file.report, world(j).file.report);
    }
  }

  lemma AlikeEitherWay(r: Report, s: Report)
    ensures MeasuredAlike(r, s) <==> MeasuredAlike(s, r)
  {
    hide StableSerialize, StableEnvironment;
  }

  lemma PairAlikeIff(m: Manifest, world: World, j: nat)
    requires WellFormedWorld(world) && 0 < j < |RunOrderForManifest(m)|
    requires ProcessProper(m, RunOrderForManifest(m)[j - 1], world(j - 1))
    requires ProcessProper(m, RunOrderForManifest(m)[j], world(j))
    requires SameMachine(world(j - 1).file.report, world(j).file.report)
    ensures var order := RunOrderForManifest(m);
      PairAlike(RunAt(order, world, j - 1), RunAt(order, world, j)) <==>
        SameSubject(world(j - 1).file.report, world(j).file.report)
  {
    hide MeasuredAlike, WellFormedReport, ReportAsDeclared, SameMachine, SameSubject, RunOrderForManifest;
    var order := RunOrderForManifest(m);
    MeasuredAlikeIff(m, order[j - 1], order[j], world(j - 1).file.report, world(j).file.report);
    AlikeEitherWay(world(j - 1).file.report, world(j).file.report);
  }

  lemma MachinesChain(r: Report, s: Report, t: Report)
    requires SameMachine(r, s) && SameMachine(r, t) && WellFormedReport(r) && WellFormedReport(s) && WellFormedReport(t)
    ensures SameMachine(s, t)
  {
    hide WellFormedReport, SameMachine, StableEnvironment, StableSerialize;
    SameMachineIff(r, s);
    SameMachineIff(r, t);
    SameMachineIff(s, t);
  }

  lemma AgreesWithFirstIff(m: Manifest, r: P0Reference, files: Surroundings, world: World, j: nat)
    requires WellFormedWorld(world) && j < |RunOrderForManifest(m)|
    ensures var a, order := Admit(m, r, files), RunOrderForManifest(m);
      FineRun(a, RunAt(order, world, j)) && AgreesWith(RunAt(order, world, 0), RunAt(order, world, j)) <==>
        AgreesWithFirst(m, order[j], world, j)
  {
    hide FineRun, AgreesWith, ReportAsDeclared, SameMachine, SameSinks, RunOrderForManifest, Admit, WellFormedWorld;
    FineIffProper(m, r, files, world, j);
    AgreesIff(RunOrderForManifest(m), world, j);
  }

  lemma PairAfterFirst(m: Manifest, world: World, j: nat)
    requires WellFormedWorld(world) && 0 < j < |RunOrderForManifest(m)|
    requires AgreesWithFirst(m, RunOrderForManifest(m)[j - 1], world, j - 1)
    requires AgreesWithFirst(m, RunOrderForManifest(m)[j], world, j)
    ensures var order := RunOrderForManifest(m);
      PairAlike(RunAt(order, world, j - 1), RunAt(order, world, j)) <==>
        SameSubject(world(j - 1).file.report, world(j).file.report)
  {
    hide ReportAsDeclared, SameMachine, SameSinks, SameSubject, RunOrderForManifest, WellFormedReport, PairAlike;
    MachinesChain(world(0).file.report, world(j - 1).file.report, world(j).file.report);
    PairAlikeIff(m, world, j);
  }

  lemma CleanAt(m: Manifest, r: P0Reference, files: Surroundings, world: World, j: nat)
    requires CleanRun(Admit(m, r, files), world) && j < |RunOrderForManifest(m)|
    ensures CleanStep(Admit(m, r, files), RunOrderForManifest(m), world, j)
  {
    assert Admit(m, r, files).manifest == m;
    hide CleanStep, RunOrderForManifest, Admit;
  }

  lemma CleanTurnIsProper(m: Manifest, r: P0Reference, files: Surroundings, world: World, j: nat)
    requires WellFormedWorld(world) && CleanRun(Admit(m, r, files), world) && j < |RunOrderForManifest(m)|
    ensures TurnProper(m, RunOrderForManifest(m), world, j)
  {
    hide CleanRun, WellFormedWorld, Admit, RunOrderForManifest, AgreesWithFirst, SameSubject, PairAlike;
    CleanTurnAgrees(m, r, files, world, j);
    if j % 2 == 1 {
      CleanTurnAgrees(m, r, files, world, j - 1);
      PairAfterFirst(m, world, j);
      FirstIsParsed(m, RunOrderForManifest(m)[j - 1], world, j - 1);
    }
  }

  lemma CleanTurnAgrees(m: Manifest, r: P0Reference, files: Surroundings, world: World, j: nat)
    requires WellFormedWorld(world) && CleanRun(Admit(m, r, files), world) && j < |RunOrderForManifest(m)|
    ensures AgreesWithFirst(m, RunOrderForManifest(m)[j], world, j) && PairedAt(RunOrderForManifest(m), world, j)
  {
    hide CleanRun, WellFormedWorld, Admit, RunOrderForManifest, FineRun, AgreesWith, AgreesWithFirst, PairedAt;
    CleanAt(m, r, files, world, j);
    AgreesWithFirstIff(m, r, files, world, j);
  }

  lemma FirstIsParsed(m: Manifest, item: PlannedItem, world: World, j: nat)
    requires AgreesWithFirst(m, item, world, j)
    ensures world(j).file.Parsed?
  {
  }

  lemma ProperTurnIsClean(m: Manifest, r: P0Reference, files: Surroundings, world: World, j: nat)
    requires WellFormedWorld(world) && RunProper(m, world) && j < |RunOrderForManifest(m)|
    ensures CleanStep(Admit(m, r, files), RunOrderForManifest(m), world, j)
  {
    var order := RunOrderForManifest(m);
    hide FineRun, AgreesWith, PairAlike, AgreesWithFirst, SameSubject, RunOrderForManifest, Admit, WellFormedWorld;
    assert TurnProper(m, order, world, j);
    AgreesWithFirstIff(m, r, files, world, j);
    if j % 2 == 1 {
      assert TurnProper(m, order, world, j - 1);
      PairAfterFirst(m, world, j);
    }
  }

  /** A run goes through exactly when its processes do, on one machine, what the manifest declares. */
  lemma GoesThroughIffProper(m: Manifest, r: P0Reference, files: Surroundings, world: World)
    requires WellFormedWorld(world)
    ensures !Stopped(FinalState(Admit(m, r, files), world)) <==> RunProper(m, world)
  {
    var a, order := Admit(m, r, files), RunOrderForManifest(m);
    assert a.manifest == m;
    hide CleanStep, TurnProper, Stopped, FinalState, Tracks, RunOrderForManifest, WellFormedWorld, Admit;
    GoesThroughIffClean(m, r, files, world);
    if CleanRun(a, world) {
      forall j | 0 <= j < |order| ensures TurnProper(m, order, world, j) {
        CleanTurnIsProper(m, r, files, world, j);
      }
    }
    if RunProper(m, world) {
      forall j | 0 <= j < |order| ensures CleanStep(a, order, world, j) {
        ProperTurnIsClean(m, r, files, world, j);
      }
    }
  }
}
