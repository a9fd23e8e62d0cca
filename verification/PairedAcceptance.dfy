/** What the next stage asks of an earlier record, said of the record and the manifest, for any record at all. */
module PairedAcceptance {
  import opened Texts
  import opened Wrappers
  import opened StableSort
  import opened PairedProtocol
  import opened PairedRun
  import opened PairedRunLaws
  import opened PairedVerdicts
  import opened PairedEvidence
  import opened PairedDeclarations
  import opened PairedReporting

  // -------------------------------------------------------------- thresholds

  /** Rows come by phase, and by scenario within a phase. */
  predicate RowBefore(k: RowKey, l: RowKey) {
    PhasePlace(k.0) < PhasePlace(l.0) || (k.0 == l.0 && ScenarioPlace(k.1) < ScenarioPlace(l.1))
  }

  predicate RowsInPlace(keys: seq<RowKey>) {
    forall i, j :: 0 <= i < j < |keys| ==> RowBefore(keys[i], keys[j])
  }

  /** The manifest's own thresholds, in the order of rows. */
  ghost predicate RepeatsThresholds(ts: seq<Threshold>, m: Manifest) {
    RowsInPlace(Map(ts, ThresholdKey)) && forall t :: t in ts <==> t in m.practicalThresholds
  }

  lemma KeysOfPhaseInPlace(p: Phase)
    ensures RowsInPlace(KeysOfPhase(p))
  {
    forall i | 0 <= i < |SCENARIO_NAMES| ensures ScenarioPlace(SCENARIO_NAMES[i]) == i {
      ScenarioPlaces(i);
    }
    hide ScenarioPlace, PhasePlace;
  }

  lemma {:induction false} RowKeysInPlace(phases: seq<Phase>)
    requires InPlace(phases)
    ensures RowsInPlace(RowKeysOf(phases))
  {
    if phases != [] {
      hide PhasePlace, ScenarioPlace;
      RowKeysInPlace(phases[1..]);
      KeysOfPhaseInPlace(phases[0]);
      var keys, rest := KeysOfPhase(phases[0]), RowKeysOf(phases[1..]);
      forall j | 0 <= j < |rest| ensures PhasePlace(phases[0]) < PhasePlace(rest[j].0) {
        RowKeysAre(phases[1..], rest[j]);
        assert rest[j] in rest;
        var i :| 0 <= i < |phases[1..]| && phases[1..][i] == rest[j].0;
        assert phases[i + 1] == rest[j].0;
      }
      assert forall i :: 0 <= i < |keys| ==> keys[i].0 == phases[0];
      PlacedAfter(keys, rest);
    }
  }

  lemma PlacedAfter(keys: seq<RowKey>, rest: seq<RowKey>)
    requires RowsInPlace(keys) && RowsInPlace(rest)
    requires forall i, j :: 0 <= i < |keys| && 0 <= j < |rest| ==> PhasePlace(keys[i].0) < PhasePlace(rest[j].0)
    ensures RowsInPlace(keys + rest)
  {
    hide PhasePlace, ScenarioPlace;
  }

  lemma NormalThresholds(m: Manifest, r: P0Reference) returns (ts: seq<Threshold>)
    requires ManifestShapeOk(m, r)
    ensures NormalizeThresholds(m) == Success(ts) && RepeatsThresholds(ts, m)
  {
    hide ManifestShapeOk, RowKeysOf, ThresholdMap, NormalizedScope, PhasePlace, ScenarioPlace, Admit;
    var keys, byRow := RowKeysOf(NormalizedScope(m.phaseScope)), ThresholdMap(m.practicalThresholds);
    forall k ensures k in keys <==> k.0 in m.phaseScope {
      RowKeysAre(NormalizedScope(m.phaseScope), k);
      ScopeAre(m.phaseScope, k.0);
    }
    DeclaredThresholds(m, r);
    ThresholdsFound(keys, byRow);
    ts := ThresholdsFor(keys, byRow).value;
    ScopeLists(m.phaseScope);
    RowKeysInPlace(NormalizedScope(m.phaseScope));
    assert Map(ts, ThresholdKey) == keys;
    forall t ensures t in ts <==> t in m.practicalThresholds {
      if t in ts {
        var i :| 0 <= i < |ts| && ts[i] == t;
        assert keys[i] in keys;
      }
      if t in m.practicalThresholds {
        assert ThresholdKey(t) in keys;
        var i :| 0 <= i < |keys| && keys[i] == ThresholdKey(t);
        assert ts[i] == t;
      }
    }
  }

  lemma NamedIffWanted(entries: seq<RowKey>, wanted: RowKey -> bool, k: RowKey)
    requires NamesEach(entries, wanted)
    ensures k in entries <==> wanted(k)
  {
    assert k in entries <==> exists i :: 0 <= i < |entries| && entries[i] == k;
  }

  lemma ThresholdsDistinct(m: Manifest, r: P0Reference)
    requires ManifestShapeOk(m, r)
    ensures Distinct(Map(m.practicalThresholds, ThresholdKey))
    ensures forall k :: k in Map(m.practicalThresholds, ThresholdKey) <==> k.0 in m.phaseScope
  {
    ThresholdsProperIff(m);
    var entries := Map(m.practicalThresholds, ThresholdKey);
    forall k ensures k in entries <==> k.0 in m.phaseScope {
      NamedIffWanted(entries, (l: RowKey) => l.0 in m.phaseScope, k);
    }
  }

  lemma DeclaredThresholds(m: Manifest, r: P0Reference)
    requires ManifestShapeOk(m, r)
    ensures var byRow := ThresholdMap(m.practicalThresholds);
      && (forall k :: k in byRow <==> k.0 in m.phaseScope)
      && (forall k :: k in byRow ==> Threshold(k.0, k.1, byRow[k]) in m.practicalThresholds)
      && (forall t :: t in m.practicalThresholds ==> ThresholdKey(t) in byRow && byRow[ThresholdKey(t)] == t.minimum)
  {
    hide ManifestShapeOk, ThresholdMap, ThresholdsOk;
    var ts, byRow := m.practicalThresholds, ThresholdMap(m.practicalThresholds);
    ThresholdsDistinct(m, r);
    hide Distinct;
    forall t | t in ts ensures ThresholdKey(t) in byRow && byRow[ThresholdKey(t)] == t.minimum {
      var i :| 0 <= i < |ts| && ts[i] == t;
      ThresholdLookup(ts, i);
    }
    forall k ensures k in byRow ==> Threshold(k.0, k.1, byRow[k]) in ts {
      ThresholdMapHas(ts, k);
      if k in byRow {
        var i :| 0 <= i < |ts| && Map(ts, ThresholdKey)[i] == k;
        assert ts[i] in ts;
      }
    }
    forall k ensures k in byRow <==> k.0 in m.phaseScope {
      ThresholdMapHas(ts, k);
    }
  }

  lemma PlacesDecide(k: RowKey, l: RowKey)
    ensures !(RowBefore(k, l) && RowBefore(l, k))
    ensures k == l || RowBefore(k, l) || RowBefore(l, k)
  {
    if PhasePlace(k.0) == PhasePlace(l.0) {
      PlaceDecides(k.0, l.0);
      if ScenarioPlace(k.1) == ScenarioPlace(l.1) {
        ScenarioDecides(k.1, l.1);
      }
    }
  }

  lemma ScenarioDecides(s: Scenario, t: Scenario)
    requires ScenarioPlace(s) == ScenarioPlace(t)
    ensures s == t
  {
  }

  lemma RepeatedIffNormal(m: Manifest, r: P0Reference, ts: seq<Threshold>)
    requires ManifestShapeOk(m, r)
    ensures NormalizeThresholds(m) == Success(ts) <==> RepeatsThresholds(ts, m)
  {
    var normal := NormalThresholds(m, r);
    hide ManifestShapeOk, NormalizeThresholds, PhasePlace, ScenarioPlace;
    if RepeatsThresholds(ts, m) {
      var le := (s: Threshold, t: Threshold) =>
        ThresholdKey(s) == ThresholdKey(t) || RowBefore(ThresholdKey(s), ThresholdKey(t));
      ThresholdOrder(le);
      InPlaceIsSorted(normal, le);
      InPlaceIsSorted(ts, le);
      DistinctSameSet(normal, ts);
      SortedIsUnique(normal, ts, le);
    }
  }

  lemma ThresholdOrder(le: (Threshold, Threshold) -> bool)
    requires forall s, t :: le(s, t) <==>
      ThresholdKey(s) == ThresholdKey(t) || RowBefore(ThresholdKey(s), ThresholdKey(t))
    ensures TotalPreorder(le)
  {
    forall s, t ensures le(s, t) || le(t, s) {
      PlacesDecide(ThresholdKey(s), ThresholdKey(t));
    }
    hide PhasePlace, ScenarioPlace;
  }

  lemma InPlaceIsSorted(ts: seq<Threshold>, le: (Threshold, Threshold) -> bool)
    requires RowsInPlace(Map(ts, ThresholdKey))
    requires forall s, t :: le(s, t) <==>
      ThresholdKey(s) == ThresholdKey(t) || RowBefore(ThresholdKey(s), ThresholdKey(t))
    ensures Sorted(ts, le) && Distinct(ts) && Separated(ts, le)
  {
    var keys := Map(ts, ThresholdKey);
    forall i, j | 0 <= i < j < |ts| ensures RowBefore(ThresholdKey(ts[i]), ThresholdKey(ts[j])) && ts[i] != ts[j] {
      assert RowBefore(keys[i], keys[j]);
    }
    hide RowBefore;
    forall s, t | s in ts && t in ts && le(s, t) && le(t, s) ensures s == t {
      var i :| 0 <= i < |ts| && ts[i] == s;
      var j :| 0 <= j < |ts| && ts[j] == t;
      PlacesDecide(ThresholdKey(s), ThresholdKey(t));
      NeverItsOwnSuccessor(ThresholdKey(s));
    }
  }

  lemma NeverItsOwnSuccessor(k: RowKey)
    ensures !RowBefore(k, k)
  {
  }

  // ---------------------------------------------------------------- commands

  /** One process of the record: where it stood, what it was told, and that it ended well on its own clean commit. */
  predicate CommandProper(c: Command, item: PlannedItem, sequence: nat, candidate: CandidateInfo, phases: seq<Phase>) {
    && c.sequence == sequence && c.pairIndex == item.0 && c.condition == item.1 == c.cwdRole
    && c.command == "node" && c.exitCode == Some(0) && c.environment.Some? && c.processPath != ""
    && c.commit.Some? && !c.commit.value.dirty
    && c.commit.value.sha ==
         (match item.1 case Baseline => candidate.baseCommit case Candidate => candidate.candidateCommit)
    && c.reportPath.Some? && c.reportPath.value != ""
    && c.args == [
         "<ts-node-cli>", "benchmarks/ast-analysis-phase-benchmark.ts", "--profile=pr",
         "--phases=" + JoinPhases(phases), ConditionOption(item.1), "--candidate-id=" + candidate.id,
         "--pair-index=" + Digits(item.0), "--output-file=" + c.reportPath.value]
  }

  lemma ExpectedArguments(phases: seq<Phase>, condition: Condition, id: string, pair: nat, path: string)
    ensures NormalizedCommandArgs(Pr, phases, condition, id, pair, path) == [
      "<ts-node-cli>", "benchmarks/ast-analysis-phase-benchmark.ts", "--profile=pr", "--phases=" + JoinPhases(phases),
      ConditionOption(condition), "--candidate-id=" + id, "--pair-index=" + Digits(pair), "--output-file=" + path]
  {
    ConditionTold(condition);
    ProfileTold(Pr);
    hide Digits, JoinPhases, ConditionText, ProfileText, ConditionOption;
  }

  lemma CommandProperIff(c: Command, i: nat, item: PlannedItem, candidate: CandidateInfo, phases: seq<Phase>)
    ensures CommandOk(c, i, item, candidate, phases) <==> CommandProper(c, item, i + 1, candidate, phases)
  {
    if c.reportPath.Some? {
      ExpectedArguments(phases, item.1, candidate.id, item.0, c.reportPath.value);
    }
    hide NormalizedCommandArgs, ConditionOption, JoinPhases, Digits;
  }

  /** A screen ran one pair, baseline first. */
  predicate ScreenCommands(cs: seq<Command>, candidate: CandidateInfo, phases: seq<Phase>) {
    && |cs| == 2
    && CommandProper(cs[0], (1, Baseline), 1, candidate, phases)
    && CommandProper(cs[1], (1, Candidate), 2, candidate, phases)
  }

  /** A confirmation ran three pairs, the second one candidate first. */
  predicate ConfirmationCommands(cs: seq<Command>, candidate: CandidateInfo, phases: seq<Phase>) {
    && |cs| == 6
    && CommandProper(cs[0], (1, Baseline), 1, candidate, phases)
    && CommandProper(cs[1], (1, Candidate), 2, candidate, phases)
    && CommandProper(cs[2], (2, Candidate), 3, candidate, phases)
    && CommandProper(cs[3], (2, Baseline), 4, candidate, phases)
    && CommandProper(cs[4], (3, Baseline), 5, candidate, phases)
    && CommandProper(cs[5], (3, Candidate), 6, candidate, phases)
  }

  lemma CommandsIff(cs: seq<Command>, candidate: CandidateInfo, phases: seq<Phase>)
    ensures CommandsComplete(cs, RunOrderForStage(Screen), candidate, phases) <==> ScreenCommands(cs, candidate, phases)
    ensures CommandsComplete(cs, RunOrderForStage(Confirmation), candidate, phases) <==>
      ConfirmationCommands(cs, candidate, phases)
  {
    hide CommandOk, CommandProper;
    forall i: nat, item | i < |cs|
      ensures CommandOk(cs[i], i, item, candidate, phases) <==> CommandProper(cs[i], item, i + 1, candidate, phases)
    {
      CommandProperIff(cs[i], i, item, candidate, phases);
    }
    assert RunOrderForStage(Screen) == [(1, Baseline), (1, Candidate)];
    assert RunOrderForStage(Confirmation) ==
      [(1, Baseline), (1, Candidate), (2, Candidate), (2, Baseline), (3, Baseline), (3, Candidate)];
  }

  // --------------------------------------------------------------- artifacts

  /** Some path ends in a directory separator and the name. */
  ghost predicate NamesFile(paths: seq<string>, name: string) {
    exists dir: string :: dir + ("/" + name) in paths
  }

  /** The admission, the summary, and what each process left are listed. */
  ghost predicate ListsArtifacts(rec: Record) {
    && NamesFile(rec.rawArtifacts, "admission.json") && NamesFile(rec.rawArtifacts, "paired-summary.json")
    && forall c :: c in rec.commands ==>
         c.processPath in rec.rawArtifacts && c.reportPath.Some? && c.reportPath.value in rec.rawArtifacts
  }

  lemma FileNamed(paths: seq<string>, name: string)
    ensures NamesFile(paths, name) <==> exists i :: 0 <= i < |paths| && EndsWith(paths[i], "/" + name)
  {
    if dir: string :| dir + ("/" + name) in paths {
      var i :| 0 <= i < |paths| && paths[i] == dir + ("/" + name);
    }
    if i :| 0 <= i < |paths| && EndsWith(paths[i], "/" + name) {
      var p := paths[i];
      assert p in paths && p == p[..|p| - |"/" + name|] + ("/" + name);
    }
  }

  lemma ArtifactsIff(rec: Record)
    ensures ArtifactsNamed(rec.rawArtifacts, rec.commands) <==> ListsArtifacts(rec)
  {
    FileNamed(rec.rawArtifacts, "admission.json");
    FileNamed(rec.rawArtifacts, "paired-summary.json");
    assert "/" + "admission.json" == "/admission.json" && "/" + "paired-summary.json" == "/paired-summary.json";
    hide EndsWith, NamesFile;
    assert forall i :: 0 <= i < |rec.commands| ==> rec.commands[i] in rec.commands;
  }

  lemma AllDifferent<T>(s: seq<T>)
    ensures |AsSet(s)| == |s| <==> Distinct(s)
  {
    if Distinct(s) {
      DistinctSetSize(s);
      assert AsSet(s) == set i | 0 <= i < |s| :: s[i];
    } else {
      var i, j :| 0 <= i < j < |s| && s[i] == s[j];
      var rest := s[..i] + s[i + 1..];
      assert AsSet(s) == AsSet(rest) by {
        assert rest[j - 1] == s[j];
        forall x ensures x in AsSet(s) <==> x in AsSet(rest) {
          if k :| 0 <= k < |s| && s[k] == x {
            assert x == if k < i then rest[k] else if k == i then rest[j - 1] else rest[k - 1];
          }
          if k :| 0 <= k < |rest| && rest[k] == x {
            assert x == if k < i then s[k] else s[k + 1];
          }
        }
      }
      SetNoLarger(rest);
      assert AsSet(rest) == set i | 0 <= i < |rest| :: rest[i];
    }
  }

  // -------------------------------------------------------------------- rows

  ghost predicate CoversRows(rows: seq<OutcomeRow>) {
    NamesEach(Map(rows, RowKeyOf), (k: RowKey) => true)
  }

  lemma CoversIff(rows: seq<OutcomeRow>)
    ensures RowsCover(rows) <==> CoversRows(rows)
  {
    var keys := Map(rows, RowKeyOf);
    PhaseNamesDistinct();
    RowKeysDistinct(PHASE_NAMES);
    forall k: RowKey ensures k in AllRowKeys() {
      PhasesAreAll(k.0);
      RowKeysAre(PHASE_NAMES, k);
    }
    AllDifferent(keys);
    hide AllRowKeys, NamesEach, AsSet;
    NamesEachIff(keys, AllRowKeys(), (k: RowKey) => true);
    if NamesEach(keys, (k: RowKey) => true) {
      forall k: RowKey ensures k in keys {
        NamedIffWanted(keys, (l: RowKey) => true, k);
      }
    }
    assert forall i :: 0 <= i < |AllRowKeys()| ==> AllRowKeys()[i] in AllRowKeys();
  }

  /** The row is judged by the manifest's own threshold for it. */
  ghost predicate JudgedBy(row: OutcomeRow, m: Manifest) {
    exists t :: t in m.practicalThresholds && t.phase == row.phase && t.scenario == row.scenario
      && row.practicalThresholdMs == Some(t.minimum)
  }

  predicate Unmeasured(row: OutcomeRow) {
    row.status == NotMeasured && row.sinkComparison == SinkNotMeasured && row.practicalThresholdMs == None &&
    row.pairs == []
  }

  ghost predicate ScreenRow(row: OutcomeRow, m: Manifest) {
    && 0.0 <= row.p0RangeMs
    && if row.phase in m.phaseScope then
         && row.status == NeutralOrInconclusive && row.sinkComparison == Matched && JudgedBy(row, m)
         && |row.pairs| == 1 && row.pairs[0].pairIndex == 1
       else Unmeasured(row)
  }

  ghost predicate ConfirmationRow(row: OutcomeRow, m: Manifest) {
    && 0.0 <= row.p0RangeMs
    && if row.phase in m.phaseScope then
         && IsVerdict(row.status) && row.sinkComparison == Matched && JudgedBy(row, m)
         && |row.pairs| == 3
         && row.pairs[0].pairIndex == 1 && row.pairs[1].pairIndex == 2 && row.pairs[2].pairIndex == 3
       else Unmeasured(row)
  }

  lemma JudgedIff(row: OutcomeRow, m: Manifest, r: P0Reference, ts: seq<Threshold>)
    requires ManifestShapeOk(m, r) && NormalizeThresholds(m) == Success(ts)
    ensures var byRow := ThresholdMap(ts);
      RowKeyOf(row) in byRow && row.practicalThresholdMs == Some(byRow[RowKeyOf(row)]) <==> JudgedBy(row, m)
  {
    hide ManifestShapeOk, NormalizeThresholds, PhasePlace, ScenarioPlace, RowsInPlace, ThresholdMap;
    RepeatedIffNormal(m, r, ts);
    InPlaceIsDistinct(Map(ts, ThresholdKey));
    forall t | t in ts ensures ThresholdKey(t) in ThresholdMap(ts) && ThresholdMap(ts)[ThresholdKey(t)] == t.minimum {
      var i :| 0 <= i < |ts| && ts[i] == t;
      ThresholdLookup(ts, i);
    }
    hide Distinct;
    ThresholdMapHas(ts, RowKeyOf(row));
    if RowKeyOf(row) in ThresholdMap(ts) {
      var i :| 0 <= i < |ts| && Map(ts, ThresholdKey)[i] == RowKeyOf(row);
      assert ts[i] in ts;
    }
  }

  lemma InPlaceIsDistinct(keys: seq<RowKey>)
    requires RowsInPlace(keys)
    ensures Distinct(keys)
  {
    forall i, j | 0 <= i < j < |keys| ensures keys[i] != keys[j] {
      NeverItsOwnSuccessor(keys[i]);
    }
  }

  lemma ScreenRowIff(row: OutcomeRow, m: Manifest, r: P0Reference, ts: seq<Threshold>)
    requires ManifestShapeOk(m, r) && NormalizeThresholds(m) == Success(ts)
    ensures ScreenRowOk(row, NormalizedScope(m.phaseScope), ThresholdMap(ts)) <==> ScreenRow(row, m)
  {
    hide ManifestShapeOk, NormalizeThresholds, ThresholdMap, NormalizedScope, JudgedBy, RowKeyOf;
    JudgedIff(row, m, r, ts);
    ScopeAre(m.phaseScope, row.phase);
  }

  lemma ConfirmationRowIff(row: OutcomeRow, m: Manifest, r: P0Reference, ts: seq<Threshold>)
    requires ManifestShapeOk(m, r) && NormalizeThresholds(m) == Success(ts)
    ensures ConfirmationRowOk(row, NormalizedScope(m.phaseScope), ThresholdMap(ts)) <==> ConfirmationRow(row, m)
  {
    hide ManifestShapeOk, NormalizeThresholds, ThresholdMap, NormalizedScope, JudgedBy, RowKeyOf;
    JudgedIff(row, m, r, ts);
    ScopeAre(m.phaseScope, row.phase);
  }

  // ------------------------------------------------------------- whole records

  /** Candidate, scope, rationale, thresholds and fingerprints of the record are the manifest's and today's. */
  ghost predicate Repeats(rec: Record, m: Manifest, files: Surroundings) {
    && rec.candidate == m.candidate && rec.scopeRationale == m.scopeRationale
    && Lists(rec.phaseScope, p => p in m.phaseScope) && RepeatsThresholds(rec.practicalThresholds, m)
    && rec.protocol.p0Commit == "c6f28dbbf4594e99a8e1b1ab662334c010bd7281"
    && rec.protocol.protocolDocumentSha256 == files.protocolDocumentSha256
    && rec.protocol.benchmarkSourceSha256 == files.benchmarkSourceSha256
    && rec.protocol.p0ReferenceSha256 == files.p0ReferenceSha256
  }

  lemma RepeatsIff(rec: Record, m: Manifest, r: P0Reference, files: Surroundings)
    requires ManifestShapeOk(m, r)
    ensures Inherits(m, NormalizedScope(m.phaseScope), files, rec) <==> Repeats(rec, m, files)
  {
    RepeatedIffNormal(m, r, rec.practicalThresholds);
    ScopeLists(m.phaseScope);
    hide ManifestShapeOk, NormalizeThresholds, NormalizedScope, RepeatsThresholds, InPlace;
    if Lists(rec.phaseScope, p => p in m.phaseScope) {
      ListsAreEqual(rec.phaseScope, NormalizedScope(m.phaseScope), p => p in m.phaseScope);
    }
    assert P0_COMMIT == "c6f28dbbf4594e99a8e1b1ab662334c010bd7281";
  }

  /** Two good commands and six artifacts, and a row of its own for everything. */
  ghost predicate ScreenEvidence(rec: Record, m: Manifest, phases: seq<Phase>) {
    && rec.failures == [] && IsHex(rec.protocol.manifestSha256, 64)
    && ScreenCommands(rec.commands, m.candidate, phases)
    && |rec.rawArtifacts| == 6 && "" !in rec.rawArtifacts && Distinct(rec.rawArtifacts) && ListsArtifacts(rec)
    && CoversRows(rec.scenarioRows) && forall row :: row in rec.scenarioRows ==> ScreenRow(row, m)
  }

  /** A screen record that a confirmation may build on. */
  ghost predicate ScreenProper(rec: Record, m: Manifest, files: Surroundings) {
    && rec.stage == Screen && rec.status == NeutralOrInconclusive
    && Repeats(rec, m, files) && ScreenEvidence(rec, m, rec.phaseScope)
  }

  /** Six good commands and fourteen artifacts, a row of its own for everything, and the status those rows give. */
  ghost predicate ConfirmationEvidence(rec: Record, m: Manifest) {
    && rec.screenRunId.Some? && rec.screenRunId.value != "" && rec.escalationDecision != ""
    && IsHex(rec.protocol.manifestSha256, 64)
    && ConfirmationCommands(rec.commands, m.candidate, rec.phaseScope)
    && |set p | p in rec.rawArtifacts| == 14 && ListsArtifacts(rec)
    && CoversRows(rec.scenarioRows) && (forall row :: row in rec.scenarioRows ==> ConfirmationRow(row, m))
    && (forall row :: row in rec.scenarioRows ==> Rank(row.status) <= Rank(rec.status))
    && (exists row :: row in rec.scenarioRows && row.status == rec.status)
  }

  /** A confirmation record that a full profile may build on. */
  ghost predicate ConfirmationProper(rec: Record, m: Manifest, files: Surroundings) {
    && rec.stage == Confirmation && IsVerdict(rec.status) && rec.failures == []
    && Repeats(rec, m, files) && ConfirmationEvidence(rec, m)
  }

  lemma ScreenRowsIff(rows: seq<OutcomeRow>, m: Manifest, r: P0Reference, ts: seq<Threshold>)
    requires ManifestShapeOk(m, r) && NormalizeThresholds(m) == Success(ts)
    ensures var scope := NormalizedScope(m.phaseScope);
      (forall i :: 0 <= i < |rows| ==> ScreenRowOk(rows[i], scope, ThresholdMap(ts))) <==>
        (forall row :: row in rows ==> ScreenRow(row, m))
  {
    hide ManifestShapeOk, NormalizeThresholds, ThresholdMap, NormalizedScope, ScreenRow, ScreenRowOk;
    forall row ensures ScreenRowOk(row, NormalizedScope(m.phaseScope), ThresholdMap(ts)) <==> ScreenRow(row, m) {
      ScreenRowIff(row, m, r, ts);
    }
    assert forall i :: 0 <= i < |rows| ==> rows[i] in rows;
  }

  lemma ConfirmationRowsIff(rows: seq<OutcomeRow>, m: Manifest, r: P0Reference, ts: seq<Threshold>)
    requires ManifestShapeOk(m, r) && NormalizeThresholds(m) == Success(ts)
    ensures var scope := NormalizedScope(m.phaseScope);
      (forall i :: 0 <= i < |rows| ==> ConfirmationRowOk(rows[i], scope, ThresholdMap(ts))) <==>
        (forall row :: row in rows ==> ConfirmationRow(row, m))
  {
    hide ManifestShapeOk, NormalizeThresholds, ThresholdMap, NormalizedScope, ConfirmationRow, ConfirmationRowOk;
    forall row
      ensures ConfirmationRowOk(row, NormalizedScope(m.phaseScope), ThresholdMap(ts)) <==> ConfirmationRow(row, m)
    {
      ConfirmationRowIff(row, m, r, ts);
    }
    assert forall i :: 0 <= i < |rows| ==> rows[i] in rows;
  }

  lemma ScreenArtifactsIff(rec: Record)
    ensures
      (|rec.rawArtifacts| == 6 && (forall i :: 0 <= i < 6 ==> rec.rawArtifacts[i] != "") &&
       |AsSet(rec.rawArtifacts)| == 6 && ArtifactsNamed(rec.rawArtifacts, rec.commands)) <==>
      (|rec.rawArtifacts| == 6 && "" !in rec.rawArtifacts && Distinct(rec.rawArtifacts) && ListsArtifacts(rec))
  {
    AllDifferent(rec.rawArtifacts);
    ArtifactsIff(rec);
    hide ArtifactsNamed, ListsArtifacts, AsSet;
  }

  lemma ScreenEvidenceIff(rec: Record, m: Manifest, r: P0Reference)
    requires ManifestShapeOk(m, r)
    ensures CompleteScreenEvidence(rec, m, NormalizedScope(m.phaseScope)) <==>
      ScreenEvidence(rec, m, NormalizedScope(m.phaseScope))
  {
    hide ManifestShapeOk, NormalizeThresholds, ThresholdMap, NormalizedScope, ScreenRow, ScreenRowOk, CommandsComplete,
      ScreenCommands, ArtifactsNamed, ListsArtifacts, RowsCover, CoversRows, IsHex, IsLowerHex, AsSet, RunOrderForStage,
      RepeatsThresholds, Distinct;
    var ts := NormalThresholds(m, r);
    HexIs(rec.protocol.manifestSha256, 64);
    CommandsIff(rec.commands, m.candidate, NormalizedScope(m.phaseScope));
    ScreenArtifactsIff(rec);
    CoversIff(rec.scenarioRows);
    ScreenRowsIff(rec.scenarioRows, m, r, ts);
  }

  lemma RepeatedScope(rec: Record, m: Manifest, files: Surroundings)
    ensures Inherits(m, NormalizedScope(m.phaseScope), files, rec) ==>
      && rec.phaseScope == NormalizedScope(m.phaseScope) && rec.candidate == m.candidate
      && NormalizeThresholds(m) == Success(rec.practicalThresholds)
  {
    hide NormalizedScope, NormalizeThresholds;
  }

  /** Of any records at all, a confirmation accepts exactly the proper screens. */
  lemma ScreenProperIff(rec: Record, m: Manifest, r: P0Reference, files: Surroundings)
    requires ManifestShapeOk(m, r)
    ensures ScreenAccepted(rec, m, files) <==> ScreenProper(rec, m, files)
  {
    hide ManifestShapeOk, NormalizedScope, Inherits, Repeats, CompleteScreenEvidence;
    RepeatsIff(rec, m, r, files);
    RepeatedScope(rec, m, files);
    ScreenEvidenceIff(rec, m, r);
    hide CommandsComplete, ScreenCommands, ListsArtifacts, CoversRows, IsHex, ScreenRow, Distinct;
  }

  lemma StatusIsHighest(rows: seq<OutcomeRow>, s: Status)
    requires s != NotMeasured
    ensures AggregateStatus(rows) == s <==>
      (forall row :: row in rows ==> Rank(row.status) <= Rank(s)) && exists row :: row in rows && row.status == s
  {
    hide AggregateStatus;
    AggregateIsHighest(rows);
    if AggregateStatus(rows) == s {
      var i :| 0 <= i < |rows| && rows[i].status == s;
      assert rows[i] in rows;
    }
    if (forall row :: row in rows ==> Rank(row.status) <= Rank(s)) && exists row :: row in rows && row.status == s {
      assert forall i :: 0 <= i < |rows| ==> rows[i] in rows;
      HighestIsAggregate(rows, s);
    }
  }

  lemma ConfirmationEvidenceIff(rec: Record, m: Manifest, r: P0Reference)
    requires ManifestShapeOk(m, r) && NormalizeThresholds(m) == Success(rec.practicalThresholds)
    requires rec.candidate == m.candidate && rec.phaseScope == NormalizedScope(m.phaseScope) && IsVerdict(rec.status)
    ensures CompleteConfirmationEvidence(rec, rec.phaseScope) <==> ConfirmationEvidence(rec, m)
  {
    hide ManifestShapeOk, NormalizeThresholds, ThresholdMap, NormalizedScope, ConfirmationRow, ConfirmationRowOk,
      CommandsComplete, ConfirmationCommands, ArtifactsNamed, ListsArtifacts, RowsCover, CoversRows, IsHex, IsLowerHex,
      RunOrderForStage, AggregateStatus, Rank;
    HexIs(rec.protocol.manifestSha256, 64);
    CommandsIff(rec.commands, m.candidate, rec.phaseScope);
    ArtifactsIff(rec);
    assert AsSet(rec.rawArtifacts) == set p | p in rec.rawArtifacts;
    CoversIff(rec.scenarioRows);
    ConfirmationRowsIff(rec.scenarioRows, m, r, rec.practicalThresholds);
    StatusIsHighest(rec.scenarioRows, rec.status);
  }

  /** Of any records at all, a full profile accepts exactly the proper confirmations. */
  lemma ConfirmationProperIff(rec: Record, m: Manifest, r: P0Reference, files: Surroundings)
    requires ManifestShapeOk(m, r)
    ensures ConfirmationAccepted(rec, m, files) <==> ConfirmationProper(rec, m, files)
  {
    hide ManifestShapeOk, NormalizedScope, NormalizeThresholds, Inherits, Repeats, CompleteConfirmationEvidence,
      ConfirmationEvidence;
    RepeatsIff(rec, m, r, files);
    RepeatedScope(rec, m, files);
    if Inherits(m, NormalizedScope(m.phaseScope), files, rec) && IsVerdict(rec.status) {
      ConfirmationEvidenceIff(rec, m, r);
    }
  }

  lemma SameThresholdsIff(m: Manifest, m0: Manifest, r: P0Reference)
    requires ManifestShapeOk(m, r) && ManifestShapeOk(m0, r)
    ensures NormalizeThresholds(m) == NormalizeThresholds(m0) <==>
      forall t :: t in m.practicalThresholds <==> t in m0.practicalThresholds
  {
    hide ManifestShapeOk, NormalizeThresholds, RowsInPlace;
    var ts := NormalThresholds(m, r);
    var ts0 := NormalThresholds(m0, r);
    RepeatedIffNormal(m, r, ts0);
  }

  lemma SameScopeIff(m: Manifest, m0: Manifest)
    ensures NormalizedScope(m.phaseScope) == NormalizedScope(m0.phaseScope) <==>
      forall p :: p in m.phaseScope <==> p in m0.phaseScope
  {
    hide NormalizedScope, InPlace;
    var phases, phases0 := NormalizedScope(m.phaseScope), NormalizedScope(m0.phaseScope);
    ScopeLists(m.phaseScope);
    ScopeLists(m0.phaseScope);
    forall p ensures (p in phases <==> p in m.phaseScope) && (p in phases0 <==> p in m0.phaseScope) {
      ScopeAre(m.phaseScope, p);
      ScopeAre(m0.phaseScope, p);
    }
    if forall p :: p in m.phaseScope <==> p in m0.phaseScope {
      var wanted := p => p in m.phaseScope;
      assert Lists(phases, wanted) && Lists(phases0, wanted);
      ListsAreEqual(phases, phases0, wanted);
    }
  }

  /** What inheriting from an earlier manifest asks, by the declarations themselves. */
  lemma InheritsFromIff(m: Manifest, m0: Manifest, r: P0Reference, files: Surroundings, files0: Surroundings)
    requires ManifestShapeOk(m, r) && ManifestShapeOk(m0, r)
    ensures InheritsFrom(m, files, m0, files0) <==>
      && m.candidate == m0.candidate && m.scopeRationale == m0.scopeRationale
      && (forall p :: p in m.phaseScope <==> p in m0.phaseScope)
      && (forall t :: t in m.practicalThresholds <==> t in m0.practicalThresholds)
      && files.protocolDocumentSha256 == files0.protocolDocumentSha256
      && files.benchmarkSourceSha256 == files0.benchmarkSourceSha256
      && files.p0ReferenceSha256 == files0.p0ReferenceSha256
  {
    hide ManifestShapeOk, NormalizeThresholds, NormalizedScope;
    SameThresholdsIff(m, m0, r);
    SameScopeIff(m, m0);
  }

  /** The record says of the manifest, the reference and the run's surroundings what they are. */
  lemma RecordRepeatsDeclarations(m: Manifest, r: P0Reference, files: Surroundings, world: World)
    requires ManifestShapeOk(m, r)
    ensures var rec := RecordOfRun(m, r, files, world);
      && rec.runId == files.runId && rec.stage == m.stage && rec.protocol.manifestSha256 == files.manifestSha256
      && Repeats(rec, m, files)
      && rec.screenRunId == m.screenRunId && rec.confirmationRunId == m.confirmationRunId
      && rec.profile == (if m.stage == FullProfile then Full else Pr) && rec.sampling == DeclaredSampling(m)
      && rec.plannedOrder == RunOrderForManifest(m)
      && Lists(rec.executionPhaseScope, p => Executes(m, p))
  {
    hide RecordOf, ManifestShapeOk, Admit, FinalState, NormalizeThresholds, Repeats, RunOrderForManifest,
      NormalizedScope, Lists, DeclaredSampling;
    var a, rec := Admit(m, r, files), RecordOfRun(m, r, files, world);
    AdmittedMethod(m, r, files);
    AdmittedScopes(m, r, files);
    AdmittedFrom(m, r, files);
    RepeatsIff(rec, m, r, files);
    RecordWritten(m, r, files, FinalState(a, world));
    RecordFields(a, FinalState(a, world), rec);
  }

  lemma AdmittedFrom(m: Manifest, r: P0Reference, files: Surroundings)
    requires ManifestShapeOk(m, r)
    ensures var a := Admit(m, r, files);
      a.reference == r && r.p0Commit == P0_COMMIT && a.files == files && a.phaseScope == NormalizedScope(m.phaseScope)
  {
    hide NormalizedScope;
  }

  lemma RecordFields(a: Admission, st: RunState, rec: Record)
    requires RecordOf(a, st) == Success(rec)
    ensures rec.runId == a.files.runId && rec.stage == a.manifest.stage && rec.candidate == a.manifest.candidate
    ensures rec.profile == a.profile && rec.sampling == a.sampling
    ensures rec.plannedOrder == RunOrderForManifest(a.manifest)
    ensures rec.phaseScope == a.phaseScope && rec.executionPhaseScope == a.executionPhaseScope
    ensures rec.scopeRationale == a.manifest.scopeRationale
    ensures rec.screenRunId == a.manifest.screenRunId && rec.confirmationRunId == a.manifest.confirmationRunId
    ensures NormalizeThresholds(a.manifest) == Success(rec.practicalThresholds)
    ensures rec.protocol == Protocol(a.reference.p0Commit, a.files.p0ReferenceSha256, a.files.protocolDocumentSha256,
                                     a.files.benchmarkSourceSha256, a.files.manifestSha256)
  {
    hide BuildOutcomeRows, NormalizeThresholds, CommandOf, ArtifactIndex, ProcessFailures, AggregateStatus,
      RunOrderForManifest, Escalation;
  }
}
