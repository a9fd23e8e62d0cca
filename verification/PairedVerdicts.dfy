/** What the outcome rows and the aggregate status of a paired run mean, over every run of an admitted manifest. */
module PairedVerdicts {
  import opened Wrappers
  import opened StableSort
  import opened Json
  import opened StableJson
  import opened PairedProtocol
  import opened PairedRun
  import opened PairedRunLaws

  // ---------------------------------------------------- runs of an admission

  lemma OrdersArePaired(m: Manifest)
    ensures PairedOrder(RunOrderForManifest(m))
    ensures |RunOrderForManifest(m)| == if m.stage == Screen ||
      (m.stage == FullProfile && m.candidate.kind == SelfComparison) then 2 else 6
  {
  }

  /** Pairs run one after the other; the first starts with the baseline, and each next one the other way round. */
  lemma RunOrderAlternates(m: Manifest)
    ensures var order := RunOrderForManifest(m);
      && (|order| == 2 <==> m.stage == Screen || (m.stage == FullProfile && m.candidate.kind == SelfComparison))
      && (|order| == 2 || |order| == 6)
      && (forall i :: 0 <= i < |order| ==> order[i].0 == i / 2 + 1)
      && (forall p :: 0 <= 2 * p < |order| ==>
           && order[2 * p].1 == (if p % 2 == 0 then Baseline else Candidate)
           && order[2 * p + 1].1 == (if p % 2 == 0 then Candidate else Baseline))
  {
  }

  lemma AdmittedScopeDistinct(m: Manifest, r: P0Reference, files: Surroundings)
    ensures Distinct(Admit(m, r, files).executionPhaseScope)
  {
    ScopeDistinct(m.phaseScope);
    PhaseNamesDistinct();
  }

  /** Every planned process is clean: see `CleanStep`. */
  predicate CleanRun(a: Admission, world: World) {
    var order := RunOrderForManifest(a.manifest);
    CleanUpTo(a, order, world, |order|)
  }

  /** A run goes through without stopping exactly when what its processes do is clean; its state is then known. */
  lemma GoesThroughIffClean(m: Manifest, r: P0Reference, files: Surroundings, world: World)
    ensures var a, order := Admit(m, r, files), RunOrderForManifest(m);
      var st := FinalState(a, world);
      (!Stopped(st) <==> CleanRun(a, world)) && (!Stopped(st) ==> Tracks(a, order, world, |order|, st))
  {
    hide CleanUpTo, Stopped, Tracks, StateAfter;
    OrdersArePaired(m);
    AdmittedScopeDistinct(m, r, files);
    CleanStates(Admit(m, r, files), RunOrderForManifest(m), world, |RunOrderForManifest(m)|);
  }

  /** The run executes the planned order up to and including its first process that is not clean. */
  lemma RunsToFirstFault(m: Manifest, r: P0Reference, files: Surroundings, world: World)
    ensures var a, order := Admit(m, r, files), RunOrderForManifest(m);
      var st := FinalState(a, world);
      var t := |st.runs|;
      && 0 < t <= |order| && st.runs == RunsUpTo(order, world, t)
      && CleanUpTo(a, order, world, t - 1) && (Stopped(st) <==> !CleanStep(a, order, world, t - 1))
      && (!Stopped(st) ==> t == |order|)
  {
    OrdersArePaired(m);
    AdmittedScopeDistinct(m, r, files);
    hide CleanUpTo, CleanStep, Stopped, StateAfter, Admit, RunOrderForManifest, PairedOrder, Distinct, Tracks;
    var a, order := Admit(m, r, files), RunOrderForManifest(m);
    FinalOf(m, r, files, world);
    FirstFault(a, order, world);
  }

  lemma FinalOf(m: Manifest, r: P0Reference, files: Surroundings, world: World)
    ensures FinalState(Admit(m, r, files), world) ==
      StateAfter(Admit(m, r, files), RunOrderForManifest(m), world, |RunOrderForManifest(m)|)
  {
    hide StateAfter;
  }

  lemma FirstFault(a: Admission, order: seq<PlannedItem>, world: World)
    requires PairedOrder(order) && Distinct(a.executionPhaseScope) && order != []
    ensures var st := StateAfter(a, order, world, |order|);
      var t := |st.runs|;
      && 0 < t <= |order| && st.runs == RunsUpTo(order, world, t)
      && CleanUpTo(a, order, world, t - 1) && (Stopped(st) <==> !CleanStep(a, order, world, t - 1))
      && (!Stopped(st) ==> t == |order|)
  {
    hide CleanStep, Stopped, StateAfter, PairedOrder, Distinct, Tracks;
    ExecutedIsPlannedPrefix(a, order, world, |order|);
    var t := |StateAfter(a, order, world, |order|).runs|;
    CleanStates(a, order, world, t);
    if t == 0 {
      StartIsNotStopped(a, order, world);
    } else {
      CleanStates(a, order, world, t - 1);
      CleanExtends(a, order, world, t - 1);
    }
  }

  lemma CleanExtends(a: Admission, order: seq<PlannedItem>, world: World, n: nat)
    requires n < |order|
    ensures CleanUpTo(a, order, world, n + 1) <==> CleanUpTo(a, order, world, n) && CleanStep(a, order, world, n)
  {
    hide CleanStep;
  }

  lemma StartIsNotStopped(a: Admission, order: seq<PlannedItem>, world: World)
    ensures !Stopped(StateAfter(a, order, world, 0))
  {
  }

  // ------------------------------------------------- classifying three deltas

  predicate ExceedsBoth(delta: real, threshold: real, p0Range: real) {
    Abs(delta) > threshold && Abs(delta) > p0Range
  }

  /** At least two of the three magnitudes exceed both guardrails. */
  predicate TwoExceed(d: seq<real>, threshold: real, p0Range: real)
    requires |d| == 3
  {
    var x, y, z := ExceedsBoth(d[0], threshold, p0Range), ExceedsBoth(d[1], threshold, p0Range),
      ExceedsBoth(d[2], threshold, p0Range);
    (x && y) || (y && z) || (x && z)
  }

  lemma SortedThree(x: real, y: real, z: real)
    ensures var s := SortedReals([x, y, z]); |s| == 3 && s[0] <= s[1] <= s[2] && multiset(s) == multiset{x, y, z}
  {
    var le := (p: real, q: real) => p <= q;
    SortByIsSorted([x, y, z], le);
    assert multiset([x, y, z]) == multiset{x, y, z};
    assert SortedReals([x, y, z]) == SortBy([x, y, z], le) by { SameOrder([x, y, z], le); }
    var s := SortBy([x, y, z], le);
    assert le(s[0], s[1]) && le(s[1], s[2]);
  }

  lemma SameOrder(s: seq<real>, le: (real, real) -> bool)
    requires forall x, y :: le(x, y) <==> x <= y
    ensures SortBy(s, le) == SortedReals(s)
  {
    var le' := (x: real, y: real) => x <= y;
    SortCommutesWithMap(s, (x: real) => x, le', le);
    assert Map(s, (x: real) => x) == s;
    assert Map(SortBy(s, le'), (x: real) => x) == SortBy(s, le');
    assert SortedReals(s) == SortBy(s, le');
  }

  /** The median of three exceeds a bound exactly when at least two of them do. */
  lemma MedianOfThree(x: real, y: real, z: real, bound: real)
    ensures Median([x, y, z]) > bound <==>
      (x > bound && y > bound) || (y > bound && z > bound) || (x > bound && z > bound)
  {
    hide SortedReals;
    SortedThree(x, y, z);
    var s := SortedReals([x, y, z]);
    assert s == [s[0], s[1], s[2]];
    MiddleOfThree(s[0], s[1], s[2], x, y, z);
  }

  lemma MiddleOfThree(u: real, v: real, w: real, x: real, y: real, z: real)
    requires u <= v <= w && multiset{u, v, w} == multiset{x, y, z}
    ensures (u == x && v == y && w == z) || (u == x && v == z && w == y) || (u == y && v == x && w == z)
      || (u == y && v == z && w == x) || (u == z && v == x && w == y) || (u == z && v == y && w == x)
  {
    assert u in multiset{x, y, z} && v in multiset{x, y, z} && w in multiset{x, y, z};
    if u == x {
      assert multiset{u, v, w} - multiset{x} == multiset{v, w} && multiset{x, y, z} - multiset{x} == multiset{y, z};
      assert v in multiset{y, z};
    }
  }

  predicate AllNegative(d: seq<real>) {
    forall i :: 0 <= i < |d| ==> d[i] < 0.0
  }

  predicate AllPositive(d: seq<real>) {
    forall i :: 0 <= i < |d| ==> d[i] > 0.0
  }

  /**
   * A confirmation row signals exactly when all three deltas point one way and at least two of them exceed both
   * guardrails.
   */
  lemma ClassifiedIff(d: seq<real>, threshold: real, p0Range: real)
    ensures var s := ClassifyConfirmationRow(d, threshold, p0Range);
      && (s == RepeatableSignal <==> |d| == 3 && AllNegative(d) && TwoExceed(d, threshold, p0Range))
      && (s == AdverseSignal <==> |d| == 3 && AllPositive(d) && TwoExceed(d, threshold, p0Range))
      && (s == RepeatableSignal || s == AdverseSignal || s == NeutralOrInconclusive)
  {
    hide Median;
    if |d| == 3 {
      var magnitudes := Map(d, Abs);
      assert magnitudes == [Abs(d[0]), Abs(d[1]), Abs(d[2])];
      MedianOfThree(Abs(d[0]), Abs(d[1]), Abs(d[2]), threshold);
      MedianOfThree(Abs(d[0]), Abs(d[1]), Abs(d[2]), p0Range);
    }
  }

  function Negate(x: real): real {
    -x
  }

  function Opposite(s: Status): Status {
    if s == RepeatableSignal then AdverseSignal else if s == AdverseSignal then RepeatableSignal else s
  }

  /** Swapping baseline and candidate swaps the verdict; the order of the pairs does not matter. */
  lemma ClassificationSymmetry(d: seq<real>, e: seq<real>, threshold: real, p0Range: real)
    ensures ClassifyConfirmationRow(Map(d, Negate), threshold, p0Range) ==
      Opposite(ClassifyConfirmationRow(d, threshold, p0Range))
    ensures multiset(d) == multiset(e) ==>
      ClassifyConfirmationRow(d, threshold, p0Range) == ClassifyConfirmationRow(e, threshold, p0Range)
  {
    hide ClassifyConfirmationRow;
    NegationFlips(d, threshold, p0Range);
    if multiset(d) == multiset(e) {
      PermutationKeeps(d, e, threshold, p0Range);
    }
  }

  lemma NegationFlips(d: seq<real>, threshold: real, p0Range: real)
    ensures ClassifyConfirmationRow(Map(d, Negate), threshold, p0Range) ==
      Opposite(ClassifyConfirmationRow(d, threshold, p0Range))
  {
    hide Median;
    var e := Map(d, Negate);
    if |d| == 3 {
      assert Map(e, Abs) == Map(d, Abs);
      assert AllNegative(e) <==> AllPositive(d) by {
        assert forall i :: 0 <= i < 3 ==> e[i] == -d[i];
      }
      assert AllPositive(e) <==> AllNegative(d) by {
        assert forall i :: 0 <= i < 3 ==> e[i] == -d[i];
      }
      assert !(AllPositive(d) && AllNegative(d)) by {
        if AllPositive(d) {
          assert d[0] > 0.0;
        }
      }
    }
  }

  lemma PermutationKeeps(d: seq<real>, e: seq<real>, threshold: real, p0Range: real)
    requires multiset(d) == multiset(e)
    ensures ClassifyConfirmationRow(d, threshold, p0Range) == ClassifyConfirmationRow(e, threshold, p0Range)
  {
    SameElements(d, e);
    if |d| == 3 {
      MapMultiset(d, e, Abs);
      SameMedian(Map(d, Abs), Map(e, Abs));
      assert AllNegative(d) == AllNegative(e) by { SignsKeep(d, e); }
      assert AllPositive(d) == AllPositive(e) by { SignsKeep(d, e); }
      hide Median;
    }
  }

  lemma ElementwiseKept(d: seq<real>, e: seq<real>, i: nat)
    requires multiset(d) == multiset(e) && i < |d|
    ensures exists j :: 0 <= j < |e| && e[j] == d[i]
  {
    assert multiset(d)[d[i]] > 0;
    assert d[i] in multiset(e);
    assert d[i] in e;
  }

  lemma SignsKeep(d: seq<real>, e: seq<real>)
    requires multiset(d) == multiset(e)
    ensures AllNegative(d) == AllNegative(e) && AllPositive(d) == AllPositive(e)
  {
    forall i | 0 <= i < |d| ensures exists j :: 0 <= j < |e| && e[j] == d[i] {
      ElementwiseKept(d, e, i);
    }
    forall i | 0 <= i < |e| ensures exists j :: 0 <= j < |d| && d[j] == e[i] {
      ElementwiseKept(e, d, i);
    }
  }

  lemma SameMedian(s: seq<real>, t: seq<real>)
    requires multiset(s) == multiset(t) && s != [] && t != []
    ensures Median(s) == Median(t)
  {
    var le := (p: real, q: real) => p <= q;
    SortForgetsOrder(s, t, le);
    SameOrder(s, le);
    SameOrder(t, le);
    SameElements(s, t);
  }

  // -------------------------------------------------------------- outcome rows

  lemma {:induction false} RowsBuilt(a: Admission, st: RunState, keys: seq<RowKey>)
    requires forall i :: 0 <= i < |keys| ==> keys[i] in a.p0ByRow
    ensures var rows := BuildRows(a, st, keys);
      rows.Success? && |rows.value| == |keys| &&
      forall i :: 0 <= i < |keys| ==> rows.value[i] == BuildRow(a, st, keys[i], a.p0ByRow[keys[i]])
  {
    hide BuildRow;
    if keys != [] {
      RowsBuilt(a, st, keys[1..]);
    }
  }

  /** An admitted run always gets its 42 rows, one for each phase and scenario, in order. */
  lemma AdmittedRowsBuilt(m: Manifest, r: P0Reference, files: Surroundings, st: RunState)
    requires ManifestShapeOk(m, r)
    ensures var a := Admit(m, r, files);
      var rows := BuildOutcomeRows(a, st);
      && rows.Success? && |rows.value| == |AllRowKeys()| == 42
      && forall i :: 0 <= i < 42 ==>
        AllRowKeys()[i] in a.p0ByRow && rows.value[i] == BuildRow(a, st, AllRowKeys()[i], a.p0ByRow[AllRowKeys()[i]])
  {
    hide BuildRow, ManifestShapeOk, Admit, RowKeysOf;
    var a := Admit(m, r, files);
    forall i | 0 <= i < |AllRowKeys()| ensures AllRowKeys()[i] in a.p0ByRow {
      AdmittedRowsHaveData(m, r, files, AllRowKeys()[i]);
    }
    PhaseNamesDistinct();
    RowsBuilt(a, st, AllRowKeys());
  }

  predicate IsVerdict(s: Status) {
    s == RepeatableSignal || s == AdverseSignal || s == NeutralOrInconclusive
  }

  /** Three deltas between the reports of a run's pairs for one row, in pair order. */
  predicate HasDeltas(ds: seq<PairDelta>, a: Admission, world: World, k: RowKey)
    requires |RunOrderForManifest(a.manifest)| == 6
  {
    DeltasAre(ds, RunOrderForManifest(a.manifest), world, k, 3)
  }

  /** The row's three pairs all point one way, and two of their magnitudes exceed the threshold and the P0 range. */
  ghost predicate Signals(a: Admission, world: World, k: RowKey, direction: Direction) {
    |RunOrderForManifest(a.manifest)| == 6 && k in a.thresholdByRow && k in a.p0ByRow &&
    exists ds: seq<PairDelta> :: HasDeltas(ds, a, world, k) &&
      (forall i :: 0 <= i < 3 ==> ds[i].direction == direction) &&
      TwoExceed(Map(ds, DeltaMs), a.thresholdByRow[k], a.p0ByRow[k])
  }

  lemma HasDeltasUnique(ds: seq<PairDelta>, es: seq<PairDelta>, a: Admission, world: World, k: RowKey)
    requires |RunOrderForManifest(a.manifest)| == 6 && HasDeltas(ds, a, world, k) && HasDeltas(es, a, world, k)
    ensures ds == es
  {
    hide RunOrderForManifest, RowMap, ShowsDelta;
    var order := RunOrderForManifest(a.manifest);
    forall p | 0 <= p < 3 ensures ds[p] == es[p] {
      SameDelta(ds[p], es[p], RunAt(order, world, 2 * p), RunAt(order, world, 2 * p + 1), k, p + 1);
    }
  }

  lemma SameDelta(d: PairDelta, e: PairDelta, x: ProcessRun, y: ProcessRun, k: RowKey, p: nat)
    requires IsDelta(d, x, y, k, p) && IsDelta(e, x, y, k, p)
    ensures d == e
  {
    hide ShowsDelta, RowMap;
    var b, c := BaselineOf(x, y), CandidateOf(x, y);
    DeltaIsShown(d, p, RowMap(b.file.report.results)[k], RowMap(c.file.report.results)[k]);
    DeltaIsShown(e, p, RowMap(b.file.report.results)[k], RowMap(c.file.report.results)[k]);
  }

  // ------------------------------------------------------------------ verdicts

  /** A run that stopped gives no row a verdict. */
  lemma StoppedRow(a: Admission, st: RunState, k: RowKey, p0Range: real)
    requires Stopped(st)
    ensures !IsVerdict(BuildRow(a, st, k, p0Range).status)
    ensures BuildRow(a, st, k, p0Range).status == SemanticMismatch <==>
      k.0 in a.executionPhaseScope && (k in st.mismatchRows || k in st.internalMismatchRows)
  {
  }

  /** The row of a run that went through. */
  predicate GoneThroughRow(a: Admission, st: RunState, k: RowKey, row: OutcomeRow) {
    var pairs := DeltasOf(st.pairDeltas, k);
    var declared := k.0 in a.executionPhaseScope && pairs != [] && a.manifest.candidate.kind == RealCandidate &&
      k.0 in a.phaseScope;
    if !declared then row.status == NotMeasured
    else if a.manifest.stage != Confirmation then row.status == NeutralOrInconclusive
    else row.status == ClassifyConfirmationRow(Map(pairs, DeltaMs),
      if k in a.thresholdByRow then a.thresholdByRow[k] else 0.0, row.p0RangeMs)
  }

  lemma RowGoneThrough(a: Admission, st: RunState, k: RowKey, p0Range: real)
    requires !Stopped(st)
    ensures var row := BuildRow(a, st, k, p0Range); row.p0RangeMs == p0Range && GoneThroughRow(a, st, k, row)
  {
    hide ClassifyConfirmationRow;
  }

  lemma DirectionsOf(ds: seq<PairDelta>, a: Admission, world: World, k: RowKey)
    requires |RunOrderForManifest(a.manifest)| == 6 && HasDeltas(ds, a, world, k)
    ensures AllNegative(Map(ds, DeltaMs)) <==> forall i :: 0 <= i < 3 ==> ds[i].direction == Favorable
    ensures AllPositive(Map(ds, DeltaMs)) <==> forall i :: 0 <= i < 3 ==> ds[i].direction == Adverse
  {
    forall i | 0 <= i < 3
      ensures Map(ds, DeltaMs)[i] == ds[i].deltaMs
      ensures (ds[i].deltaMs < 0.0 <==> ds[i].direction == Favorable) &&
        (ds[i].deltaMs > 0.0 <==> ds[i].direction == Adverse)
    {
      DirectionOf(ds[i], RunAt(RunOrderForManifest(a.manifest), world, 2 * i),
        RunAt(RunOrderForManifest(a.manifest), world, 2 * i + 1), k, i + 1);
    }
    hide IsDelta, RunOrderForManifest;
  }

  lemma DirectionOf(d: PairDelta, x: ProcessRun, y: ProcessRun, k: RowKey, p: nat)
    requires IsDelta(d, x, y, k, p)
    ensures (d.deltaMs < 0.0 <==> d.direction == Favorable) && (d.deltaMs > 0.0 <==> d.direction == Adverse)
  {
    hide RowMap;
  }

  lemma SignalsOf(ds: seq<PairDelta>, a: Admission, world: World, k: RowKey)
    requires |RunOrderForManifest(a.manifest)| == 6 && HasDeltas(ds, a, world, k) && k in a.thresholdByRow &&
      k in a.p0ByRow
    ensures var d, t, p := Map(ds, DeltaMs), a.thresholdByRow[k], a.p0ByRow[k];
      && (Signals(a, world, k, Favorable) <==> AllNegative(d) && TwoExceed(d, t, p))
      && (Signals(a, world, k, Adverse) <==> AllPositive(d) && TwoExceed(d, t, p))
  {
    hide TwoExceed, RunOrderForManifest, DeltasAre;
    DirectionsOf(ds, a, world, k);
    forall es: seq<PairDelta> | HasDeltas(es, a, world, k) ensures es == ds {
      HasDeltasUnique(ds, es, a, world, k);
    }
  }

  lemma ConfirmationRow(a: Admission, st: RunState, world: World, k: RowKey)
    requires k in a.thresholdByRow && k in a.p0ByRow && k.0 in a.executionPhaseScope && k.0 in a.phaseScope
    requires a.manifest.candidate.kind == RealCandidate && a.manifest.stage == Confirmation
    requires |RunOrderForManifest(a.manifest)| == 6 && Tracks(a, RunOrderForManifest(a.manifest), world, 6, st)
    ensures var status := BuildRow(a, st, k, a.p0ByRow[k]).status;
      && (status == RepeatableSignal <==> Signals(a, world, k, Favorable))
      && (status == AdverseSignal <==> Signals(a, world, k, Adverse))
      && IsVerdict(status)
  {
    var ds := DeltasOf(st.pairDeltas, k);
    assert DeltasTracked(a, RunOrderForManifest(a.manifest), world, 6, st, k);
    assert HasDeltas(ds, a, world, k);
    hide BuildRow, ClassifyConfirmationRow, Signals, TwoExceed, HasDeltas, DeltasAre, RunOrderForManifest, CleanUpTo,
      FirstTracked;
    RowGoneThrough(a, st, k, a.p0ByRow[k]);
    SignalsOf(ds, a, world, k);
    ClassifiedIff(Map(ds, DeltaMs), a.thresholdByRow[k], a.p0ByRow[k]);
  }

  /** When a row of an admitted manifest signals: every part of the condition is about the manifest and the reports. */
  lemma VerdictIff(m: Manifest, r: P0Reference, files: Surroundings, world: World, k: RowKey)
    requires ManifestShapeOk(m, r)
    ensures var a := Admit(m, r, files);
      && k in a.p0ByRow
      && var status := BuildRow(a, FinalState(a, world), k, a.p0ByRow[k]).status;
      var open := m.stage == Confirmation && k.0 in m.phaseScope && CleanRun(a, world);
      && (status == RepeatableSignal <==> open && Signals(a, world, k, Favorable))
      && (status == AdverseSignal <==> open && Signals(a, world, k, Adverse))
  {
    hide ManifestShapeOk, CleanRun, Stopped, BuildRow, Signals, FinalState, RunOrderForManifest, PairedOrder, Admit,
      Tracks, ClassifyConfirmationRow, PairedAt, MismatchSeen;
    var a := Admit(m, r, files);
    VerdictsNeedRealCandidates(m, r, files, k);
    OrdersArePaired(m);
    AdmittedRowsHaveData(m, r, files, k);
    GoesThroughIffClean(m, r, files, world);
    var st := FinalState(a, world);
    if Stopped(st) {
      StoppedRow(a, st, k, a.p0ByRow[k]);
    } else if m.stage == Confirmation && k.0 in m.phaseScope {
      ConfirmationRow(a, st, world, k);
    } else {
      RowGoneThrough(a, st, k, a.p0ByRow[k]);
    }
  }

  lemma VerdictsNeedRealCandidates(m: Manifest, r: P0Reference, files: Surroundings, k: RowKey)
    requires ManifestShapeOk(m, r)
    ensures Admit(m, r, files).manifest == m && (m.stage == Confirmation ==> m.candidate.kind == RealCandidate)
    ensures k.0 in Admit(m, r, files).phaseScope <==> k.0 in m.phaseScope
  {
    hide P0ReferenceOk, ThresholdsOk, NormalizedScope, RunIdsOk;
    ScopeAre(m.phaseScope, k.0);
  }

  /** A complete run: every planned process ran, in order, was fine, and reported the first one's sinks. */
  predicate CompleteRun(a: Admission, world: World, runs: seq<ProcessRun>) {
    var order := RunOrderForManifest(a.manifest);
    && |runs| == |order| && order != [] && runs == RunsUpTo(order, world, |order|)
    && forall j :: 0 <= j < |runs| ==> FineRun(a, runs[j]) && AgreesWith(runs[0], runs[j])
  }

  lemma CleanIsComplete(m: Manifest, r: P0Reference, files: Surroundings, world: World)
    requires CleanRun(Admit(m, r, files), world)
    ensures CompleteRun(Admit(m, r, files), world, FinalState(Admit(m, r, files), world).runs)
  {
    assert Admit(m, r, files).manifest == m;
    hide CompleteRun, FinalState, CleanUpTo, FirstTracked, RunOrderForManifest, Admit, PairedAt, DeltasTracked, Stopped;
    OrdersArePaired(m);
    GoesThroughIffClean(m, r, files, world);
    CleanRunsAreComplete(Admit(m, r, files), world);
  }

  lemma CleanRunsAreComplete(a: Admission, world: World)
    requires CleanRun(a, world) && RunOrderForManifest(a.manifest) != []
    ensures var order := RunOrderForManifest(a.manifest); CompleteRun(a, world, RunsUpTo(order, world, |order|))
  {
    hide FineRun, AgreesWith, CleanUpTo, RunOrderForManifest;
    var order := RunOrderForManifest(a.manifest);
    var runs := RunsUpTo(order, world, |order|);
    forall j | 0 <= j < |runs| ensures FineRun(a, runs[j]) && AgreesWith(runs[0], runs[j]) {
      CleanOne(a, order, world, j);
    }
  }

  lemma CleanOne(a: Admission, order: seq<PlannedItem>, world: World, j: nat)
    requires j < |order| && CleanUpTo(a, order, world, |order|)
    ensures FineRun(a, RunAt(order, world, j)) && AgreesWith(RunAt(order, world, 0), RunAt(order, world, j))
  {
    hide FineRun, AgreesWith, PairedAt;
    assert CleanStep(a, order, world, j);
  }

  /** A signal is only ever given by a confirmation of a real candidate whose six processes all completed and agreed. */
  lemma SignalMeansCompleteRun(m: Manifest, r: P0Reference, files: Surroundings, world: World, k: RowKey)
    requires ManifestShapeOk(m, r) && k in Admit(m, r, files).p0ByRow
    requires var a := Admit(m, r, files);
      var status := BuildRow(a, FinalState(a, world), k, a.p0ByRow[k]).status;
      status == RepeatableSignal || status == AdverseSignal
    ensures var a := Admit(m, r, files);
      && m.stage == Confirmation && m.candidate.kind == RealCandidate && k.0 in m.phaseScope
      && |FinalState(a, world).runs| == 6 && CompleteRun(a, world, FinalState(a, world).runs)
  {
    OrdersArePaired(m);
    assert m.stage == Confirmation ==> m.candidate.kind == RealCandidate;
    hide CompleteRun, CleanRun, FinalState, BuildRow, Signals, RunOrderForManifest, Admit, PairedOrder, ManifestShapeOk;
    VerdictIff(m, r, files, world, k);
    CleanIsComplete(m, r, files, world);
    CompleteLength(m, r, files, world);
  }

  predicate HasRow(rows: seq<ResultRow>, k: RowKey) {
    exists i :: 0 <= i < |rows| && ResultKey(rows[i]) == k
  }

  /** Both reports have the row, with the smaller mean in `xs`. */
  predicate FasterIn(xs: seq<ResultRow>, ys: seq<ResultRow>, k: RowKey) {
    && HasRow(xs, k) && HasRow(ys, k)
    && forall i, j :: 0 <= i < |xs| && 0 <= j < |ys| && ResultKey(xs[i]) == k && ResultKey(ys[j]) == k ==>
         xs[i].stats.meanMs < ys[j].stats.meanMs
  }

  /** In every pair of processes, the one in condition `winner` was the faster on the row. */
  predicate FasterInEveryPair(runs: seq<ProcessRun>, k: RowKey, winner: Condition) {
    forall i, j ::
      (0 <= i < |runs| && 0 <= j < |runs| && runs[i].pairIndex == runs[j].pairIndex &&
       runs[i].condition == winner && runs[j].condition != winner) ==>
        && runs[i].file.Parsed? && runs[j].file.Parsed?
        && FasterIn(runs[i].file.report.results, runs[j].file.report.results, k)
  }

  lemma RowOfMap(a: Admission, run: ProcessRun, k: RowKey)
    requires FineRun(a, run) && k in RowMap(run.file.report.results)
    ensures HasRow(run.file.report.results, k)
    ensures forall i :: 0 <= i < |run.file.report.results| && ResultKey(run.file.report.results[i]) == k ==>
      run.file.report.results[i] == RowMap(run.file.report.results)[k]
  {
    FineCoversScope(a, run, k);
    hide FineRun, RowMap;
    var rows := run.file.report.results;
    RowMapHas(rows, k);
    var n :| 0 <= n < |rows| && rows[n] == RowMap(rows)[k] && ResultKey(rows[n]) == k;
    forall i | 0 <= i < |rows| && ResultKey(rows[i]) == k ensures i == n {
      assert Map(rows, ResultKey)[i] == Map(rows, ResultKey)[n];
    }
  }

  lemma DeltaMeansFaster(a: Admission, d: PairDelta, x: ProcessRun, y: ProcessRun, k: RowKey, p: nat)
    requires x.condition == Baseline && y.condition == Candidate
    requires IsDelta(d, x, y, k, p) || IsDelta(d, y, x, k, p)
    requires FineRun(a, x) && FineRun(a, y)
    ensures d.direction == Favorable ==> FasterIn(y.file.report.results, x.file.report.results, k)
    ensures d.direction == Adverse ==> FasterIn(x.file.report.results, y.file.report.results, k)
  {
    RowOfMap(a, x, k);
    RowOfMap(a, y, k);
    var bs, cs := RowMap(x.file.report.results), RowMap(y.file.report.results);
    RoundingKeepsSign(cs[k].stats.meanMs - bs[k].stats.meanMs, d.deltaMs);
    hide FineRun, RowMap, HasRow, IsRounded9;
  }

  lemma RoundingKeepsSign(x: real, r: real)
    ensures IsRounded9(x, r) ==> (r < 0.0 ==> x < 0.0) && (0.0 < r ==> 0.0 < x)
  {
  }

  lemma SignalPairs(a: Admission, world: World, k: RowKey, direction: Direction, runs: seq<ProcessRun>)
    requires Signals(a, world, k, direction) && CompleteRun(a, world, runs)
    requires PairedOrder(RunOrderForManifest(a.manifest))
    ensures direction == Favorable ==> FasterInEveryPair(runs, k, Candidate)
    ensures direction == Adverse ==> FasterInEveryPair(runs, k, Baseline)
  {
    hide FasterIn, FineRun, AgreesWith, IsDelta, RunOrderForManifest;
    var order := RunOrderForManifest(a.manifest);
    var ds: seq<PairDelta> :| HasDeltas(ds, a, world, k) && forall i :: 0 <= i < 3 ==> ds[i].direction == direction;
    forall i, j | 0 <= i < |runs| && 0 <= j < |runs| && runs[i].pairIndex == runs[j].pairIndex &&
      runs[i].condition == Baseline && runs[j].condition == Candidate
      ensures runs[i].file.Parsed? && runs[j].file.Parsed?
      ensures direction == Favorable ==> FasterIn(runs[j].file.report.results, runs[i].file.report.results, k)
      ensures direction == Adverse ==> FasterIn(runs[i].file.report.results, runs[j].file.report.results, k)
    {
      var p := i / 2;
      assert order[i].0 == i / 2 + 1 && order[j].0 == j / 2 + 1;
      assert IsDelta(ds[p], RunAt(order, world, 2 * p), RunAt(order, world, 2 * p + 1), k, p + 1);
      assert FineRun(a, runs[i]) && FineRun(a, runs[j]);
      FineIsParsed(a, runs[i]);
      FineIsParsed(a, runs[j]);
      DeltaMeansFaster(a, ds[p], runs[i], runs[j], k, p + 1);
    }
  }

  lemma FineIsParsed(a: Admission, run: ProcessRun)
    requires FineRun(a, run)
    ensures run.file.Parsed?
  {
  }

  /** A repeatable signal means that the candidate was faster in all three pairs, an adverse one that it was slower. */
  lemma SignalMeansFaster(m: Manifest, r: P0Reference, files: Surroundings, world: World, k: RowKey)
    requires ManifestShapeOk(m, r)
    ensures var a := Admit(m, r, files);
      && k in a.p0ByRow
      && var status := BuildRow(a, FinalState(a, world), k, a.p0ByRow[k]).status;
      && (status == RepeatableSignal ==> FasterInEveryPair(FinalState(a, world).runs, k, Candidate))
      && (status == AdverseSignal ==> FasterInEveryPair(FinalState(a, world).runs, k, Baseline))
  {
    OrdersArePaired(m);
    assert Admit(m, r, files).manifest == m;
    hide CompleteRun, CleanRun, FinalState, BuildRow, Signals, RunOrderForManifest, Admit, PairedOrder, ManifestShapeOk,
      FasterInEveryPair;
    var a := Admit(m, r, files);
    VerdictIff(m, r, files, world, k);
    if CleanRun(a, world) {
      CleanIsComplete(m, r, files, world);
      var runs := FinalState(a, world).runs;
      if Signals(a, world, k, Favorable) {
        SignalPairs(a, world, k, Favorable, runs);
      }
      if Signals(a, world, k, Adverse) {
        SignalPairs(a, world, k, Adverse, runs);
      }
    }
  }

  lemma CompleteLength(m: Manifest, r: P0Reference, files: Surroundings, world: World)
    requires CompleteRun(Admit(m, r, files), world, FinalState(Admit(m, r, files), world).runs)
    ensures |FinalState(Admit(m, r, files), world).runs| == |RunOrderForManifest(m)|
  {
    hide FinalState, FineRun, AgreesWith;
  }

  /** In a complete run each executed row was reported by every process, with sinks equal up to member order. */
  lemma CompleteRunsAgree(a: Admission, world: World, runs: seq<ProcessRun>, j: nat, k: RowKey)
    requires CompleteRun(a, world, runs) && j < |runs| && k.0 in a.executionPhaseScope
    ensures runs[0].file.Parsed? && runs[j].file.Parsed?
    ensures var first, other := RowMap(runs[0].file.report.results), RowMap(runs[j].file.report.results);
      && k in first && k in other && SameSerialized(first[k].semanticSink, other[k].semanticSink)
      && (WellFormed(first[k].semanticSink) && WellFormed(other[k].semanticSink) ==>
        Equiv(first[k].semanticSink, other[k].semanticSink))
  {
    assert FineRun(a, runs[0]) && FineRun(a, runs[j]) && AgreesWith(runs[0], runs[j]);
    hide CompleteRun, RawReportOk, RowMap, StableEnvironment, StableSerialize;
    ParsedWhenOk(runs[0], a);
    ParsedWhenOk(runs[j], a);
    FineCoversScope(a, runs[0], k);
    FineCoversScope(a, runs[j], k);
    var xs, ys := runs[0].file.report.results, runs[j].file.report.results;
    RowMapHas(xs, k);
    RowMapHas(ys, k);
    var x :| 0 <= x < |xs| && xs[x] == RowMap(xs)[k] && ResultKey(xs[x]) == k;
    var y :| 0 <= y < |ys| && ys[y] == RowMap(ys)[k] && ResultKey(ys[y]) == k;
    assert SameSerialized(xs[x].semanticSink, ys[y].semanticSink);
    if WellFormed(xs[x].semanticSink) && WellFormed(ys[y].semanticSink) {
      StableSerializeIdentifies(xs[x].semanticSink, ys[y].semanticSink);
    }
  }

  // ----------------------------------------------------------- the aggregate

  function Rank(s: Status): nat {
    match s
    case NotMeasured => 0
    case NeutralOrInconclusive => 1
    case RepeatableSignal => 2
    case AdverseSignal => 3
    case SemanticMismatch => 4
  }

  function Join(s: Status, t: Status): Status {
    if Rank(s) < Rank(t) then t else s
  }

  /** The aggregate is the highest-ranked status of the rows. */
  lemma AggregateIsHighest(rows: seq<OutcomeRow>)
    ensures forall i :: 0 <= i < |rows| ==> Rank(rows[i].status) <= Rank(AggregateStatus(rows))
    ensures AggregateStatus(rows) == NotMeasured || HasStatus(rows, AggregateStatus(rows))
  {
    forall i | 0 <= i < |rows| ensures HasStatus(rows, rows[i].status) {
    }
  }

  /** A bound that the rows reach is the aggregate. */
  lemma HighestIsAggregate(rows: seq<OutcomeRow>, s: Status)
    requires forall i :: 0 <= i < |rows| ==> Rank(rows[i].status) <= Rank(s)
    requires s == NotMeasured || HasStatus(rows, s)
    ensures AggregateStatus(rows) == s
  {
    AggregateIsHighest(rows);
    if HasStatus(rows, s) {
      var i :| 0 <= i < |rows| && rows[i].status == s;
      assert Rank(s) <= Rank(AggregateStatus(rows));
    }
    if AggregateStatus(rows) != NotMeasured {
      var j :| 0 <= j < |rows| && rows[j].status == AggregateStatus(rows);
      assert Rank(AggregateStatus(rows)) <= Rank(s);
    }
  }

  /** The aggregate of two row lists is the join of their aggregates, and the order of rows is irrelevant. */
  lemma AggregateIsJoin(xs: seq<OutcomeRow>, ys: seq<OutcomeRow>)
    ensures AggregateStatus(xs + ys) == Join(AggregateStatus(xs), AggregateStatus(ys))
    ensures multiset(xs) == multiset(ys) ==> AggregateStatus(xs) == AggregateStatus(ys)
  {
    hide AggregateStatus;
    AggregateIsHighest(xs);
    AggregateIsHighest(ys);
    var s := Join(AggregateStatus(xs), AggregateStatus(ys));
    StatusInEither(xs, ys, s);
    forall i | 0 <= i < |xs + ys| ensures Rank((xs + ys)[i].status) <= Rank(s) {
      if i < |xs| {
        assert (xs + ys)[i] == xs[i];
      } else {
        assert (xs + ys)[i] == ys[i - |xs|];
      }
    }
    HighestIsAggregate(xs + ys, s);
    if multiset(xs) == multiset(ys) {
      SameElements(xs, ys);
      forall i | 0 <= i < |xs| ensures Rank(xs[i].status) <= Rank(AggregateStatus(ys)) {
        assert xs[i] in ys;
      }
      StatusKept(ys, xs, AggregateStatus(ys));
      HighestIsAggregate(xs, AggregateStatus(ys));
    }
  }

  lemma StatusKept(xs: seq<OutcomeRow>, ys: seq<OutcomeRow>, s: Status)
    requires forall x :: x in xs ==> x in ys
    ensures HasStatus(xs, s) ==> HasStatus(ys, s)
  {
    if HasStatus(xs, s) {
      var i :| 0 <= i < |xs| && xs[i].status == s;
      assert xs[i] in ys;
    }
  }

  lemma StatusInEither(xs: seq<OutcomeRow>, ys: seq<OutcomeRow>, s: Status)
    ensures HasStatus(xs + ys, s) <==> HasStatus(xs, s) || HasStatus(ys, s)
  {
    if HasStatus(xs, s) {
      var i :| 0 <= i < |xs| && xs[i].status == s;
      assert (xs + ys)[i].status == s;
    }
    if HasStatus(ys, s) {
      var i :| 0 <= i < |ys| && ys[i].status == s;
      assert (xs + ys)[|xs| + i].status == s;
    }
  }

  // --------------------------------------------------------- status of a run

  predicate MismatchSeen(st: RunState) {
    st.mismatchRows != {} || st.internalMismatchRows != {}
  }

  /** Once a mismatch is seen no row keeps a verdict, and neither does the aggregate. */
  lemma MismatchQuarantines(a: Admission, st: RunState)
    requires MismatchSeen(st) && BuildOutcomeRows(a, st).Success?
    ensures var rows := BuildOutcomeRows(a, st).value;
      && (forall i :: 0 <= i < |rows| ==> !IsVerdict(rows[i].status))
      && !IsVerdict(AggregateStatus(rows))
  {
    hide BuildRow, AggregateStatus;
    var rows := BuildOutcomeRows(a, st).value;
    forall i | 0 <= i < |rows| ensures !IsVerdict(rows[i].status) {
      RowsComeFromKeys(a, st, AllRowKeys(), i);
      StoppedRow(a, st, AllRowKeys()[i], a.p0ByRow[AllRowKeys()[i]]);
    }
    AggregateIsHighest(rows);
  }

  lemma {:induction false} RowsComeFromKeys(a: Admission, st: RunState, keys: seq<RowKey>, i: nat)
    requires BuildRows(a, st, keys).Success? && i < |BuildRows(a, st, keys).value|
    ensures i < |keys| && keys[i] in a.p0ByRow &&
      BuildRows(a, st, keys).value[i] == BuildRow(a, st, keys[i], a.p0ByRow[keys[i]])
  {
    hide BuildRow;
    if keys != [] && i > 0 {
      RowsComeFromKeys(a, st, keys[1..], i - 1);
    }
  }

  /** A mismatch the rows can show. */
  predicate MismatchShown(a: Admission, st: RunState) {
    st.mismatchRows != {} || exists k :: k in st.internalMismatchRows && k.0 in a.executionPhaseScope
  }

  /** The status the runner reports for a run. */
  function RunStatus(m: Manifest, r: P0Reference, files: Surroundings, world: World): Status
    requires ManifestShapeOk(m, r)
  {
    var a := Admit(m, r, files);
    AdmittedRowsBuilt(m, r, files, FinalState(a, world));
    AggregateStatus(BuildOutcomeRows(a, FinalState(a, world)).value)
  }

  lemma RowOfKey(m: Manifest, r: P0Reference, files: Surroundings, st: RunState, k: RowKey) returns (i: nat)
    requires ManifestShapeOk(m, r)
    ensures var a := Admit(m, r, files);
      var rows := BuildOutcomeRows(a, st);
      && rows.Success? && i < |rows.value| && k in a.p0ByRow && rows.value[i] == BuildRow(a, st, k, a.p0ByRow[k])
  {
    hide BuildRow, ManifestShapeOk, Admit, BuildOutcomeRows, RowKeysOf;
    AdmittedRowsBuilt(m, r, files, st);
    PhasesAreAll(k.0);
    RowKeysAre(PHASE_NAMES, k);
    i :| 0 <= i < |AllRowKeys()| && AllRowKeys()[i] == k;
  }

  /** How the status of a run depends on its mismatch sets. */
  lemma MismatchShownIff(m: Manifest, r: P0Reference, files: Surroundings, world: World)
    requires ManifestShapeOk(m, r)
    ensures var a := Admit(m, r, files);
      var st := FinalState(a, world);
      && (RunStatus(m, r, files, world) == SemanticMismatch <==> MismatchShown(a, st))
      && (Stopped(st) && !MismatchShown(a, st) ==> RunStatus(m, r, files, world) == NotMeasured)
  {
    var a := Admit(m, r, files);
    var st := FinalState(a, world);
    FinalMismatchesInScope(m, r, files, world);
    hide BuildRow, ManifestShapeOk, Admit, BuildOutcomeRows, AggregateStatus, FinalState;
    AdmittedRowsBuilt(m, r, files, st);
    var rows := BuildOutcomeRows(a, st).value;
    AggregateIsHighest(rows);
    if MismatchShown(a, st) {
      var k: RowKey :| k.0 in a.executionPhaseScope && (k in st.mismatchRows || k in st.internalMismatchRows);
      var i := RowOfKey(m, r, files, st, k);
      StoppedRow(a, st, k, a.p0ByRow[k]);
      assert Rank(rows[i].status) == 4;
    } else {
      forall i | 0 <= i < |rows| ensures rows[i].status != SemanticMismatch &&
        (Stopped(st) ==> rows[i].status == NotMeasured) {
        RowWithoutMismatch(a, st, AllRowKeys()[i], a.p0ByRow[AllRowKeys()[i]]);
      }
    }
  }

  lemma RowWithoutMismatch(a: Admission, st: RunState, k: RowKey, p0Range: real)
    requires !MismatchShown(a, st)
    ensures var status := BuildRow(a, st, k, p0Range).status;
      status != SemanticMismatch && (Stopped(st) ==> status == NotMeasured)
  {
    hide ClassifyConfirmationRow, BuildRow;
    if Stopped(st) {
      StoppedRow(a, st, k, p0Range);
    } else {
      RowGoneThrough(a, st, k, p0Range);
      ClassifiedIff(Map(DeltasOf(st.pairDeltas, k), DeltaMs),
        if k in a.thresholdByRow then a.thresholdByRow[k] else 0.0, p0Range);
    }
  }

  lemma FinalMismatchesInScope(m: Manifest, r: P0Reference, files: Surroundings, world: World)
    ensures MismatchesInScope(Admit(m, r, files), FinalState(Admit(m, r, files), world))
  {
    hide StateAfter, MismatchesInScope;
    OrdersArePaired(m);
    AdmittedScopeDistinct(m, r, files);
    MismatchesStayInScope(Admit(m, r, files), RunOrderForManifest(m), world, |RunOrderForManifest(m)|);
  }

  /**
   * The status of a run: a performance status exactly for a clean run of a real candidate, and outside confirmation
   * only the neutral one.
   */
  lemma StatusIff(m: Manifest, r: P0Reference, files: Surroundings, world: World)
    requires ManifestShapeOk(m, r)
    ensures var status := RunStatus(m, r, files, world);
      && (IsVerdict(status) <==> m.candidate.kind == RealCandidate && CleanRun(Admit(m, r, files), world))
      && (IsVerdict(status) && m.stage != Confirmation ==> status == NeutralOrInconclusive)
  {
    var a := Admit(m, r, files);
    var st := FinalState(a, world);
    GoesThroughIffClean(m, r, files, world);
    hide BuildRow, BuildOutcomeRows, AggregateStatus, FinalState, CleanRun, GoneThroughRow, RunOrderForManifest,
      Tracks, Admit, ManifestShapeOk;
    AdmittedRowsBuilt(m, r, files, st);
    var rows := BuildOutcomeRows(a, st).value;
    AggregateIsHighest(rows);
    if Stopped(st) {
      forall i | 0 <= i < |rows| ensures !IsVerdict(rows[i].status) {
        StoppedRow(a, st, AllRowKeys()[i], a.p0ByRow[AllRowKeys()[i]]);
      }
    } else {
      forall i | 0 <= i < |rows| ensures StatusFits(m, rows[i].status) {
        RowFits(m, r, files, world, rows, i);
      }
      if m.candidate.kind == RealCandidate {
        var i := SomeRowHasVerdict(m, r, files, world, rows);
        assert Rank(rows[i].status) > 0;
      }
    }
  }

  /** What a run that went through may say of a row. */
  predicate StatusFits(m: Manifest, status: Status) {
    && (status == NotMeasured || IsVerdict(status))
    && (m.candidate.kind == SelfComparison ==> status == NotMeasured)
    && (m.stage != Confirmation ==> status == NotMeasured || status == NeutralOrInconclusive)
  }

  lemma RowFits(m: Manifest, r: P0Reference, files: Surroundings, world: World, rows: seq<OutcomeRow>, i: nat)
    requires ManifestShapeOk(m, r) && !Stopped(FinalState(Admit(m, r, files), world))
    requires BuildOutcomeRows(Admit(m, r, files), FinalState(Admit(m, r, files), world)) == Success(rows) && i < |rows|
    ensures StatusFits(m, rows[i].status)
  {
    var a, st := Admit(m, r, files), FinalState(Admit(m, r, files), world);
    assert a.manifest == m;
    hide BuildRow, FinalState, Admit, ManifestShapeOk, Stopped, RowKeysOf;
    RowsComeFromKeys(a, st, AllRowKeys(), i);
    RowStatusGoneThrough(a, st, AllRowKeys()[i], a.p0ByRow[AllRowKeys()[i]]);
  }

  lemma SomeRowHasVerdict(m: Manifest, r: P0Reference, files: Surroundings, world: World,
                          rows: seq<OutcomeRow>) returns (i: nat)
    requires ManifestShapeOk(m, r) && !Stopped(FinalState(Admit(m, r, files), world)) &&
      m.candidate.kind == RealCandidate
    requires BuildOutcomeRows(Admit(m, r, files), FinalState(Admit(m, r, files), world)) == Success(rows)
    ensures i < |rows| && IsVerdict(rows[i].status)
  {
    var a, st := Admit(m, r, files), FinalState(Admit(m, r, files), world);
    assert a.manifest == m;
    hide BuildRow, BuildOutcomeRows, FinalState, Admit, ManifestShapeOk, Stopped, RunOrderForManifest;
    var k := DeclaredRow(m, r, files);
    i := RowOfKey(m, r, files, st, k);
    PairsInScope(m, r, files, world, k);
    RowStatusGoneThrough(a, st, k, a.p0ByRow[k]);
  }

  /** A manifest declares at least one phase. */
  lemma DeclaredRow(m: Manifest, r: P0Reference, files: Surroundings) returns (k: RowKey)
    requires ManifestShapeOk(m, r)
    ensures k.0 in Admit(m, r, files).phaseScope && k.0 in Admit(m, r, files).executionPhaseScope
  {
    hide ThresholdsOk, P0ReferenceOk, CandidateOk, RunIdsOk, ThresholdMap, P0Map, NormalizedScope;
    k := (m.phaseScope[0], TrackedCustomerSummary);
    ScopeAre(m.phaseScope, k.0);
    PhasesAreAll(k.0);
  }

  lemma PairsInScope(m: Manifest, r: P0Reference, files: Surroundings, world: World, k: RowKey)
    requires !Stopped(FinalState(Admit(m, r, files), world)) && k.0 in Admit(m, r, files).executionPhaseScope
    ensures |DeltasOf(FinalState(Admit(m, r, files), world).pairDeltas, k)| == |RunOrderForManifest(m)| / 2 > 0
  {
    var a, order := Admit(m, r, files), RunOrderForManifest(m);
    OrdersArePaired(m);
    hide Stopped, FinalState, Admit, RunOrderForManifest, IsDelta, CleanUpTo, FirstTracked;
    GoesThroughIffClean(m, r, files, world);
    assert DeltasTracked(a, order, world, |order|, FinalState(a, world), k);
  }

  lemma RowStatusGoneThrough(a: Admission, st: RunState, k: RowKey, p0Range: real)
    requires !Stopped(st)
    ensures var status := BuildRow(a, st, k, p0Range).status;
      && (status == NotMeasured || IsVerdict(status))
      && (a.manifest.candidate.kind == SelfComparison ==> status == NotMeasured)
      && (a.manifest.stage != Confirmation ==> status == NotMeasured || status == NeutralOrInconclusive)
      && (status != NotMeasured <==> (k.0 in a.executionPhaseScope && DeltasOf(st.pairDeltas, k) != [] &&
                                      a.manifest.candidate.kind == RealCandidate && k.0 in a.phaseScope))
  {
    hide ClassifyConfirmationRow, BuildRow;
    RowGoneThrough(a, st, k, p0Range);
    ClassifiedIff(Map(DeltasOf(st.pairDeltas, k), DeltaMs), if k in a.thresholdByRow then a.thresholdByRow[k] else 0.0,
      p0Range);
  }

  // --------------------------------------------- a mismatch, read off the reports

  /**
   * The run's last report shows a mismatch: it validates, its environment is the first one's, and it either names a
   * mismatch of its own in an executed phase or, without failure, has other sinks than the first report.
   */
  predicate LastShowsMismatch(a: Admission, runs: seq<ProcessRun>)
    requires runs != []
  {
    var first, last := runs[0], runs[|runs| - 1];
    ReportsOtherSinks(a, first, last) ||
    (ReportsOwnMismatch(a, first, last) && last.file.report.failure.value.phase in a.executionPhaseScope)
  }

  /** The mismatch sets of a finished run, read off the report of its last process. */
  lemma LastReportDecides(a: Admission, order: seq<PlannedItem>, world: World)
    requires PairedOrder(order) && Distinct(a.executionPhaseScope) && order != []
    ensures var st := StateAfter(a, order, world, |order|);
      && st.runs != []
      && (st.mismatchRows != {} <==> ReportsOtherSinks(a, st.runs[0], st.runs[|st.runs| - 1]))
      && st.internalMismatchRows == OwnMismatchRows(a, st.runs[0], st.runs[|st.runs| - 1])
  {
    hide CleanStep, CleanUpTo, Stopped, StateAfter, Tracks, PairedOrder, Distinct, ReportsOtherSinks, OwnMismatchRows,
      ProcessStep;
    FirstFault(a, order, world);
    ExecutedIsPlannedPrefix(a, order, world, |order|);
    var st := StateAfter(a, order, world, |order|);
    var t := |st.runs|;
    CleanStates(a, order, world, t - 1);
    NextState(a, order, world, t - 1);
    TurnMismatchSets(a, order, world, t - 1, StateAfter(a, order, world, t - 1));
  }

  lemma ShownIffLastShows(a: Admission, st: RunState)
    requires st.runs != [] && MismatchesInScope(a, st)
    requires st.mismatchRows != {} <==> ReportsOtherSinks(a, st.runs[0], st.runs[|st.runs| - 1])
    requires st.internalMismatchRows == OwnMismatchRows(a, st.runs[0], st.runs[|st.runs| - 1])
    ensures MismatchShown(a, st) <==> LastShowsMismatch(a, st.runs)
  {
    hide ReportsOtherSinks, RawReportOk, MismatchesInScope, SameEnvironment;
    var last := st.runs[|st.runs| - 1];
    if ReportsOwnMismatch(a, st.runs[0], last) && last.file.report.failure.value.phase in a.executionPhaseScope {
      var k := (last.file.report.failure.value.phase, last.file.report.failure.value.scenario);
      assert k in st.internalMismatchRows && k.0 in a.executionPhaseScope;
    }
  }

  /**
   * A run is reported as a semantic mismatch exactly when the report of its last process shows one; every other run
   * that stopped is reported as not measured.
   */
  lemma MismatchReportedIff(m: Manifest, r: P0Reference, files: Surroundings, world: World)
    requires ManifestShapeOk(m, r)
    ensures var a := Admit(m, r, files);
      var st := FinalState(a, world);
      && st.runs != []
      && (RunStatus(m, r, files, world) == SemanticMismatch <==> LastShowsMismatch(a, st.runs))
      && (Stopped(st) && !LastShowsMismatch(a, st.runs) ==> RunStatus(m, r, files, world) == NotMeasured)
  {
    OrdersArePaired(m);
    AdmittedScopeDistinct(m, r, files);
    hide StateAfter, LastShowsMismatch, RunStatus, Admit, RunOrderForManifest, ManifestShapeOk, Stopped,
      MismatchShown, PairedOrder, Distinct, ReportsOtherSinks, OwnMismatchRows, MismatchesInScope;
    var a := Admit(m, r, files);
    FinalOf(m, r, files, world);
    LastReportDecides(a, RunOrderForManifest(m), world);
    FinalMismatchesInScope(m, r, files, world);
    hide FinalState;
    ShownIffLastShows(a, FinalState(a, world));
    MismatchShownIff(m, r, files, world);
  }

  /** Processes only ever name a failure in a phase they were asked to run, as the benchmark itself does. */
  predicate FailsInOwnScope(run: ProcessRun) {
    run.file.Parsed? && run.file.report.failure.Some? ==>
      run.file.report.failure.value.phase in run.file.report.method_.phaseScope
  }

  /** With such processes no mismatch is lost: the status shows one exactly when the run saw one. */
  lemma ScopedFailuresAreReported(m: Manifest, r: P0Reference, files: Surroundings, world: World)
    requires ManifestShapeOk(m, r)
    requires forall j :: 0 <= j < |RunOrderForManifest(m)| ==> FailsInOwnScope(RunAt(RunOrderForManifest(m), world, j))
    ensures RunStatus(m, r, files, world) == SemanticMismatch <==> MismatchSeen(FinalState(Admit(m, r, files), world))
  {
    OrdersArePaired(m);
    AdmittedScopeDistinct(m, r, files);
    hide StateAfter, RunStatus, Admit, RunOrderForManifest, ManifestShapeOk, Stopped, PairedOrder, Distinct,
      ReportsOtherSinks, OwnMismatchRows, FailsInOwnScope, CleanUpTo, CleanStep;
    var a, order := Admit(m, r, files), RunOrderForManifest(m);
    var st := FinalState(a, world);
    FinalOf(m, r, files, world);
    LastReportDecides(a, order, world);
    RunsToFirstFault(m, r, files, world);
    MismatchShownIff(m, r, files, world);
    var last := st.runs[|st.runs| - 1];
    assert FailsInOwnScope(last);
    OwnRowsInScope(a, st.runs[0], last);
  }

  lemma OwnRowsInScope(a: Admission, first: ProcessRun, run: ProcessRun)
    requires FailsInOwnScope(run)
    ensures forall k :: k in OwnMismatchRows(a, first, run) ==> k.0 in a.executionPhaseScope
  {
    hide RawReportOk;
    if ReportsOwnMismatch(a, first, run) {
      PhaseScopeWhenOk(run, a);
    }
  }

  // --------------------------------- a mismatch that the status does not show

  /** The first process reports a mismatch of its own, in a row outside the executed phases. */
  function OffScopeReport(a: Admission, k: RowKey): Report {
    Report(a.profile, CommitInfo(a.manifest.candidate.baseCommit, false), [],
           Method(a.sampling, CORPUS_SEED, a.executionPhaseScope, Null),
             Some(PairRun(a.manifest.candidate.id, Baseline, 1)), Null,
           Map(SCENARIO_NAMES, (s: Scenario) => (s, Null)), Map(PHASE_NAMES, (p: Phase) => (p, Null)), [],
           Some(ReportFailure(MismatchFailure, k.0, k.1)))
  }

  function OffScopeWorld(a: Admission, k: RowKey): World {
    (j: nat) => Execution(Some(1), Parsed(OffScopeReport(a, k)))
  }

  lemma OffScopeReportOk(a: Admission, k: RowKey)
    ensures RawReportOk(MakeRun((1, Baseline), 1, OffScopeWorld(a, k)(0)), a)
  {
    var report := OffScopeReport(a, k);
    assert Map(report.corpus, FirstOf) == SCENARIO_NAMES;
    assert Map(report.phases, FirstOf) == PHASE_NAMES;
  }

  lemma OffScopeStep(a: Admission, k: RowKey)
    ensures ProcessStep(a, INITIAL_STATE, (1, Baseline), OffScopeWorld(a, k)(0)).internalMismatchRows == {k}
    ensures ProcessStep(a, INITIAL_STATE, (1, Baseline), OffScopeWorld(a, k)(0)).mismatchRows == {}
  {
    OffScopeReportOk(a, k);
    hide RawReportOk, StableEnvironment, SameSerialized;
    var run := MakeRun((1, Baseline), 1, OffScopeWorld(a, k)(0));
    assert FindReport([run], 1, Candidate).None?;
  }

  /** Every admission that leaves a phase out has a run that sees a mismatch and is reported not measured. */
  lemma OffScopeMismatchIsNotReported(m: Manifest, r: P0Reference, files: Surroundings, k: RowKey)
    requires ManifestShapeOk(m, r) && k.0 !in Admit(m, r, files).executionPhaseScope
    ensures var a := Admit(m, r, files);
      var world := OffScopeWorld(a, k);
      MismatchSeen(FinalState(a, world)) && RunStatus(m, r, files, world) == NotMeasured
  {
    hide RunStatus, Admit, RunOrderForManifest, ManifestShapeOk, FinalState, OffScopeWorld;
    OffScopeFinal(m, r, files, k);
    MismatchShownIff(m, r, files, OffScopeWorld(Admit(m, r, files), k));
  }

  lemma OffScopeFinal(m: Manifest, r: P0Reference, files: Surroundings, k: RowKey)
    ensures var a := Admit(m, r, files);
      var st := FinalState(a, OffScopeWorld(a, k));
      st.mismatchRows == {} && st.internalMismatchRows == {k}
  {
    hide ProcessStep, Admit, RunOrderForManifest, OffScopeWorld, StateAfter, FinalState;
    var a, order := Admit(m, r, files), RunOrderForManifest(m);
    FirstPlanned(m);
    OffScopeStep(a, k);
    FinalOf(m, r, files, OffScopeWorld(a, k));
    StopsAtOnce(a, order, OffScopeWorld(a, k));
  }

  lemma FirstPlanned(m: Manifest)
    ensures RunOrderForManifest(m) != [] && RunOrderForManifest(m)[0] == (1, Baseline)
  {
  }

  lemma StopsAtOnce(a: Admission, order: seq<PlannedItem>, world: World)
    requires order != [] && ProcessStep(a, INITIAL_STATE, order[0], world(0)).internalMismatchRows != {}
    ensures StateAfter(a, order, world, |order|) == ProcessStep(a, INITIAL_STATE, order[0], world(0))
  {
    hide ProcessStep, StateAfter;
    NextState(a, order, world, 0);
    StartIsInitial(a, order, world);
    StoppedStays(a, order, world, 1, |order|);
  }

  lemma StartIsInitial(a: Admission, order: seq<PlannedItem>, world: World)
    ensures StateAfter(a, order, world, 0) == INITIAL_STATE && !Stopped(INITIAL_STATE)
  {
  }
}
