/** The diff of two normalized evidence documents: the loops that build it and the lists that specify them. */
module EvidenceDiff {
  import opened Wrappers
  import opened StableSort
  import opened Json
  import opened LocaleJson
  import opened EvidencePreview
  import opened Keyed

  datatype CaseChanges = CaseChanges(added: seq<DiffCase>, removed: seq<DiffCase>, updated: seq<(DiffCase, DiffCase)>)

  datatype UpdatedCatalog = UpdatedCatalog(catalogId: string, before: DiffCatalog, after: DiffCatalog,
                                           cases: CaseChanges)

  datatype Totals = Totals(catalogs: nat, tests: nat)

  datatype Counts = Counts(added: nat, removed: nat, updated: nat)

  datatype DiffJson = DiffJson(
    baseTotals: Totals, headTotals: Totals, catalogCounts: Counts, caseCounts: Counts,
    added: seq<DiffCatalog>, removed: seq<DiffCatalog>, updated: seq<UpdatedCatalog>)

  // ------------------------------------------------------------ fingerprints

  function KindText(k: Kind): string {
    if k == Sql then "sql" else "function"
  }

  function StringArray(ss: seq<string>): Json {
    Arr(Map(ss, s => Str(s)))
  }

  function FixturesOf(c: DiffCatalog): seq<string> {
    if c.fixtures.Some? then c.fixtures.value else []
  }

  function DefinitionOf(c: DiffCatalog): string {
    if c.definition.Some? then c.definition.value else ""
  }

  const CASE_KEYS: seq<string> := ["kind", "catalogId", "caseId", "input", "output", "fixtures", "definition"]

  function CaseValues(c: DiffCatalog, t: DiffCase): (r: seq<Option<Json>>)
    ensures |r| == |CASE_KEYS|
  {
    [Some(Str(KindText(c.kind))), Some(Str(c.catalogId)), Some(Str(t.id)), Some(t.input), t.output,
     if c.kind == Sql then Some(StringArray(FixturesOf(c))) else None,
     if c.kind == Sql then Some(Str(DefinitionOf(c))) else None]
  }

  /** The object a case is fingerprinted by. */
  function CaseRecord(c: DiffCatalog, t: DiffCase): Json {
    Obj(RecordMembers(CASE_KEYS, CaseValues(c, t)))
  }

  function CaseFingerprint(c: DiffCatalog, t: DiffCase, collate: Collation): string {
    StableStringify(CaseRecord(c, t), collate)
  }

  const HEADER_KEYS: seq<string> := ["kind", "catalogId", "title", "definition", "fixtures"]

  function HeaderValues(c: DiffCatalog): (r: seq<Option<Json>>)
    ensures |r| == |HEADER_KEYS|
  {
    [Some(Str(KindText(c.kind))), Some(Str(c.catalogId)), Some(Str(c.title)),
     if c.definition.Some? then Some(Str(c.definition.value)) else None, Some(StringArray(FixturesOf(c)))]
  }

  function HeaderRecord(c: DiffCatalog): Json {
    Obj(RecordMembers(HEADER_KEYS, HeaderValues(c)))
  }

  function HeaderFingerprint(c: DiffCatalog, collate: Collation): string {
    StableStringify(HeaderRecord(c), collate)
  }

  // ------------------------------------------------- what the diff should be

  function CaseDiffers(before: DiffCatalog, after: DiffCatalog, collate: Collation): (DiffCase, DiffCase) -> bool {
    (b: DiffCase, a: DiffCase) => CaseFingerprint(before, b, collate) != CaseFingerprint(after, a, collate)
  }

  function CaseLe(collate: Collation): (DiffCase, DiffCase) -> bool {
    (a: DiffCase, b: DiffCase) => collate(a.id, b.id)
  }

  function UpdateLe(collate: Collation): ((DiffCase, DiffCase), (DiffCase, DiffCase)) -> bool {
    (a: (DiffCase, DiffCase), b: (DiffCase, DiffCase)) => collate(a.1.id, b.1.id)
  }

  function CaseDiff(before: DiffCatalog, after: DiffCatalog, collate: Collation): CaseChanges {
    var beforeMap, afterMap := ById(before.cases, CaseId), ById(after.cases, CaseId);
    CaseChanges(
      SortBy(Absent(after.cases, CaseId, beforeMap), CaseLe(collate)),
      SortBy(Absent(before.cases, CaseId, afterMap), CaseLe(collate)),
      SortBy(ChangedPairs(before.cases, CaseId, afterMap, CaseDiffers(before, after, collate)), UpdateLe(collate)))
  }

  predicate HasCaseChanges(c: CaseChanges) {
    |c.added| > 0 || |c.removed| > 0 || |c.updated| > 0
  }

  function CatalogDiffers(collate: Collation): (DiffCatalog, DiffCatalog) -> bool {
    (b: DiffCatalog, a: DiffCatalog) =>
      HeaderFingerprint(b, collate) != HeaderFingerprint(a, collate) || HasCaseChanges(CaseDiff(b, a, collate))
  }

  function EntryOf(collate: Collation): ((DiffCatalog, DiffCatalog)) -> UpdatedCatalog {
    (p: (DiffCatalog, DiffCatalog)) => UpdatedCatalog(p.0.catalogId, p.0, p.1, CaseDiff(p.0, p.1, collate))
  }

  function UpdatedEntries(base: seq<DiffCatalog>, head: seq<DiffCatalog>, collate: Collation): seq<UpdatedCatalog> {
    Map(ChangedPairs(base, CatalogId, ById(head, CatalogId), CatalogDiffers(collate)), EntryOf(collate))
  }

  predicate KindThenIdLe(a: DiffCatalog, b: DiffCatalog, collate: Collation) {
    if a.kind != b.kind then a.kind == Sql else collate(a.catalogId, b.catalogId)
  }

  function ByKind(collate: Collation): (DiffCatalog, DiffCatalog) -> bool {
    (a: DiffCatalog, b: DiffCatalog) => KindThenIdLe(a, b, collate)
  }

  function ByKindAfter(collate: Collation): (UpdatedCatalog, UpdatedCatalog) -> bool {
    (a: UpdatedCatalog, b: UpdatedCatalog) => KindThenIdLe(a.after, b.after, collate)
  }

  function TestCount(c: DiffCatalog): nat {
    |c.cases|
  }

  function AddedCount(e: UpdatedCatalog): nat {
    |e.cases.added|
  }

  function RemovedCount(e: UpdatedCatalog): nat {
    |e.cases.removed|
  }

  function UpdatedCount(e: UpdatedCatalog): nat {
    |e.cases.updated|
  }

  function TotalsOf(cs: seq<DiffCatalog>): Totals {
    Totals(|cs|, Sum(cs, TestCount))
  }

  /** The diff of two normalized catalog lists; duplicate ids resolve to the last entry, as in the source's maps. */
  function DiffOf(base: seq<DiffCatalog>, head: seq<DiffCatalog>, collate: Collation): DiffJson {
    var added := Absent(head, CatalogId, ById(base, CatalogId));
    var removed := Absent(base, CatalogId, ById(head, CatalogId));
    var updated := UpdatedEntries(base, head, collate);
    DiffJson(
      TotalsOf(base), TotalsOf(head), Counts(|added|, |removed|, |updated|),
      Counts(Sum(added, TestCount) + Sum(updated, AddedCount), Sum(removed, TestCount) + Sum(updated, RemovedCount),
             Sum(updated, UpdatedCount)),
      SortBy(added, ByKind(collate)), SortBy(removed, ByKind(collate)), SortBy(updated, ByKindAfter(collate)))
  }

  function BuildDiff(base: Preview, head: Preview, collate: Collation): DiffJson {
    DiffOf(NormalizeCatalogsForDiff(base, collate), NormalizeCatalogsForDiff(head, collate), collate)
  }

  // -------------------------------------------------------------- the loops

  method DiffCatalogCases(before: DiffCatalog, after: DiffCatalog, collate: Collation) returns (r: CaseChanges)
    ensures r == CaseDiff(before, after, collate)
  {
    hide ById, Absent, ChangedPairs, CaseFingerprint, SortBy;
    var beforeMap, afterMap := ById(before.cases, CaseId), ById(after.cases, CaseId);
    var differs := CaseDiffers(before, after, collate);
    var added: seq<DiffCase> := [];
    var removed: seq<DiffCase> := [];
    var updated: seq<(DiffCase, DiffCase)> := [];
    LoopEnds(after.cases, CaseId, beforeMap, differs);
    LoopEnds(before.cases, CaseId, afterMap, differs);
    for i := 0 to |after.cases|
      invariant added == Absent(after.cases[..i], CaseId, beforeMap)
    {
      AbsentGrows(after.cases, i, CaseId, beforeMap);
      if after.cases[i].id !in beforeMap {
        added := added + [after.cases[i]];
      }
    }
    for i := 0 to |before.cases|
      invariant removed == Absent(before.cases[..i], CaseId, afterMap)
    {
      AbsentGrows(before.cases, i, CaseId, afterMap);
      if before.cases[i].id !in afterMap {
        removed := removed + [before.cases[i]];
      }
    }
    for i := 0 to |before.cases|
      invariant updated == ChangedPairs(before.cases[..i], CaseId, afterMap, differs)
    {
      ChangedGrows(before.cases, i, CaseId, afterMap, differs);
      var beforeCase := before.cases[i];
      if beforeCase.id in afterMap {
        var afterCase := afterMap[beforeCase.id];
        if CaseFingerprint(before, beforeCase, collate) != CaseFingerprint(after, afterCase, collate) {
          updated := updated + [(beforeCase, afterCase)];
        }
      }
    }
    r := CaseChanges(SortBy(added, CaseLe(collate)), SortBy(removed, CaseLe(collate)),
      SortBy(updated, UpdateLe(collate)));
  }

  /** The sums the source takes with reduce. */
  method SumOf<T(!new)>(s: seq<T>, weight: T -> nat) returns (total: nat)
    ensures total == Sum(s, weight)
  {
    total := 0;
    for i := 0 to |s|
      invariant total == Sum(s[..i], weight)
    {
      assert s[..i + 1][..i] == s[..i];
      total := total + weight(s[i]);
    }
    assert s[..|s|] == s;
  }

  /** The catalogs of the head that the base lacks, and the other way round. */
  method CatalogsMissingFrom(cs: seq<DiffCatalog>, other: map<string, DiffCatalog>) returns (r: seq<DiffCatalog>)
    ensures r == Absent(cs, CatalogId, other)
  {
    hide Absent;
    LoopEnds(cs, CatalogId, other, (a: DiffCatalog, b: DiffCatalog) => true);
    r := [];
    for i := 0 to |cs|
      invariant r == Absent(cs[..i], CatalogId, other)
    {
      AbsentGrows(cs, i, CatalogId, other);
      if cs[i].catalogId !in other {
        r := r + [cs[i]];
      }
    }
  }

  lemma EntriesGrow(pairs: seq<(DiffCatalog, DiffCatalog)>, p: (DiffCatalog, DiffCatalog), collate: Collation)
    ensures Map(pairs + [p], EntryOf(collate)) == Map(pairs, EntryOf(collate)) + [EntryOf(collate)(p)]
  {
  }

  method UpdatedCatalogs(base: seq<DiffCatalog>, head: seq<DiffCatalog>, collate: Collation)
    returns (updated: seq<UpdatedCatalog>)
    ensures updated == UpdatedEntries(base, head, collate)
  {
    hide ById, ChangedPairs, CaseDiff, HeaderFingerprint, Map;
    var headMap := ById(head, CatalogId);
    var differs := CatalogDiffers(collate);
    updated := [];
    LoopEnds(base, CatalogId, headMap, differs);
    for i := 0 to |base|
      invariant updated == Map(ChangedPairs(base[..i], CatalogId, headMap, differs), EntryOf(collate))
    {
      ChangedGrows(base, i, CatalogId, headMap, differs);
      ghost var pairs := ChangedPairs(base[..i], CatalogId, headMap, differs);
      assert pairs + [] == pairs;
      if base[i].catalogId in headMap {
        var afterCatalog := headMap[base[i].catalogId];
        var cases := DiffCatalogCases(base[i], afterCatalog, collate);
        var catalogChanged := HeaderFingerprint(base[i], collate) != HeaderFingerprint(afterCatalog, collate);
        if catalogChanged || |cases.added| > 0 || |cases.removed| > 0 || |cases.updated| > 0 {
          EntriesGrow(pairs, (base[i], afterCatalog), collate);
          updated := updated + [UpdatedCatalog(base[i].catalogId, base[i], afterCatalog, cases)];
        }
      }
    }
  }

  method BuildDiffJson(basePreview: Preview, headPreview: Preview, collate: Collation) returns (r: DiffJson)
    ensures r == BuildDiff(basePreview, headPreview, collate)
  {
    hide NormalizeCatalogsForDiff, UpdatedEntries, SortBy, Sum, Absent, ById;
    var base := NormalizeCatalogsForDiff(basePreview, collate);
    var head := NormalizeCatalogsForDiff(headPreview, collate);
    var added := CatalogsMissingFrom(head, ById(base, CatalogId));
    var removed := CatalogsMissingFrom(base, ById(head, CatalogId));
    var updated := UpdatedCatalogs(base, head, collate);
    var addedFromCatalogs := SumOf(added, TestCount);
    var removedFromCatalogs := SumOf(removed, TestCount);
    var addedFromUpdates := SumOf(updated, AddedCount);
    var removedFromUpdates := SumOf(updated, RemovedCount);
    var updatedCases := SumOf(updated, UpdatedCount);
    var baseTests := SumOf(base, TestCount);
    var headTests := SumOf(head, TestCount);
    r := DiffJson(
      Totals(|base|, baseTests), Totals(|head|, headTests), Counts(|added|, |removed|, |updated|),
      Counts(addedFromCatalogs + addedFromUpdates, removedFromCatalogs + removedFromUpdates, updatedCases),
      SortBy(added, ByKind(collate)), SortBy(removed, ByKind(collate)), SortBy(updated, ByKindAfter(collate)));
  }

  // ---------------------------------------------- the orders of case lists

  lemma CaseLeIsPreorder(collate: Collation)
    requires TotalPreorder(collate)
    ensures TotalPreorder(CaseLe(collate))
  {
    var le := CaseLe(collate);
    forall a, b ensures le(a, b) || le(b, a) {
      assert collate(a.id, b.id) || collate(b.id, a.id);
    }
    forall a, b, c | le(a, b) && le(b, c) ensures le(a, c) {
      assert collate(a.id, b.id) && collate(b.id, c.id);
    }
  }

  lemma UpdateLeIsPreorder(collate: Collation)
    requires TotalPreorder(collate)
    ensures TotalPreorder(UpdateLe(collate))
  {
    var le := UpdateLe(collate);
    forall a, b ensures le(a, b) || le(b, a) {
      assert collate(a.1.id, b.1.id) || collate(b.1.id, a.1.id);
    }
    forall a, b, c | le(a, b) && le(b, c) ensures le(a, c) {
      assert collate(a.1.id, b.1.id) && collate(b.1.id, c.1.id);
    }
  }
}
