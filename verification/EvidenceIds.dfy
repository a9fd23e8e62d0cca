/** What the laws of the diff ask of ids, read off the preview itself. */
module EvidenceIds {
  import opened StableSort
  import opened LocaleJson
  import opened EvidencePreview
  import opened Keyed
  import opened EvidencePatch

  function SqlId(c: PreviewSqlCatalog): string {
    c.id
  }

  function FunctionId(c: PreviewFunctionCatalog): string {
    c.id
  }

  function SqlCaseId(t: PreviewSqlCase): string {
    t.id
  }

  function FunctionCaseId(t: PreviewFunctionCase): string {
    t.id
  }

  function Itself(id: string): string {
    id
  }

  /** The ids of all catalogs, over both of the preview's lists. */
  function PreviewIds(p: Preview): seq<string> {
    Map(p.sqlCaseCatalogs, SqlId) + Map(p.testCaseCatalogs, FunctionId)
  }

  /** Catalog ids unique over both lists, case ids unique in each catalog. */
  ghost predicate PreviewIdsUnique(p: Preview) {
    && UniqueKeys(PreviewIds(p), Itself)
    && (forall c :: c in p.sqlCaseCatalogs ==> UniqueKeys(c.cases, SqlCaseId))
    && (forall c :: c in p.testCaseCatalogs ==> UniqueKeys(c.cases, FunctionCaseId))
  }

  /** The same ids told apart by the locale. */
  ghost predicate PreviewIdsApart(p: Preview, collate: Collation) {
    && Apart(PreviewIds(p), Itself, collate)
    && (forall c :: c in p.sqlCaseCatalogs ==> Apart(c.cases, SqlCaseId, collate))
    && (forall c :: c in p.testCaseCatalogs ==> Apart(c.cases, FunctionCaseId, collate))
  }

  /** The catalogs before they are sorted. */
  function Unsorted(p: Preview, collate: Collation): seq<DiffCatalog> {
    NormalSqlCatalogs(p.sqlCaseCatalogs, collate) + NormalFunctionCatalogs(p.testCaseCatalogs, collate)
  }

  lemma UnsortedIds(p: Preview, collate: Collation)
    ensures |Unsorted(p, collate)| == |PreviewIds(p)|
    ensures forall i :: 0 <= i < |PreviewIds(p)| ==> CatalogId(Unsorted(p, collate)[i]) == PreviewIds(p)[i]
  {
    hide TrimmedOrNone, NormalRefs, SortedFixtures, NormalSqlCase, NormalFunctionCase;
  }

  lemma SortedHolds(p: Preview, collate: Collation, c: DiffCatalog)
    ensures c in NormalizeCatalogsForDiff(p, collate) <==> c in Unsorted(p, collate)
  {
    hide NormalSqlCatalogs, NormalFunctionCatalogs;
    SameElements(NormalizeCatalogsForDiff(p, collate), Unsorted(p, collate));
  }

  /** Each catalog of the normal form is one of the preview's, with cases of the same ids in the same order. */
  lemma UnsortedFrom(p: Preview, collate: Collation, c: DiffCatalog)
    ensures c in Unsorted(p, collate) <==>
      (exists s :: s in p.sqlCaseCatalogs && c == NormalSqlCatalog(s, collate)) ||
      (exists f :: f in p.testCaseCatalogs && c == NormalFunctionCatalog(f, collate))
  {
    hide NormalSqlCatalog, NormalFunctionCatalog;
    var ss, fs := NormalSqlCatalogs(p.sqlCaseCatalogs, collate), NormalFunctionCatalogs(p.testCaseCatalogs, collate);
    if c in ss {
      var i :| 0 <= i < |ss| && ss[i] == c;
      assert p.sqlCaseCatalogs[i] in p.sqlCaseCatalogs;
    }
    if c in fs {
      var i :| 0 <= i < |fs| && fs[i] == c;
      assert p.testCaseCatalogs[i] in p.testCaseCatalogs;
    }
    if s :| s in p.sqlCaseCatalogs && c == NormalSqlCatalog(s, collate) {
      var i :| 0 <= i < |p.sqlCaseCatalogs| && p.sqlCaseCatalogs[i] == s;
      assert ss[i] == c;
    }
    if f :| f in p.testCaseCatalogs && c == NormalFunctionCatalog(f, collate) {
      var i :| 0 <= i < |p.testCaseCatalogs| && p.testCaseCatalogs[i] == f;
      assert fs[i] == c;
    }
  }

  lemma SqlCasesKeepIds(c: PreviewSqlCatalog, collate: Collation)
    ensures UniqueKeys(NormalSqlCatalog(c, collate).cases, CaseId) <==> UniqueKeys(c.cases, SqlCaseId)
    ensures Apart(NormalSqlCatalog(c, collate).cases, CaseId, collate) <==> Apart(c.cases, SqlCaseId, collate)
  {
    var cases := NormalSqlCatalog(c, collate).cases;
    hide NormalSqlCatalog;
    SqlCaseIds(c, collate);
    assert forall i :: 0 <= i < |cases| ==> CaseId(cases[i]) == SqlCaseId(c.cases[i]);
  }

  lemma SqlCaseIds(c: PreviewSqlCatalog, collate: Collation)
    ensures var cases := NormalSqlCatalog(c, collate).cases;
      |cases| == |c.cases| && forall i :: 0 <= i < |cases| ==> cases[i].id == c.cases[i].id
  {
    hide NormalRefs, SortedFixtures, TrimmedOrNone;
  }

  lemma FunctionCasesKeepIds(c: PreviewFunctionCatalog, collate: Collation)
    ensures UniqueKeys(NormalFunctionCatalog(c, collate).cases, CaseId) <==> UniqueKeys(c.cases, FunctionCaseId)
    ensures Apart(NormalFunctionCatalog(c, collate).cases, CaseId, collate) <==> Apart(c.cases, FunctionCaseId, collate)
  {
    var cases := NormalFunctionCatalog(c, collate).cases;
    hide NormalFunctionCatalog;
    FunctionCaseIds(c, collate);
    assert forall i :: 0 <= i < |cases| ==> CaseId(cases[i]) == FunctionCaseId(c.cases[i]);
  }

  lemma FunctionCaseIds(c: PreviewFunctionCatalog, collate: Collation)
    ensures var cases := NormalFunctionCatalog(c, collate).cases;
      |cases| == |c.cases| && forall i :: 0 <= i < |cases| ==> cases[i].id == c.cases[i].id
  {
    hide NormalRefs, TrimmedOrNone;
  }

  lemma CatalogIdsUniqueIff(p: Preview, collate: Collation)
    ensures UniqueKeys(NormalizeCatalogsForDiff(p, collate), CatalogId) <==> UniqueKeys(PreviewIds(p), Itself)
  {
    UnsortedIds(p, collate);
    SortedIsPermuted(p, collate);
    hide Unsorted, NormalizeCatalogsForDiff, PreviewIds, CatalogId;
    var cs, us := NormalizeCatalogsForDiff(p, collate), Unsorted(p, collate);
    if UniqueKeys(cs, CatalogId) {
      UniqueUnderPermutation(cs, us, CatalogId);
    }
    if UniqueKeys(us, CatalogId) {
      UniqueUnderPermutation(us, cs, CatalogId);
    }
  }

  lemma SortedIsPermuted(p: Preview, collate: Collation)
    ensures multiset(NormalizeCatalogsForDiff(p, collate)) == multiset(Unsorted(p, collate))
  {
    hide NormalSqlCatalogs, NormalFunctionCatalogs;
  }

  lemma CatalogIdsApartIff(p: Preview, collate: Collation)
    requires TotalPreorder(collate)
    ensures Apart(NormalizeCatalogsForDiff(p, collate), CatalogId, collate) <==> Apart(PreviewIds(p), Itself, collate)
  {
    UnsortedIds(p, collate);
    SortedIsPermuted(p, collate);
    hide Unsorted, NormalizeCatalogsForDiff, PreviewIds, CatalogId, TotalPreorder;
    var cs, us := NormalizeCatalogsForDiff(p, collate), Unsorted(p, collate);
    if Apart(cs, CatalogId, collate) {
      ApartUnderPermutation(cs, us, CatalogId, collate);
    }
    if Apart(us, CatalogId, collate) {
      ApartUnderPermutation(us, cs, CatalogId, collate);
    }
  }

  /** The ids of the normal form are unique exactly when those of the preview are. */
  lemma UniqueIdsIff(p: Preview, collate: Collation)
    ensures UniqueIds(NormalizeCatalogsForDiff(p, collate)) <==> PreviewIdsUnique(p)
  {
    hide UniqueKeys, NormalSqlCatalog, NormalFunctionCatalog, NormalizeCatalogsForDiff, Unsorted, PreviewIds;
    CatalogIdsUniqueIff(p, collate);
    var cs := NormalizeCatalogsForDiff(p, collate);
    if UniqueIds(cs) {
      forall c | c in p.sqlCaseCatalogs ensures UniqueKeys(c.cases, SqlCaseId) {
        SortedHolds(p, collate, NormalSqlCatalog(c, collate));
        UnsortedFrom(p, collate, NormalSqlCatalog(c, collate));
        SqlCasesKeepIds(c, collate);
      }
      forall c | c in p.testCaseCatalogs ensures UniqueKeys(c.cases, FunctionCaseId) {
        SortedHolds(p, collate, NormalFunctionCatalog(c, collate));
        UnsortedFrom(p, collate, NormalFunctionCatalog(c, collate));
        FunctionCasesKeepIds(c, collate);
      }
    }
    if PreviewIdsUnique(p) {
      forall c | c in cs ensures UniqueKeys(c.cases, CaseId) {
        SortedHolds(p, collate, c);
        UnsortedFrom(p, collate, c);
        if s :| s in p.sqlCaseCatalogs && c == NormalSqlCatalog(s, collate) {
          SqlCasesKeepIds(s, collate);
        } else {
          var f :| f in p.testCaseCatalogs && c == NormalFunctionCatalog(f, collate);
          FunctionCasesKeepIds(f, collate);
        }
      }
    }
  }

  /** The locale tells the ids of the normal form apart exactly when it does those of the preview. */
  lemma IdsApartIff(p: Preview, collate: Collation)
    requires TotalPreorder(collate)
    ensures IdsApart(NormalizeCatalogsForDiff(p, collate), collate) <==> PreviewIdsApart(p, collate)
  {
    hide Apart, NormalSqlCatalog, NormalFunctionCatalog, NormalizeCatalogsForDiff, Unsorted, PreviewIds, TotalPreorder;
    CatalogIdsApartIff(p, collate);
    var cs := NormalizeCatalogsForDiff(p, collate);
    if IdsApart(cs, collate) {
      forall c | c in p.sqlCaseCatalogs ensures Apart(c.cases, SqlCaseId, collate) {
        SortedHolds(p, collate, NormalSqlCatalog(c, collate));
        UnsortedFrom(p, collate, NormalSqlCatalog(c, collate));
        SqlCasesKeepIds(c, collate);
      }
      forall c | c in p.testCaseCatalogs ensures Apart(c.cases, FunctionCaseId, collate) {
        SortedHolds(p, collate, NormalFunctionCatalog(c, collate));
        UnsortedFrom(p, collate, NormalFunctionCatalog(c, collate));
        FunctionCasesKeepIds(c, collate);
      }
    }
    if PreviewIdsApart(p, collate) {
      forall c | c in cs ensures Apart(c.cases, CaseId, collate) {
        SortedHolds(p, collate, c);
        UnsortedFrom(p, collate, c);
        if s :| s in p.sqlCaseCatalogs && c == NormalSqlCatalog(s, collate) {
          SqlCasesKeepIds(s, collate);
        } else {
          var f :| f in p.testCaseCatalogs && c == NormalFunctionCatalog(f, collate);
          FunctionCasesKeepIds(f, collate);
        }
      }
    }
  }
}
