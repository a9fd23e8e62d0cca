/** The order in which a preview lists things does not show in the diff. */
module EvidenceOrder {
  import opened Wrappers
  import opened StableSort
  import opened Json
  import opened LocaleJson
  import opened EvidencePreview
  import opened Keyed
  import opened EvidenceDiff
  import opened EvidencePatch
  import opened EvidenceIds
  import opened EvidenceSymmetry

  // ------------------------------------- catalogs, fixtures and references

  ghost predicate Reordered<T>(a: Option<seq<T>>, b: Option<seq<T>>) {
    a.Some? == b.Some? && (a.Some? ==> multiset(a.value) == multiset(b.value))
  }

  /** The same SQL catalog with its references and fixtures in another order. */
  ghost predicate SqlReordered(a: PreviewSqlCatalog, b: PreviewSqlCatalog) {
    a == b.(refs := a.refs, fixtures := a.fixtures) && Reordered(a.refs, b.refs) && Reordered(a.fixtures, b.fixtures)
  }

  ghost predicate CaseReordered(a: PreviewFunctionCase, b: PreviewFunctionCase) {
    a == b.(refs := a.refs) && Reordered(a.refs, b.refs)
  }

  ghost predicate FunctionReordered(a: PreviewFunctionCatalog, b: PreviewFunctionCatalog) {
    && a == b.(refs := a.refs, cases := a.cases) && Reordered(a.refs, b.refs)
    && |a.cases| == |b.cases| && forall i :: 0 <= i < |a.cases| ==> CaseReordered(a.cases[i], b.cases[i])
  }

  /** Catalog by catalog the same, up to the order of references and fixtures. */
  ghost predicate PreviewReordered(p: Preview, q: Preview) {
    && |p.sqlCaseCatalogs| == |q.sqlCaseCatalogs| && |p.testCaseCatalogs| == |q.testCaseCatalogs|
    && (forall i :: 0 <= i < |p.sqlCaseCatalogs| ==> SqlReordered(p.sqlCaseCatalogs[i], q.sqlCaseCatalogs[i]))
    && (forall i :: 0 <= i < |p.testCaseCatalogs| ==> FunctionReordered(p.testCaseCatalogs[i], q.testCaseCatalogs[i]))
  }

  ghost predicate CatalogsPermuted(p: Preview, q: Preview) {
    && multiset(p.sqlCaseCatalogs) == multiset(q.sqlCaseCatalogs)
    && multiset(p.testCaseCatalogs) == multiset(q.testCaseCatalogs)
  }

  /** No two different references, once trimmed, tie in the locale. */
  ghost predicate RefsApart(refs: Option<seq<RefLink>>, collate: Collation) {
    refs.Some? ==> Separated(Map(refs.value, TrimRef), RefLe(collate))
  }

  ghost predicate FixturesApart(fixtures: Option<seq<string>>, collate: Collation) {
    fixtures.Some? ==> Separated(fixtures.value, collate)
  }

  /** No two different fixtures or references of one list tie in the locale. */
  ghost predicate ListsApart(p: Preview, collate: Collation) {
    && (forall c :: c in p.sqlCaseCatalogs ==> RefsApart(c.refs, collate) && FixturesApart(c.fixtures, collate))
    && (forall c :: c in p.testCaseCatalogs ==> FunctionListsApart(c, collate))
  }

  ghost predicate FunctionListsApart(c: PreviewFunctionCatalog, collate: Collation) {
    RefsApart(c.refs, collate) && forall t :: t in c.cases ==> RefsApart(t.refs, collate)
  }

  lemma RefsForgetOrder(a: Option<seq<RefLink>>, b: Option<seq<RefLink>>, collate: Collation)
    requires TotalPreorder(collate) && RefsApart(a, collate) && Reordered(a, b)
    ensures NormalRefs(a, collate) == NormalRefs(b, collate)
  {
    if a.Some? {
      RefLeIsPreorder(collate);
      SameElements(a.value, b.value);
      MapMultiset(a.value, b.value, TrimRef);
      SortForgetsOrder(Map(a.value, TrimRef), Map(b.value, TrimRef), RefLe(collate));
    }
  }

  lemma FixturesForgetOrder(a: Option<seq<string>>, b: Option<seq<string>>, collate: Collation)
    requires TotalPreorder(collate) && FixturesApart(a, collate) && Reordered(a, b)
    ensures SortedFixtures(a, collate) == SortedFixtures(b, collate)
  {
    if a.Some? {
      SortForgetsOrder(a.value, b.value, collate);
    }
  }

  lemma ReorderedNormalizes(p: Preview, q: Preview, collate: Collation)
    requires TotalPreorder(collate) && ListsApart(p, collate) && PreviewReordered(p, q)
    ensures NormalSqlCatalogs(p.sqlCaseCatalogs, collate) == NormalSqlCatalogs(q.sqlCaseCatalogs, collate)
    ensures NormalFunctionCatalogs(p.testCaseCatalogs, collate) == NormalFunctionCatalogs(q.testCaseCatalogs, collate)
  {
    hide TotalPreorder, RefsApart, FixturesApart, FunctionListsApart, FunctionReordered;
    forall i | 0 <= i < |p.sqlCaseCatalogs|
      ensures NormalSqlCatalog(p.sqlCaseCatalogs[i], collate) == NormalSqlCatalog(q.sqlCaseCatalogs[i], collate)
    {
      var a, b := p.sqlCaseCatalogs[i], q.sqlCaseCatalogs[i];
      assert a in p.sqlCaseCatalogs;
      RefsForgetOrder(a.refs, b.refs, collate);
      FixturesForgetOrder(a.fixtures, b.fixtures, collate);
    }
    forall i | 0 <= i < |p.testCaseCatalogs|
      ensures NormalFunctionCatalog(p.testCaseCatalogs[i], collate) ==
        NormalFunctionCatalog(q.testCaseCatalogs[i], collate)
    {
      assert p.testCaseCatalogs[i] in p.testCaseCatalogs;
      FunctionReorderedNormalizes(p.testCaseCatalogs[i], q.testCaseCatalogs[i], collate);
    }
  }

  lemma FunctionReorderedNormalizes(a: PreviewFunctionCatalog, b: PreviewFunctionCatalog, collate: Collation)
    requires TotalPreorder(collate) && FunctionListsApart(a, collate) && FunctionReordered(a, b)
    ensures NormalFunctionCatalog(a, collate) == NormalFunctionCatalog(b, collate)
  {
    hide TotalPreorder, NormalRefs, RefsApart;
    RefsForgetOrder(a.refs, b.refs, collate);
    forall i | 0 <= i < |a.cases|
      ensures NormalFunctionCase(a.cases[i], collate) == NormalFunctionCase(b.cases[i], collate)
    {
      assert a.cases[i] in a.cases;
      RefsForgetOrder(a.cases[i].refs, b.cases[i].refs, collate);
    }
  }

  lemma PermutedNormalizes(p: Preview, q: Preview, collate: Collation)
    requires TotalPreorder(collate) && CatalogsPermuted(p, q)
    requires Apart(PreviewIds(p), Itself, collate)
    ensures NormalizeCatalogsForDiff(p, collate) == NormalizeCatalogsForDiff(q, collate)
  {
    CatalogIdsApartIff(p, collate);
    hide NormalSqlCatalog, NormalFunctionCatalog, Apart, TotalPreorder, PreviewIds;
    CatalogLeIsPreorder(collate);
    MapMultiset(p.sqlCaseCatalogs, q.sqlCaseCatalogs, c => NormalSqlCatalog(c, collate));
    MapMultiset(p.testCaseCatalogs, q.testCaseCatalogs, c => NormalFunctionCatalog(c, collate));
    var s := NormalSqlCatalogs(p.sqlCaseCatalogs, collate) + NormalFunctionCatalogs(p.testCaseCatalogs, collate);
    var t := NormalSqlCatalogs(q.sqlCaseCatalogs, collate) + NormalFunctionCatalogs(q.testCaseCatalogs, collate);
    SameElements(s, SortBy(s, CatalogLe(collate)));
    forall a, b | a in s && b in s && CatalogLe(collate)(a, b) && CatalogLe(collate)(b, a) ensures a == b {
      ApartMeansSame(SortBy(s, CatalogLe(collate)), CatalogId, collate, a, b);
    }
    SortForgetsOrder(s, t, CatalogLe(collate));
  }

  lemma ReorderedKeepsIds(p: Preview, q: Preview)
    requires PreviewReordered(p, q)
    ensures PreviewIds(p) == PreviewIds(q)
  {
    hide Reordered, CaseReordered;
    assert forall i :: 0 <= i < |p.sqlCaseCatalogs| ==> SqlReordered(p.sqlCaseCatalogs[i], q.sqlCaseCatalogs[i]);
    assert forall i :: 0 <= i < |p.testCaseCatalogs| ==>
      FunctionReordered(p.testCaseCatalogs[i], q.testCaseCatalogs[i]);
  }

  /** Reordering catalogs, fixtures and references in a preview leaves its normal form unchanged. */
  lemma NormalFormForgetsListOrder(p: Preview, mid: Preview, q: Preview, collate: Collation)
    requires TotalPreorder(collate) && ListsApart(p, collate) && Apart(PreviewIds(p), Itself, collate)
    requires PreviewReordered(p, mid) && CatalogsPermuted(mid, q)
    ensures NormalizeCatalogsForDiff(p, collate) == NormalizeCatalogsForDiff(q, collate)
  {
    hide TotalPreorder, Apart, ListsApart, CatalogsPermuted, NormalSqlCatalogs, NormalFunctionCatalogs, SortBy;
    ReorderedNormalizes(p, mid, collate);
    ReorderedKeepsIds(p, mid);
    hide PreviewReordered;
    PermutedNormalizes(mid, q, collate);
  }

  /** Reordering catalogs, fixtures and references in either preview leaves the whole diff unchanged. */
  lemma DiffForgetsListOrder(base: Preview, baseMid: Preview, base': Preview,
                             head: Preview, headMid: Preview, head': Preview, collate: Collation)
    requires TotalPreorder(collate) && ListsApart(base, collate) && ListsApart(head, collate)
    requires PreviewReordered(base, baseMid) && CatalogsPermuted(baseMid, base')
    requires PreviewReordered(head, headMid) && CatalogsPermuted(headMid, head')
    requires Apart(PreviewIds(base), Itself, collate) && Apart(PreviewIds(head), Itself, collate)
    ensures BuildDiff(base, head, collate) == BuildDiff(base', head', collate)
  {
    hide DiffOf, TotalPreorder, Apart, ListsApart, PreviewReordered, CatalogsPermuted, NormalizeCatalogsForDiff,
      PreviewIds;
    NormalFormForgetsListOrder(base, baseMid, base', collate);
    NormalFormForgetsListOrder(head, headMid, head', collate);
  }

  // -------------------------------------------------- cases inside a catalog

  /** The same catalog with its cases in another order. */
  ghost predicate CasesShuffled(c: DiffCatalog, d: DiffCatalog) {
    d == c.(cases := d.cases) && multiset(c.cases) == multiset(d.cases)
  }

  ghost predicate AllShuffled(cs: seq<DiffCatalog>, ds: seq<DiffCatalog>) {
    |cs| == |ds| && forall i :: 0 <= i < |cs| ==> CasesShuffled(cs[i], ds[i])
  }

  /** Sorted lists of cases taken from a list whose ids stay apart are one list when they hold the same cases. */
  lemma SortedListsAgree(s: seq<DiffCase>, t: seq<DiffCase>, all: seq<DiffCase>, collate: Collation)
    requires TotalPreorder(collate) && Apart(all, CaseId, collate) && UniqueKeys(s, CaseId) && UniqueKeys(t, CaseId)
    requires Sorted(s, CaseLe(collate)) && Sorted(t, CaseLe(collate))
    requires forall x :: (x in s <==> x in t) && (x in s ==> x in all)
    ensures s == t
  {
    CaseLeIsPreorder(collate);
    UniqueIsDistinct(s, CaseId);
    UniqueIsDistinct(t, CaseId);
    hide UniqueKeys, TotalPreorder, Sorted, Apart, Distinct;
    forall a, b | a in s && b in s && CaseLe(collate)(a, b) && CaseLe(collate)(b, a) ensures a == b {
      ApartMeansSame(all, CaseId, collate, a, b);
    }
    DistinctSameSet(s, t);
    SortedIsUnique(s, t, CaseLe(collate));
  }

  lemma CaseListsSorted(before: DiffCatalog, after: DiffCatalog, collate: Collation)
    requires TotalPreorder(collate)
    ensures Sorted(CaseDiff(before, after, collate).added, CaseLe(collate))
    ensures Sorted(CaseDiff(before, after, collate).removed, CaseLe(collate))
  {
    CaseLeIsPreorder(collate);
    hide Absent, ChangedPairs, ById, TotalPreorder, Sorted;
    SortByIsSorted(Absent(after.cases, CaseId, ById(before.cases, CaseId)), CaseLe(collate));
    SortByIsSorted(Absent(before.cases, CaseId, ById(after.cases, CaseId)), CaseLe(collate));
  }

  lemma ShuffledKeepsFingerprint(c: DiffCatalog, d: DiffCatalog, t: DiffCase, collate: Collation)
    requires CasesShuffled(c, d)
    ensures CaseFingerprint(c, t, collate) == CaseFingerprint(d, t, collate)
    ensures HasCase(c, t.id) <==> HasCase(d, t.id)
    ensures t in c.cases <==> t in d.cases
  {
    hide StableStringify;
    PartsKeepFingerprints(c, d.cases, t, collate);
    SameElements(c.cases, d.cases);
  }

  lemma ShuffledListsHold(before: DiffCatalog, before': DiffCatalog, after: DiffCatalog, after': DiffCatalog,
                          collate: Collation)
    requires CasesShuffled(before, before') && CasesShuffled(after, after')
    requires UniqueKeys(after.cases, CaseId) && UniqueKeys(after'.cases, CaseId)
    ensures var r, r' := CaseDiff(before, after, collate), CaseDiff(before', after', collate);
      && (forall t :: t in r.added <==> t in r'.added) && (forall t :: t in r.removed <==> t in r'.removed)
      && (forall p :: p in r.updated <==> p in r'.updated)
  {
    hide CaseDiff, UniqueKeys, CaseFingerprint, CasesShuffled;
    var r, r' := CaseDiff(before, after, collate), CaseDiff(before', after', collate);
    forall t ensures (t in r.added <==> t in r'.added) && (t in r.removed <==> t in r'.removed) {
      CasesAddedAre(before, after, collate, t);
      CasesAddedAre(before', after', collate, t);
      ShuffledKeepsFingerprint(before, before', t, collate);
      ShuffledKeepsFingerprint(after, after', t, collate);
    }
    forall p ensures p in r.updated <==> p in r'.updated {
      CasesUpdatedAre(before, after, collate, p);
      CasesUpdatedAre(before', after', collate, p);
      ShuffledKeepsFingerprint(before, before', p.0, collate);
      ShuffledKeepsFingerprint(after, after', p.1, collate);
    }
  }

  lemma AddedComeFrom(before: DiffCatalog, after: DiffCatalog, collate: Collation)
    ensures forall t :: t in CaseDiff(before, after, collate).added ==> t in after.cases
    ensures forall t :: t in CaseDiff(before, after, collate).removed ==> t in before.cases
  {
    hide CaseDiff, HasCase;
    forall t
      ensures t in CaseDiff(before, after, collate).added ==> t in after.cases
      ensures t in CaseDiff(before, after, collate).removed ==> t in before.cases
    {
      CasesAddedAre(before, after, collate, t);
    }
  }

  /** Reordering the cases of two catalogs leaves every sorted case-change list unchanged. */
  lemma CaseDiffForgetsOrder(before: DiffCatalog, before': DiffCatalog, after: DiffCatalog, after': DiffCatalog,
                             collate: Collation)
    requires CasesApart(before, after, collate) && CasesShuffled(before, before') && CasesShuffled(after, after')
    ensures CaseDiff(before, after, collate) == CaseDiff(before', after', collate)
  {
    var r, r' := CaseDiff(before, after, collate), CaseDiff(before', after', collate);
    ApartUnderPermutation(before.cases, before'.cases, CaseId, collate);
    ApartUnderPermutation(after.cases, after'.cases, CaseId, collate);
    CasesApartAreUnique(before, after, collate);
    CasesApartAreUnique(before', after', collate);
    hide CaseDiff, UniqueKeys, CasesShuffled, TotalPreorder, Sorted, Separated, Apart, Distinct;
    ShuffledListsHold(before, before', after, after', collate);
    CaseDiffIsUnique(before, after, collate);
    CaseDiffIsUnique(before', after', collate);
    CaseListsSorted(before, after, collate);
    CaseListsSorted(before', after', collate);
    AddedComeFrom(before, after, collate);
    SortedListsAgree(r.added, r'.added, after.cases, collate);
    SortedListsAgree(r.removed, r'.removed, before.cases, collate);
    CaseUpdatesSorted(before, after, collate);
    CaseUpdatesSorted(before', after', collate);
    DistinctSameSet(r.updated, r'.updated);
    SortedIsUnique(r.updated, r'.updated, UpdateLe(collate));
  }

  // ------------------------------------------- cases inside all the catalogs

  function Bare(c: DiffCatalog): DiffCatalog {
    c.(cases := [])
  }

  /** An updated entry without the order in which its two sides list their cases. */
  function BareEntry(e: UpdatedCatalog): UpdatedCatalog {
    UpdatedCatalog(e.catalogId, Bare(e.before), Bare(e.after), e.cases)
  }

  lemma {:induction false} ShuffledById(cs: seq<DiffCatalog>, ds: seq<DiffCatalog>)
    requires AllShuffled(cs, ds)
    ensures var m, m' := ById(cs, CatalogId), ById(ds, CatalogId);
      m.Keys == m'.Keys && forall k :: k in m ==> CasesShuffled(m[k], m'[k])
  {
    if cs != [] {
      ShuffledById(cs[..|cs| - 1], ds[..|ds| - 1]);
    }
  }

  lemma ShuffledAppend(cs: seq<DiffCatalog>, ds: seq<DiffCatalog>, cs': seq<DiffCatalog>, ds': seq<DiffCatalog>)
    requires AllShuffled(cs, ds) && AllShuffled(cs', ds')
    ensures AllShuffled(cs + cs', ds + ds')
  {
    hide CasesShuffled;
  }

  lemma ShuffledOne(c: DiffCatalog, d: DiffCatalog)
    requires CasesShuffled(c, d)
    ensures AllShuffled([c], [d]) && AllShuffled([], [])
  {
    hide CasesShuffled;
  }

  lemma ShuffledPart(cs: seq<DiffCatalog>, ds: seq<DiffCatalog>, i: nat, j: nat)
    requires AllShuffled(cs, ds) && i <= j <= |cs|
    ensures |cs| == |ds| && AllShuffled(cs[i..j], ds[i..j]) && forall k :: 0 <= k < |cs| ==> CasesShuffled(cs[k], ds[k])
  {
    hide CasesShuffled;
  }

  lemma {:induction false} ShuffledAbsent(cs: seq<DiffCatalog>, ds: seq<DiffCatalog>,
                                          m: map<string, DiffCatalog>, m': map<string, DiffCatalog>)
    requires AllShuffled(cs, ds) && m.Keys == m'.Keys
    ensures AllShuffled(Absent(cs, CatalogId, m), Absent(ds, CatalogId, m'))
  {
    ShuffledPart(cs, ds, 0, |cs|);
    if cs != [] {
      hide CasesShuffled, CatalogId, AllShuffled, Absent;
      var n := |cs| - 1;
      ShuffledPart(cs, ds, 0, n);
      ShuffledAbsent(cs[..n], ds[..n], m, m');
      SameIdWhenShuffled(cs[n], ds[n]);
      ShuffledOne(cs[n], ds[n]);
      Keyed.AbsentGrows(cs, n, CatalogId, m);
      Keyed.AbsentGrows(ds, n, CatalogId, m');
      assert cs[..n + 1] == cs && ds[..n + 1] == ds;
      var more := CatalogId(cs[n]) !in m;
      assert CatalogId(cs[n]) in m.Keys <==> CatalogId(ds[n]) in m'.Keys;
      ShuffledAppend(Absent(cs[..n], CatalogId, m), Absent(ds[..n], CatalogId, m'),
                     if more then [cs[n]] else [], if more then [ds[n]] else []);
    }
  }

  lemma SameIdWhenShuffled(c: DiffCatalog, d: DiffCatalog)
    requires CasesShuffled(c, d)
    ensures CatalogId(c) == CatalogId(d)
  {
  }

  ghost predicate ShufflesKeepDiffs(cs: seq<DiffCatalog>, ds: seq<DiffCatalog>, m: map<string, DiffCatalog>,
                                    m': map<string, DiffCatalog>, collate: Collation) {
    forall i :: 0 <= i < |cs| && |cs| == |ds| && cs[i].catalogId in m && cs[i].catalogId in m' ==>
      CaseDiff(cs[i], m[cs[i].catalogId], collate) == CaseDiff(ds[i], m'[cs[i].catalogId], collate)
  }

  lemma HeadersOfShuffled(c: DiffCatalog, d: DiffCatalog, collate: Collation)
    requires CasesShuffled(c, d)
    ensures HeaderFingerprint(c, collate) == HeaderFingerprint(d, collate) && Bare(c) == Bare(d) &&
      c.catalogId == d.catalogId
  {
    hide StableStringify, RecordMembers;
    assert HeaderValues(c) == HeaderValues(d);
  }

  function BareEntries(pairs: seq<(DiffCatalog, DiffCatalog)>, collate: Collation): seq<UpdatedCatalog> {
    Map(Map(pairs, EntryOf(collate)), BareEntry)
  }

  lemma BareEntriesGrow(pairs: seq<(DiffCatalog, DiffCatalog)>, p: (DiffCatalog, DiffCatalog), collate: Collation)
    ensures BareEntries(pairs + [p], collate) == BareEntries(pairs, collate) + [BareEntry(EntryOf(collate)(p))]
  {
    hide CaseDiff;
    EntriesGrow(pairs, p, collate);
  }

  lemma {:induction false} ShuffledPairs(cs: seq<DiffCatalog>, ds: seq<DiffCatalog>, m: map<string, DiffCatalog>,
                                         m': map<string, DiffCatalog>, collate: Collation)
    requires AllShuffled(cs, ds) && m.Keys == m'.Keys && (forall k :: k in m ==> CasesShuffled(m[k], m'[k]))
    requires ShufflesKeepDiffs(cs, ds, m, m', collate)
    ensures BareEntries(ChangedPairs(cs, CatalogId, m, CatalogDiffers(collate)), collate) ==
            BareEntries(ChangedPairs(ds, CatalogId, m', CatalogDiffers(collate)), collate)
  {
    hide CaseDiff, HeaderFingerprint, BareEntries, ChangedPairs, CasesShuffled;
    var differs := CatalogDiffers(collate);
    if cs == [] {
      LoopEnds(cs, CatalogId, m, differs);
      LoopEnds(ds, CatalogId, m', differs);
    } else {
      var n := |cs| - 1;
      ShuffledPairs(cs[..n], ds[..n], m, m', collate);
      ChangedGrows(cs, n, CatalogId, m, differs);
      ChangedGrows(ds, n, CatalogId, m', differs);
      assert cs[..n + 1] == cs && ds[..n + 1] == ds;
      HeadersOfShuffled(cs[n], ds[n], collate);
      var pairs, pairs' := ChangedPairs(cs[..n], CatalogId, m, differs), ChangedPairs(ds[..n], CatalogId, m', differs);
      assert pairs + [] == pairs && pairs' + [] == pairs';
      if cs[n].catalogId in m {
        var a, a' := m[cs[n].catalogId], m'[cs[n].catalogId];
        HeadersOfShuffled(a, a', collate);
        assert CaseDiff(cs[n], a, collate) == CaseDiff(ds[n], a', collate);
        assert differs(cs[n], a) <==> differs(ds[n], a');
        assert BareEntry(EntryOf(collate)((cs[n], a))) == BareEntry(EntryOf(collate)((ds[n], a')));
        BareEntriesGrow(ChangedPairs(cs[..n], CatalogId, m, differs), (cs[n], a), collate);
        BareEntriesGrow(ChangedPairs(ds[..n], CatalogId, m', differs), (ds[n], a'), collate);
      }
    }
  }

  lemma ShuffledDiffs(base: seq<DiffCatalog>, base': seq<DiffCatalog>, head: seq<DiffCatalog>, head': seq<DiffCatalog>,
                      collate: Collation)
    requires TotalPreorder(collate) && AllShuffled(base, base') && AllShuffled(head, head')
    requires IdsApart(base, collate) && IdsApart(head, collate)
    ensures ShufflesKeepDiffs(base, base', ById(head, CatalogId), ById(head', CatalogId), collate)
  {
    hide CaseDiff, Apart, TotalPreorder, ById, CasesShuffled;
    ShuffledById(head, head');
    var m, m' := ById(head, CatalogId), ById(head', CatalogId);
    forall i | 0 <= i < |base| && base[i].catalogId in m
      ensures CaseDiff(base[i], m[base[i].catalogId], collate) == CaseDiff(base'[i], m'[base[i].catalogId], collate)
    {
      assert base[i] in base && m[base[i].catalogId] in head;
      CaseDiffForgetsOrder(base[i], base'[i], m[base[i].catalogId], m'[base[i].catalogId], collate);
    }
  }

  lemma {:induction false} ShuffledTests(cs: seq<DiffCatalog>, ds: seq<DiffCatalog>)
    requires AllShuffled(cs, ds)
    ensures Sum(cs, TestCount) == Sum(ds, TestCount)
  {
    if cs != [] {
      ShuffledTests(cs[..|cs| - 1], ds[..|ds| - 1]);
      assert CasesShuffled(cs[|cs| - 1], ds[|ds| - 1]);
      SameElements(cs[|cs| - 1].cases, ds[|ds| - 1].cases);
    }
  }

  lemma {:induction false} BareSums(es: seq<UpdatedCatalog>, es': seq<UpdatedCatalog>)
    requires Map(es, BareEntry) == Map(es', BareEntry)
    ensures Sum(es, AddedCount) == Sum(es', AddedCount) && Sum(es, RemovedCount) == Sum(es', RemovedCount)
    ensures Sum(es, UpdatedCount) == Sum(es', UpdatedCount)
  {
    assert |es| == |Map(es, BareEntry)| == |es'|;
    if es != [] {
      var n := |es| - 1;
      assert Map(es, BareEntry)[n] == Map(es', BareEntry)[n];
      assert Map(es[..n], BareEntry) == Map(es, BareEntry)[..n] == Map(es', BareEntry)[..n] == Map(es'[..n], BareEntry);
      BareSums(es[..n], es'[..n]);
    }
  }

  lemma BareSorts(es: seq<UpdatedCatalog>, es': seq<UpdatedCatalog>, collate: Collation)
    requires Map(es, BareEntry) == Map(es', BareEntry)
    ensures Map(SortBy(es, ByKindAfter(collate)), BareEntry) == Map(SortBy(es', ByKindAfter(collate)), BareEntry)
  {
    hide Map, SortBy;
    var le := ByKindAfter(collate);
    SortCommutesWithMap(es, BareEntry, le, le);
    SortCommutesWithMap(es', BareEntry, le, le);
  }

  lemma BareCatalogsSort(cs: seq<DiffCatalog>, ds: seq<DiffCatalog>, collate: Collation)
    requires AllShuffled(cs, ds)
    ensures Map(SortBy(cs, ByKind(collate)), Bare) == Map(SortBy(ds, ByKind(collate)), Bare)
  {
    var le := ByKind(collate);
    assert Map(cs, Bare) == Map(ds, Bare);
    hide Map, SortBy;
    SortCommutesWithMap(cs, Bare, le, le);
    SortCommutesWithMap(ds, Bare, le, le);
  }

  /** The same diff, up to the order in which the catalogs it lists hold their cases. */
  ghost predicate SameDiff(d: DiffJson, d': DiffJson) {
    && d.baseTotals == d'.baseTotals && d.headTotals == d'.headTotals
    && d.catalogCounts == d'.catalogCounts && d.caseCounts == d'.caseCounts
    && Map(d.updated, BareEntry) == Map(d'.updated, BareEntry)
    && Map(d.added, Bare) == Map(d'.added, Bare) && Map(d.removed, Bare) == Map(d'.removed, Bare)
  }

  lemma ListsForgetCaseOrder(base: seq<DiffCatalog>, base': seq<DiffCatalog>, head: seq<DiffCatalog>,
                             head': seq<DiffCatalog>,
                             collate: Collation)
    requires TotalPreorder(collate) && AllShuffled(base, base') && AllShuffled(head, head')
    requires IdsApart(base, collate) && IdsApart(head, collate)
    ensures SameDiff(DiffOf(base, head, collate), DiffOf(base', head', collate))
  {
    hide CaseDiff, IdsApart, TotalPreorder, ById, Absent, ChangedPairs, Sum, SortBy, AllShuffled, Map;
    ShuffledById(base, base');
    ShuffledById(head, head');
    ShuffledDiffs(base, base', head, head', collate);
    ShuffledPairs(base, base', ById(head, CatalogId), ById(head', CatalogId), collate);
    var es, es' := UpdatedEntries(base, head, collate), UpdatedEntries(base', head', collate);
    assert Map(es, BareEntry) == Map(es', BareEntry);
    BareSums(es, es');
    BareSorts(es, es', collate);
    var added, added' := Absent(head, CatalogId, ById(base, CatalogId)),
      Absent(head', CatalogId, ById(base', CatalogId));
    var removed, removed' := Absent(base, CatalogId, ById(head, CatalogId)),
      Absent(base', CatalogId, ById(head', CatalogId));
    ShuffledAbsent(head, head', ById(base, CatalogId), ById(base', CatalogId));
    ShuffledAbsent(base, base', ById(head, CatalogId), ById(head', CatalogId));
    BareCatalogsSort(added, added', collate);
    BareCatalogsSort(removed, removed', collate);
    ShuffledTests(base, base');
    ShuffledTests(head, head');
    ShuffledTests(added, added');
    ShuffledTests(removed, removed');
    ShuffledLengths(base, base', head, head', added, added', removed, removed', es, es');
  }

  lemma ShuffledLengths(base: seq<DiffCatalog>, base': seq<DiffCatalog>, head: seq<DiffCatalog>,
                        head': seq<DiffCatalog>,
                        added: seq<DiffCatalog>, added': seq<DiffCatalog>, removed: seq<DiffCatalog>,
                        removed': seq<DiffCatalog>,
                        es: seq<UpdatedCatalog>, es': seq<UpdatedCatalog>)
    requires AllShuffled(base, base') && AllShuffled(head, head') && AllShuffled(added, added') &&
      AllShuffled(removed, removed')
    requires Map(es, BareEntry) == Map(es', BareEntry)
    ensures |base| == |base'| && |head| == |head'| && |added| == |added'| && |removed| == |removed'| && |es| == |es'|
  {
    assert |Map(es, BareEntry)| == |Map(es', BareEntry)|;
  }

  // -------------------------------------------------- cases inside a preview

  /** The same catalog of a preview with its cases in another order. */
  ghost predicate SqlShuffled(a: PreviewSqlCatalog, b: PreviewSqlCatalog) {
    a == b.(cases := a.cases) && multiset(a.cases) == multiset(b.cases)
  }

  ghost predicate FunctionShuffled(a: PreviewFunctionCatalog, b: PreviewFunctionCatalog) {
    a == b.(cases := a.cases) && multiset(a.cases) == multiset(b.cases)
  }

  /** Catalog by catalog the same, up to the order of cases. */
  ghost predicate PreviewShuffled(p: Preview, q: Preview) {
    && |p.sqlCaseCatalogs| == |q.sqlCaseCatalogs| && |p.testCaseCatalogs| == |q.testCaseCatalogs|
    && (forall i :: 0 <= i < |p.sqlCaseCatalogs| ==> SqlShuffled(p.sqlCaseCatalogs[i], q.sqlCaseCatalogs[i]))
    && (forall i :: 0 <= i < |p.testCaseCatalogs| ==> FunctionShuffled(p.testCaseCatalogs[i], q.testCaseCatalogs[i]))
  }

  lemma SqlShuffledNormalizes(a: PreviewSqlCatalog, b: PreviewSqlCatalog, collate: Collation)
    requires SqlShuffled(a, b)
    ensures CasesShuffled(NormalSqlCatalog(a, collate), NormalSqlCatalog(b, collate))
  {
    MapMultiset(a.cases, b.cases, NormalSqlCase);
  }

  lemma FunctionShuffledNormalizes(a: PreviewFunctionCatalog, b: PreviewFunctionCatalog, collate: Collation)
    requires FunctionShuffled(a, b)
    ensures CasesShuffled(NormalFunctionCatalog(a, collate), NormalFunctionCatalog(b, collate))
  {
    MapMultiset(a.cases, b.cases, t => NormalFunctionCase(t, collate));
  }

  lemma {:induction false} InsertShuffled(c: DiffCatalog, d: DiffCatalog, cs: seq<DiffCatalog>, ds: seq<DiffCatalog>,
                                          collate: Collation)
    requires CasesShuffled(c, d) && AllShuffled(cs, ds)
    ensures AllShuffled(Insert(c, cs, CatalogLe(collate)), Insert(d, ds, CatalogLe(collate)))
  {
    SameIdWhenShuffled(c, d);
    ShuffledPart(cs, ds, 0, |cs|);
    ShuffledOne(c, d);
    if cs != [] {
      SameIdWhenShuffled(cs[0], ds[0]);
      hide CasesShuffled, AllShuffled;
      if collate(c.catalogId, cs[0].catalogId) {
        ShuffledAppend([c], [d], cs, ds);
      } else {
        ShuffledPart(cs, ds, 1, |cs|);
        InsertShuffled(c, d, cs[1..], ds[1..], collate);
        ShuffledOne(cs[0], ds[0]);
        ShuffledAppend([cs[0]], [ds[0]], Insert(c, cs[1..], CatalogLe(collate)),
          Insert(d, ds[1..], CatalogLe(collate)));
      }
    }
  }

  /** The sort looks at ids only, so it keeps shuffled catalogs side by side. */
  lemma {:induction false} SortShuffled(cs: seq<DiffCatalog>, ds: seq<DiffCatalog>, collate: Collation)
    requires AllShuffled(cs, ds)
    ensures AllShuffled(SortBy(cs, CatalogLe(collate)), SortBy(ds, CatalogLe(collate)))
  {
    hide CasesShuffled;
    if cs != [] {
      SortShuffled(cs[1..], ds[1..], collate);
      InsertShuffled(cs[0], ds[0], SortBy(cs[1..], CatalogLe(collate)), SortBy(ds[1..], CatalogLe(collate)), collate);
    }
  }

  lemma ShuffledNormalizes(p: Preview, q: Preview, collate: Collation)
    requires PreviewShuffled(p, q)
    ensures AllShuffled(NormalizeCatalogsForDiff(p, collate), NormalizeCatalogsForDiff(q, collate))
  {
    hide NormalSqlCatalog, NormalFunctionCatalog, CasesShuffled, SortBy, SqlShuffled, FunctionShuffled;
    var s, s' := NormalSqlCatalogs(p.sqlCaseCatalogs, collate), NormalSqlCatalogs(q.sqlCaseCatalogs, collate);
    var f, f' := NormalFunctionCatalogs(p.testCaseCatalogs, collate),
      NormalFunctionCatalogs(q.testCaseCatalogs, collate);
    forall i | 0 <= i < |s| ensures CasesShuffled(s[i], s'[i]) {
      SqlShuffledNormalizes(p.sqlCaseCatalogs[i], q.sqlCaseCatalogs[i], collate);
    }
    forall i | 0 <= i < |f| ensures CasesShuffled(f[i], f'[i]) {
      FunctionShuffledNormalizes(p.testCaseCatalogs[i], q.testCaseCatalogs[i], collate);
    }
    SortShuffled(s + f, s' + f', collate);
  }

  /** Reordering the cases of any catalogs of either preview leaves the diff the same. */
  lemma DiffForgetsCaseOrder(base: Preview, base': Preview, head: Preview, head': Preview, collate: Collation)
    requires TotalPreorder(collate) && PreviewShuffled(base, base') && PreviewShuffled(head, head')
    requires PreviewIdsApart(base, collate) && PreviewIdsApart(head, collate)
    ensures SameDiff(BuildDiff(base, head, collate), BuildDiff(base', head', collate))
  {
    hide NormalizeCatalogsForDiff, DiffOf, TotalPreorder, IdsApart, PreviewIdsApart, PreviewShuffled, AllShuffled,
      SameDiff;
    IdsApartIff(base, collate);
    IdsApartIff(head, collate);
    ShuffledNormalizes(base, base', collate);
    ShuffledNormalizes(head, head', collate);
    ListsForgetCaseOrder(NormalizeCatalogsForDiff(base, collate), NormalizeCatalogsForDiff(base', collate),
                         NormalizeCatalogsForDiff(head, collate), NormalizeCatalogsForDiff(head', collate), collate);
  }

  // ------------------------------------------------------------ any reordering

  /** The same preview, up to the order of catalogs, cases, fixtures and references. */
  ghost predicate SameUpToOrder(p: Preview, q: Preview) {
    exists m, n :: PreviewReordered(p, m) && CatalogsPermuted(m, n) && PreviewShuffled(n, q)
  }

  /** Ids unique and told apart by the locale, as are the fixtures and references of each list. */
  ghost predicate Settled(p: Preview, collate: Collation) {
    TotalPreorder(collate) && ListsApart(p, collate) && PreviewIdsApart(p, collate)
  }

  lemma SettledNormalForm(p: Preview, q: Preview, collate: Collation)
    requires Settled(p, collate) && SameUpToOrder(p, q)
    ensures AllShuffled(NormalizeCatalogsForDiff(p, collate), NormalizeCatalogsForDiff(q, collate))
  {
    hide NormalizeCatalogsForDiff, TotalPreorder, ListsApart, Apart, AllShuffled, PreviewReordered, CatalogsPermuted,
      PreviewShuffled;
    var m, n :| PreviewReordered(p, m) && CatalogsPermuted(m, n) && PreviewShuffled(n, q);
    NormalFormForgetsListOrder(p, m, n, collate);
    ShuffledNormalizes(n, q, collate);
  }

  /** No order in which two previews list things shows in their diff. */
  lemma DiffForgetsOrder(base: Preview, base': Preview, head: Preview, head': Preview, collate: Collation)
    requires Settled(base, collate) && Settled(head, collate) && SameUpToOrder(base, base') &&
      SameUpToOrder(head, head')
    ensures SameDiff(BuildDiff(base, head, collate), BuildDiff(base', head', collate))
  {
    hide NormalizeCatalogsForDiff, DiffOf, SameDiff, SameUpToOrder, TotalPreorder, ListsApart, IdsApart, AllShuffled,
      PreviewIdsApart;
    IdsApartIff(base, collate);
    IdsApartIff(head, collate);
    SettledNormalForm(base, base', collate);
    SettledNormalForm(head, head', collate);
    ListsForgetCaseOrder(NormalizeCatalogsForDiff(base, collate), NormalizeCatalogsForDiff(base', collate),
                         NormalizeCatalogsForDiff(head, collate), NormalizeCatalogsForDiff(head', collate), collate);
  }
}
