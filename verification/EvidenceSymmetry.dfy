/** Swapping the sides of a diff, and diffing a side with itself. */
module EvidenceSymmetry {
  import opened StableSort
  import opened LocaleJson
  import opened EvidencePreview
  import opened Keyed
  import opened EvidenceDiff
  import opened EvidencePatch
  import opened EvidenceCounts

  // ---------------------------------------------------------------- swapping

  function Swap(p: (DiffCase, DiffCase)): (DiffCase, DiffCase) {
    (p.1, p.0)
  }

  function SwapChanges(c: CaseChanges): CaseChanges {
    CaseChanges(c.removed, c.added, Map(c.updated, Swap))
  }

  function SwapEntry(e: UpdatedCatalog): UpdatedCatalog {
    UpdatedCatalog(e.catalogId, e.after, e.before, SwapChanges(e.cases))
  }

  ghost predicate CasesApart(before: DiffCatalog, after: DiffCatalog, collate: Collation) {
    TotalPreorder(collate) && Apart(before.cases, CaseId, collate) && Apart(after.cases, CaseId, collate)
  }

  lemma CasesApartAreUnique(before: DiffCatalog, after: DiffCatalog, collate: Collation)
    requires CasesApart(before, after, collate)
    ensures UniqueKeys(before.cases, CaseId) && UniqueKeys(after.cases, CaseId)
  {
    ApartIsUnique(before.cases, CaseId, collate);
    ApartIsUnique(after.cases, CaseId, collate);
  }

  lemma TiedUpdatesAreOne(before: DiffCatalog, after: DiffCatalog, collate: Collation,
                          p: (DiffCase, DiffCase), q: (DiffCase, DiffCase))
    requires UniqueKeys(before.cases, CaseId) && UniqueKeys(after.cases, CaseId) && Apart(after.cases, CaseId, collate)
    requires p in CaseDiff(before, after, collate).updated && q in CaseDiff(before, after, collate).updated
    requires collate(p.1.id, q.1.id) && collate(q.1.id, p.1.id)
    ensures p == q
  {
    hide UniqueKeys, CaseFingerprint, CaseDiff, Apart;
    CasesUpdatedAre(before, after, collate, p);
    CasesUpdatedAre(before, after, collate, q);
    ApartMeansSame(after.cases, CaseId, collate, p.1, q.1);
    UniqueMeansSame(before.cases, CaseId, p.0, q.0);
  }

  lemma CaseUpdatesApart(before: DiffCatalog, after: DiffCatalog, collate: Collation)
    requires CasesApart(before, after, collate)
    ensures Separated(CaseDiff(before, after, collate).updated, UpdateLe(collate))
  {
    CasesApartAreUnique(before, after, collate);
    hide UniqueKeys, CaseDiff, Apart, TotalPreorder;
    var le, u := UpdateLe(collate), CaseDiff(before, after, collate).updated;
    forall p, q | p in u && q in u && le(p, q) && le(q, p) ensures p == q {
      TiedUpdatesAreOne(before, after, collate, p, q);
    }
  }

  lemma CaseUpdatesSorted(before: DiffCatalog, after: DiffCatalog, collate: Collation)
    requires CasesApart(before, after, collate)
    ensures var u := CaseDiff(before, after, collate).updated;
      Sorted(u, UpdateLe(collate)) && Separated(u, UpdateLe(collate)) && Distinct(u) && TotalPreorder(UpdateLe(collate))
  {
    CasesApartAreUnique(before, after, collate);
    hide UniqueKeys, CaseFingerprint, ById, ChangedPairs, Absent, Apart, Separated;
    UpdateLeIsPreorder(collate);
    SortByIsSorted(ChangedPairs(before.cases, CaseId, ById(after.cases, CaseId), CaseDiffers(before, after, collate)),
                   UpdateLe(collate));
    CaseDiffIsUnique(before, after, collate);
    UniqueIsDistinct(CaseDiff(before, after, collate).updated, BeforeId);
    CaseUpdatesApart(before, after, collate);
  }

  lemma SwappedUpdates(before: DiffCatalog, after: DiffCatalog, collate: Collation)
    requires UniqueKeys(before.cases, CaseId) && UniqueKeys(after.cases, CaseId)
    ensures var u, v := CaseDiff(before, after, collate).updated, CaseDiff(after, before, collate).updated;
      && (forall p :: p in Map(u, Swap) <==> p in v)
      && (forall i :: 0 <= i < |u| ==> u[i].0.id == u[i].1.id)
  {
    hide UniqueKeys, CaseFingerprint, CaseDiff;
    var u, v := CaseDiff(before, after, collate).updated, CaseDiff(after, before, collate).updated;
    forall p ensures p in Map(u, Swap) <==> p in v {
      CasesUpdatedAre(after, before, collate, p);
      CasesUpdatedAre(before, after, collate, Swap(p));
      if p in Map(u, Swap) {
        var q := InMap(u, Swap, p);
      }
      if Swap(p) in u {
        MapHas(u, Swap, Swap(p));
      }
    }
    forall i | 0 <= i < |u| ensures u[i].0.id == u[i].1.id {
      CasesUpdatedAre(before, after, collate, u[i]);
    }
  }

  lemma SwapKeepsSorted(u: seq<(DiffCase, DiffCase)>, collate: Collation)
    requires Sorted(u, UpdateLe(collate)) && Distinct(u) && forall i :: 0 <= i < |u| ==> u[i].0.id == u[i].1.id
    ensures Sorted(Map(u, Swap), UpdateLe(collate)) && Distinct(Map(u, Swap))
  {
  }

  /** Swapping two catalogs swaps added and removed cases and reverses each update, list for list. */
  lemma CaseDiffSwaps(before: DiffCatalog, after: DiffCatalog, collate: Collation)
    requires CasesApart(before, after, collate)
    ensures CaseDiff(after, before, collate) == SwapChanges(CaseDiff(before, after, collate))
  {
    CasesApartAreUnique(before, after, collate);
    var u, v := CaseDiff(before, after, collate).updated, CaseDiff(after, before, collate).updated;
    assert CaseDiff(after, before, collate).added == CaseDiff(before, after, collate).removed;
    assert CaseDiff(after, before, collate).removed == CaseDiff(before, after, collate).added;
    hide CaseDiff, UniqueKeys, Map, TotalPreorder, Apart;
    CaseUpdatesSorted(before, after, collate);
    CaseUpdatesSorted(after, before, collate);
    SwappedUpdates(before, after, collate);
    SwapKeepsSorted(u, collate);
    DistinctSameSet(Map(u, Swap), v);
    assert Separated(Map(u, Swap), UpdateLe(collate));
    SortedIsUnique(Map(u, Swap), v, UpdateLe(collate));
  }

  lemma UpdateSwaps(base: seq<DiffCatalog>, head: seq<DiffCatalog>, collate: Collation, e: UpdatedCatalog)
    requires TotalPreorder(collate) && IdsApart(base, collate) && IdsApart(head, collate) &&
      IsUpdate(base, head, e, collate)
    ensures IsUpdate(head, base, SwapEntry(e), collate)
  {
    hide CaseDiff, UniqueKeys, TotalPreorder, Apart, HeaderFingerprint;
    CaseDiffSwaps(e.before, e.after, collate);
  }

  lemma SwapTwice(e: UpdatedCatalog)
    ensures SwapEntry(SwapEntry(e)) == e
  {
    var u := e.cases.updated;
    assert Map(Map(u, Swap), Swap) == u;
  }

  lemma SwappedEntries(base: seq<DiffCatalog>, head: seq<DiffCatalog>, collate: Collation, e: UpdatedCatalog)
    requires TotalPreorder(collate) && IdsApart(base, collate) && IdsApart(head, collate)
    ensures e in DiffOf(base, head, collate).updated <==> SwapEntry(e) in DiffOf(head, base, collate).updated
  {
    IdsApartAreUnique(base, collate);
    IdsApartAreUnique(head, collate);
    hide DiffOf, CaseDiff, UniqueKeys, TotalPreorder, IdsApart, HeaderFingerprint;
    UpdatedAre(base, head, collate, e);
    UpdatedAre(head, base, collate, SwapEntry(e));
    SwapTwice(e);
    if IsUpdate(base, head, e, collate) {
      UpdateSwaps(base, head, collate, e);
    }
    if IsUpdate(head, base, SwapEntry(e), collate) {
      UpdateSwaps(head, base, collate, SwapEntry(e));
    }
  }

  lemma SwapKeepsUnique(es: seq<UpdatedCatalog>)
    requires UniqueKeys(es, EntryId)
    ensures Distinct(es) && Distinct(Map(es, SwapEntry))
  {
    hide SwapChanges;
    var swapped := Map(es, SwapEntry);
    forall i, j | 0 <= i < j < |es| ensures es[i] != es[j] && swapped[i] != swapped[j] {
      assert EntryId(swapped[i]) == EntryId(es[i]) && EntryId(swapped[j]) == EntryId(es[j]);
    }
  }

  /** The updated entries of the two diffs are as many. */
  lemma SwappedEntriesCount(es: seq<UpdatedCatalog>, es': seq<UpdatedCatalog>)
    requires UniqueKeys(es, EntryId) && UniqueKeys(es', EntryId) && forall e :: e in es <==> SwapEntry(e) in es'
    ensures |es| == |es'|
  {
    SwapKeepsUnique(es);
    SwapKeepsUnique(es');
    hide SwapEntry, UniqueKeys, Distinct;
    forall e ensures e in Map(es, SwapEntry) <==> e in es' {
      SwapTwice(e);
      if e in Map(es, SwapEntry) {
        var q := InMap(es, SwapEntry, e);
      }
      if SwapEntry(e) in es {
        MapHas(es, SwapEntry, SwapEntry(e));
      }
    }
    DistinctSameSet(Map(es, SwapEntry), es');
    SameElements(Map(es, SwapEntry), es');
  }

  /** Swapping base and head swaps added and removed catalogs, reverses the updated ones, and swaps the counts. */
  lemma DiffSwaps(base: seq<DiffCatalog>, head: seq<DiffCatalog>, collate: Collation)
    requires TotalPreorder(collate) && IdsApart(base, collate) && IdsApart(head, collate)
    ensures var d, s := DiffOf(base, head, collate), DiffOf(head, base, collate);
      && s.added == d.removed && s.removed == d.added
      && (forall e :: e in d.updated <==> SwapEntry(e) in s.updated)
      && s.catalogCounts == Counts(d.catalogCounts.removed, d.catalogCounts.added, d.catalogCounts.updated)
      && s.caseCounts == Counts(d.caseCounts.removed, d.caseCounts.added, d.caseCounts.updated)
      && s.baseTotals == d.headTotals && s.headTotals == d.baseTotals
  {
    IdsApartAreUnique(base, collate);
    IdsApartAreUnique(head, collate);
    var d, s := DiffOf(base, head, collate), DiffOf(head, base, collate);
    hide TotalPreorder, DiffOf, CaseKeys, ChangedKeys, IdsApart, SwapEntry;
    CatalogListsSwap(base, head, collate);
    forall e ensures e in d.updated <==> SwapEntry(e) in s.updated {
      SwappedEntries(base, head, collate, e);
    }
    DiffIsUnique(base, head, collate);
    DiffIsUnique(head, base, collate);
    hide UniqueKeys, UniqueIds;
    SwappedEntriesCount(d.updated, s.updated);
    SummaryIsExact(base, head, collate);
    SummaryIsExact(head, base, collate);
    ChangedEitherWay(base, head, collate);
  }

  lemma CatalogListsSwap(base: seq<DiffCatalog>, head: seq<DiffCatalog>, collate: Collation)
    ensures var d, s := DiffOf(base, head, collate), DiffOf(head, base, collate);
      && s.added == d.removed && s.removed == d.added
      && d.catalogCounts == Counts(|d.added|, |d.removed|, |d.updated|)
      && s.catalogCounts == Counts(|s.added|, |s.removed|, |s.updated|)
  {
    hide CaseDiff, ById, Absent, Sum, UpdatedEntries;
  }

  lemma ChangedEitherWay(base: seq<DiffCatalog>, head: seq<DiffCatalog>, collate: Collation)
    ensures ChangedKeys(base, head, collate) == ChangedKeys(head, base, collate)
  {
    hide CaseKeys, FingerprintMap;
  }

  // ------------------------------------------------------- a side against itself

  lemma SomeMember<T(!new)>(s: seq<T>)
    ensures s != [] ==> exists x :: x in s
  {
    if s != [] {
      assert s[0] in s;
    }
  }

  /** `x` is the last entry of `s` with its id: the one the map keeps. */
  ghost predicate IsLast<T(!new)>(s: seq<T>, key: T -> string, x: T) {
    exists i :: 0 <= i < |s| && s[i] == x && forall j :: i < j < |s| ==> key(s[j]) != key(x)
  }

  lemma {:induction false} ByIdIsLast<T(!new)>(s: seq<T>, key: T -> string, id: string)
    requires id in ById(s, key)
    ensures IsLast(s, key, ById(s, key)[id])
  {
    var n := |s| - 1;
    if key(s[n]) == id {
      assert s[n] == ById(s, key)[id];
    } else {
      ByIdIsLast(s[..n], key, id);
      LastBeforeOther(s, n, key, ById(s[..n], key)[id]);
    }
  }

  lemma LastBeforeOther<T(!new)>(s: seq<T>, n: nat, key: T -> string, x: T)
    requires |s| == n + 1 && IsLast(s[..n], key, x) && key(s[n]) != key(x)
    ensures IsLast(s, key, x)
  {
    var i :| 0 <= i < n && s[..n][i] == x && forall j :: i < j < n ==> key(s[..n][j]) != key(x);
    forall j | i < j < |s| ensures key(s[j]) != key(x) {
      assert j < n ==> s[j] == s[..n][j];
    }
  }

  lemma LastIsById<T(!new)>(s: seq<T>, key: T -> string, x: T)
    requires IsLast(s, key, x)
    ensures key(x) in ById(s, key) && ById(s, key)[key(x)] == x
  {
    ByIdIsLast(s, key, key(x));
  }

  /** `c` shows the evidence of `d`: its header, its case ids, and the fingerprints of its last cases. */
  ghost predicate ShowsSame(c: DiffCatalog, d: DiffCatalog, collate: Collation) {
    && HeaderFingerprint(c, collate) == HeaderFingerprint(d, collate)
    && (forall id :: HasCase(c, id) <==> HasCase(d, id))
    && forall t, u :: t in c.cases && IsLast(d.cases, CaseId, u) && t.id == u.id ==>
         CaseFingerprint(c, t, collate) == CaseFingerprint(d, u, collate)
  }

  lemma SameCaseIdsIff(c: DiffCatalog, d: DiffCatalog, collate: Collation)
    ensures var r := CaseDiff(c, d, collate);
      r.added == r.removed == [] <==> forall id :: HasCase(c, id) <==> HasCase(d, id)
  {
    hide CaseDiff;
    var r := CaseDiff(c, d, collate);
    forall t ensures t in r.added <==> t in d.cases && !HasCase(c, t.id)
      ensures t in r.removed <==> t in c.cases && !HasCase(d, t.id)
    {
      CasesAddedAre(c, d, collate, t);
    }
    SomeMember(r.added);
    SomeMember(r.removed);
  }

  lemma NoUpdatesIff(c: DiffCatalog, d: DiffCatalog, collate: Collation)
    ensures CaseDiff(c, d, collate).updated == [] <==>
      forall t, u :: t in c.cases && IsLast(d.cases, CaseId, u) && t.id == u.id ==>
        CaseFingerprint(c, t, collate) == CaseFingerprint(d, u, collate)
  {
    hide ById, Absent, ChangedPairs, SortBy, CaseFingerprint, IsLast;
    var ids := ById(d.cases, CaseId);
    var pairs := ChangedPairs(c.cases, CaseId, ids, CaseDiffers(c, d, collate));
    assert CaseDiff(c, d, collate).updated == SortBy(pairs, UpdateLe(collate));
    hide CaseDiff;
    SomeMember(pairs);
    if pairs == [] {
      forall t, u | t in c.cases && IsLast(d.cases, CaseId, u) && t.id == u.id
        ensures CaseFingerprint(c, t, collate) == CaseFingerprint(d, u, collate)
      {
        LastIsById(d.cases, CaseId, u);
        assert (t, u) !in pairs;
      }
    } else {
      var p :| p in pairs;
      ByIdIsLast(d.cases, CaseId, p.0.id);
      assert p.1.id == p.0.id;
    }
  }

  lemma DiffersIff(c: DiffCatalog, d: DiffCatalog, collate: Collation)
    ensures CatalogDiffers(collate)(c, d) <==> !ShowsSame(c, d, collate)
  {
    hide CaseDiff, HeaderFingerprint, CaseFingerprint, IsLast, HasCase;
    SameCaseIdsIff(c, d, collate);
    NoUpdatesIff(c, d, collate);
  }

  /**
   * When a side diffed with itself shows nothing, ids repeated or not: exactly when every catalog shows the same
   * evidence as the last one with its id. Nothing is ever added or removed.
   */
  lemma SelfDiffEmptyIff(cs: seq<DiffCatalog>, collate: Collation)
    ensures var d := DiffOf(cs, cs, collate);
      && d.added == [] && d.removed == [] && d.catalogCounts == Counts(0, 0, |d.updated|)
      && (d.updated == [] <==> forall c, last ::
           c in cs && IsLast(cs, CatalogId, last) && c.catalogId == last.catalogId ==> ShowsSame(c, last, collate))
      && (d.updated == [] ==> d.caseCounts == Counts(0, 0, 0))
  {
    var d := DiffOf(cs, cs, collate);
    var ids := ById(cs, CatalogId);
    var pairs := ChangedPairs(cs, CatalogId, ids, CatalogDiffers(collate));
    var entries := UpdatedEntries(cs, cs, collate);
    assert d.updated == SortBy(entries, ByKindAfter(collate)) && |entries| == |pairs|;
    SelfListsAreEmpty(cs, collate);
    hide DiffOf, ById, ChangedPairs, UpdatedEntries, SortBy, CatalogDiffers, ShowsSame, IsLast;
    SomeMember(pairs);
    if pairs == [] {
      forall c, last | c in cs && IsLast(cs, CatalogId, last) && c.catalogId == last.catalogId
        ensures ShowsSame(c, last, collate)
      {
        LastIsById(cs, CatalogId, last);
        assert (c, last) !in pairs;
        DiffersIff(c, last, collate);
      }
    } else {
      var p :| p in pairs;
      ByIdIsLast(cs, CatalogId, p.0.catalogId);
      DiffersIff(p.0, p.1, collate);
    }
  }

  lemma SelfListsAreEmpty(cs: seq<DiffCatalog>, collate: Collation)
    ensures var d := DiffOf(cs, cs, collate);
      && d.added == [] && d.removed == [] && d.catalogCounts == Counts(0, 0, |d.updated|)
      && (d.updated == [] ==> d.caseCounts == Counts(0, 0, 0))
  {
    hide DiffOf, Sum;
    var d := DiffOf(cs, cs, collate);
    forall c ensures c !in d.added && c !in d.removed {
      AddedAre(cs, cs, collate, c);
    }
    SomeMember(d.added);
    SomeMember(d.removed);
    CatalogListsSwap(cs, cs, collate);
    CountsArePartSums(cs, cs, collate);
    EmptySums();
  }

  /** A side whose ids are unique, diffed with itself: every list is empty and every change count is zero. */
  lemma DiffWithItself(cs: seq<DiffCatalog>, collate: Collation)
    requires UniqueIds(cs)
    ensures var d := DiffOf(cs, cs, collate);
      d.added == [] && d.removed == [] && d.updated == [] && d.catalogCounts == d.caseCounts == Counts(0, 0, 0)
  {
    hide DiffOf, UniqueKeys, CaseFingerprint, HeaderFingerprint;
    forall c, last | c in cs && IsLast(cs, CatalogId, last) && c.catalogId == last.catalogId
      ensures ShowsSame(c, last, collate)
    {
      UniqueMeansSame(cs, CatalogId, c, last);
      forall t, u | t in c.cases && IsLast(c.cases, CaseId, u) && t.id == u.id ensures t == u {
        UniqueMeansSame(c.cases, CaseId, t, u);
      }
    }
    SelfDiffEmptyIff(cs, collate);
  }

  lemma EmptySums()
    ensures forall s: seq<DiffCatalog> :: s == [] ==> Sum(s, TestCount) == 0
  {
  }

  /** Why unique ids matter: with a repeated id the map keeps the last catalog, and the first differs from it. */
  lemma RepeatedIdIsNoSelfDiff(c: DiffCatalog, t: DiffCase, collate: Collation)
    ensures var cs := [c.(cases := [t]), c.(cases := [])]; var d := DiffOf(cs, cs, collate);
      cs[0].catalogId == cs[1].catalogId && d.catalogCounts.updated > 0 && d.updated != []
  {
    var first, last := c.(cases := [t]), c.(cases := []);
    var cs := [first, last];
    hide CaseDiff, HeaderFingerprint, SortBy, Sum, Absent, ChangedPairs;
    var ids := ById(cs, CatalogId);
    assert cs[..1] == [first] && ids[c.catalogId] == last;
    CasesAddedAre(first, last, collate, t);
    assert t in CaseDiff(first, last, collate).removed;
    assert (first, last) in ChangedPairs(cs, CatalogId, ids, CatalogDiffers(collate));
  }
}
