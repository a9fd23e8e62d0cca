/** The numbers a diff reports: each case is listed once, and totals are conserved. */
module EvidenceCounts {
  import opened StableSort
  import opened LocaleJson
  import opened EvidencePreview
  import opened Keyed
  import opened EvidenceDiff
  import opened EvidencePatch

  // ------------------------------------------------------ nothing listed twice

  lemma MapIsUnique<S(!new), T(!new)>(s: seq<S>, f: S -> T, keyS: S -> string, keyT: T -> string)
    requires UniqueKeys(s, keyS) && forall x :: x in s ==> keyT(f(x)) == keyS(x)
    ensures UniqueKeys(Map(s, f), keyT)
  {
    forall i, j | 0 <= i < j < |s| ensures keyT(Map(s, f)[i]) != keyT(Map(s, f)[j]) {
      assert s[i] in s && s[j] in s;
    }
  }

  lemma EntryIds(base: seq<DiffCatalog>, head: seq<DiffCatalog>, collate: Collation, e: UpdatedCatalog)
    requires UniqueKeys(head, CatalogId) && e in DiffOf(base, head, collate).updated
    ensures e.before in base && e.after in head && e.catalogId == e.before.catalogId == e.after.catalogId
    ensures e.cases == CaseDiff(e.before, e.after, collate)
  {
    hide DiffOf, CaseDiff, HeaderFingerprint, UniqueKeys;
    UpdatedAre(base, head, collate, e);
  }

  /** Added cases: no catalog and no case appears twice. */
  lemma AddedListedOnce(base: seq<DiffCatalog>, head: seq<DiffCatalog>, collate: Collation)
    requires UniqueIds(base) && UniqueIds(head)
    ensures UniqueIds(AddedCases(DiffOf(base, head, collate)))
  {
    hide DiffOf, CaseDiff, UniqueKeys, Map;
    var d := DiffOf(base, head, collate);
    DiffIsUnique(base, head, collate);
    var parts := Map(d.updated, AddedPart);
    forall e | e in d.updated ensures CatalogId(AddedPart(e)) == EntryId(e) && UniqueKeys(AddedPart(e).cases, CaseId) {
      EntryIds(base, head, collate, e);
      CaseDiffIsUnique(e.before, e.after, collate);
    }
    MapIsUnique(d.updated, AddedPart, EntryId, CatalogId);
    forall c | c in parts ensures UniqueKeys(c.cases, CaseId) && HasCatalog(base, c.catalogId) {
      var e := InMap(d.updated, AddedPart, c);
      EntryIds(base, head, collate, e);
    }
    forall c | c in d.added ensures UniqueKeys(c.cases, CaseId) && !HasCatalog(base, c.catalogId) {
      AddedAre(base, head, collate, c);
    }
    UniqueConcat(d.added, parts, CatalogId);
  }

  lemma RemovedListedOnce(base: seq<DiffCatalog>, head: seq<DiffCatalog>, collate: Collation)
    requires UniqueIds(base) && UniqueIds(head)
    ensures UniqueIds(RemovedCases(DiffOf(base, head, collate)))
  {
    hide DiffOf, CaseDiff, UniqueKeys, Map;
    var d := DiffOf(base, head, collate);
    DiffIsUnique(base, head, collate);
    var parts := Map(d.updated, RemovedPart);
    forall e | e in d.updated
      ensures CatalogId(RemovedPart(e)) == EntryId(e) && UniqueKeys(RemovedPart(e).cases, CaseId)
    {
      EntryIds(base, head, collate, e);
      CaseDiffIsUnique(e.before, e.after, collate);
    }
    MapIsUnique(d.updated, RemovedPart, EntryId, CatalogId);
    forall c | c in parts ensures UniqueKeys(c.cases, CaseId) && HasCatalog(head, c.catalogId) {
      var e := InMap(d.updated, RemovedPart, c);
      EntryIds(base, head, collate, e);
    }
    forall c | c in d.removed ensures UniqueKeys(c.cases, CaseId) && !HasCatalog(head, c.catalogId) {
      AddedAre(base, head, collate, c);
    }
    UniqueConcat(d.removed, parts, CatalogId);
  }

  lemma ChangedPartIsUnique(e: UpdatedCatalog, collate: Collation)
    requires e.cases == CaseDiff(e.before, e.after, collate)
    requires UniqueKeys(e.before.cases, CaseId) && UniqueKeys(e.after.cases, CaseId)
    ensures UniqueKeys(ChangedPart(e).cases, CaseId)
  {
    hide CaseDiff, UniqueKeys, CaseFingerprint;
    CaseDiffIsUnique(e.before, e.after, collate);
    forall p | p in e.cases.updated ensures CaseId(SecondOf(p)) == BeforeId(p) {
      CasesUpdatedAre(e.before, e.after, collate, p);
    }
    MapIsUnique(e.cases.updated, SecondOf, BeforeId, CaseId);
  }

  lemma ChangedListedOnce(base: seq<DiffCatalog>, head: seq<DiffCatalog>, collate: Collation)
    requires UniqueIds(base) && UniqueIds(head)
    ensures UniqueIds(ChangedCases(DiffOf(base, head, collate)))
  {
    hide DiffOf, CaseDiff, UniqueKeys, Map;
    var d := DiffOf(base, head, collate);
    DiffIsUnique(base, head, collate);
    forall e | e in d.updated
      ensures CatalogId(ChangedPart(e)) == EntryId(e) && UniqueKeys(ChangedPart(e).cases, CaseId)
    {
      EntryIds(base, head, collate, e);
      ChangedPartIsUnique(e, collate);
    }
    MapIsUnique(d.updated, ChangedPart, EntryId, CatalogId);
    forall c | c in ChangedCases(d) ensures UniqueKeys(c.cases, CaseId) {
      var e := InMap(d.updated, ChangedPart, c);
    }
  }

  // ---------------------------------------------------------------- counting

  ghost function KeysOf(c: DiffCatalog): set<CaseKey> {
    set t | t in c.cases :: (c.catalogId, t.id)
  }

  lemma {:induction false} KeysOfCounts(c: DiffCatalog)
    requires UniqueKeys(c.cases, CaseId)
    ensures |KeysOf(c)| == |c.cases|
    decreases |c.cases|
  {
    if c.cases == [] {
      assert KeysOf(c) == {};
    } else {
      var n := |c.cases| - 1;
      var rest := c.(cases := c.cases[..n]);
      var k := (c.catalogId, c.cases[n].id);
      KeysOfCounts(rest);
      assert c.cases == rest.cases + [c.cases[n]];
      assert KeysOf(c) == KeysOf(rest) + {k};
      forall t | t in rest.cases ensures t.id != c.cases[n].id {
        var i :| 0 <= i < n && c.cases[i] == t;
        assert CaseId(c.cases[i]) != CaseId(c.cases[n]);
      }
      assert k !in KeysOf(rest);
    }
  }

  lemma CaseKeysGrow(cs: seq<DiffCatalog>, c: DiffCatalog)
    requires UniqueIds(cs + [c])
    ensures UniqueIds(cs) && UniqueKeys(c.cases, CaseId)
    ensures CaseKeys(cs + [c]) == CaseKeys(cs) + KeysOf(c) && CaseKeys(cs) !! KeysOf(c)
  {
    var all := cs + [c];
    assert c in all && forall d :: d in all <==> d in cs || d == c;
    assert UniqueKeys(cs, CatalogId) by {
      assert forall i :: 0 <= i < |cs| ==> all[i] == cs[i];
    }
    forall d | d in cs ensures d.catalogId != c.catalogId {
      var i :| 0 <= i < |cs| && cs[i] == d;
      assert CatalogId(all[i]) != CatalogId(all[|cs|]);
    }
    forall k ensures k in CaseKeys(all) <==> k in CaseKeys(cs) + KeysOf(c) {
      CaseKeysAre(all, k);
      CaseKeysAre(cs, k);
      if k in CaseKeys(all) {
        var d, t :| IsCase(all, k, d, t);
        assert d == c || IsCase(cs, k, d, t);
      }
    }
    forall k | k in CaseKeys(cs) ensures k !in KeysOf(c) {
      CaseKeysAre(cs, k);
    }
  }

  /** With unique ids, the number of tests on a side is the number of its case keys. */
  lemma {:induction false} TestsAreKeys(cs: seq<DiffCatalog>)
    requires UniqueIds(cs)
    ensures Sum(cs, TestCount) == |CaseKeys(cs)|
  {
    if cs == [] {
      assert CaseKeys(cs) == {};
    } else {
      hide CaseKeys, KeysOf, UniqueKeys;
      var rest, c := cs[..|cs| - 1], cs[|cs| - 1];
      assert cs == rest + [c];
      CaseKeysGrow(rest, c);
      TestsAreKeys(rest);
      KeysOfCounts(c);
    }
  }

  lemma {:induction false} SumOfMap<S(!new), T(!new)>(s: seq<S>, f: S -> T, w: T -> nat, v: S -> nat)
    requires forall x :: x in s ==> w(f(x)) == v(x)
    ensures Sum(Map(s, f), w) == Sum(s, v)
  {
    if s != [] {
      var rest := s[..|s| - 1];
      assert forall x :: x in rest ==> x in s;
      SumOfMap(rest, f, w, v);
      assert Map(s, f)[..|s| - 1] == Map(rest, f) && s[|s| - 1] in s;
    }
  }

  lemma PartSums(updated: seq<UpdatedCatalog>)
    ensures Sum(Map(updated, AddedPart), TestCount) == Sum(updated, AddedCount)
    ensures Sum(Map(updated, RemovedPart), TestCount) == Sum(updated, RemovedCount)
    ensures Sum(Map(updated, ChangedPart), TestCount) == Sum(updated, UpdatedCount)
  {
    SumOfMap(updated, AddedPart, TestCount, AddedCount);
    SumOfMap(updated, RemovedPart, TestCount, RemovedCount);
    SumOfMap(updated, ChangedPart, TestCount, UpdatedCount);
  }

  /** The sums the source takes before sorting are sums over the parts of the finished diff. */
  lemma CountsArePartSums(base: seq<DiffCatalog>, head: seq<DiffCatalog>, collate: Collation)
    ensures var d := DiffOf(base, head, collate);
      && d.caseCounts == Counts(Sum(AddedCases(d), TestCount), Sum(RemovedCases(d), TestCount),
           Sum(ChangedCases(d), TestCount))
      && d.catalogCounts == Counts(|d.added|, |d.removed|, |d.updated|)
      && d.baseTotals == TotalsOf(base) && d.headTotals == TotalsOf(head)
  {
    hide Sum, SortBy, UpdatedEntries, Absent, ById, Map;
    var d := DiffOf(base, head, collate);
    var added, removed := Absent(head, CatalogId, ById(base, CatalogId)),
      Absent(base, CatalogId, ById(head, CatalogId));
    var updated := UpdatedEntries(base, head, collate);
    SumUnderPermutation(added, d.added, TestCount);
    SumUnderPermutation(removed, d.removed, TestCount);
    SumUnderPermutation(updated, d.updated, AddedCount);
    SumUnderPermutation(updated, d.updated, RemovedCount);
    SumUnderPermutation(updated, d.updated, UpdatedCount);
    PartSums(d.updated);
    SumAppend(d.added, Map(d.updated, AddedPart), TestCount);
    SumAppend(d.removed, Map(d.updated, RemovedPart), TestCount);
  }

  /** The summary counts exactly the cases that came, went and changed; the totals count the cases of each side. */
  lemma SummaryIsExact(base: seq<DiffCatalog>, head: seq<DiffCatalog>, collate: Collation)
    requires UniqueIds(base) && UniqueIds(head)
    ensures var d := DiffOf(base, head, collate);
      && d.caseCounts == Counts(|CaseKeys(head) - CaseKeys(base)|, |CaseKeys(base) - CaseKeys(head)|,
           |ChangedKeys(base, head, collate)|)
      && d.baseTotals == Totals(|base|, |CaseKeys(base)|) && d.headTotals == Totals(|head|, |CaseKeys(head)|)
  {
    hide DiffOf, Sum, UniqueIds, CaseKeys, ChangedKeys, AddedCases, RemovedCases, ChangedCases;
    var d := DiffOf(base, head, collate);
    CountsArePartSums(base, head, collate);
    DiffListsExactly(base, head, collate);
    AddedListedOnce(base, head, collate);
    RemovedListedOnce(base, head, collate);
    ChangedListedOnce(base, head, collate);
    TestsAreKeys(AddedCases(d));
    TestsAreKeys(RemovedCases(d));
    TestsAreKeys(ChangedCases(d));
    TestsAreKeys(base);
    TestsAreKeys(head);
  }

  lemma SetSizes<T>(a: set<T>, b: set<T>)
    ensures |a| - |b| == |a - b| - |b - a|
  {
    assert a == (a - b) + (a * b) && b == (b - a) + (a * b);
    assert |a| == |a - b| + |a * b|;
    assert |b| == |b - a| + |a * b|;
  }

  ghost function CatalogIds(cs: seq<DiffCatalog>): set<string> {
    set c | c in cs :: c.catalogId
  }

  lemma {:induction false} CatalogIdsCount(cs: seq<DiffCatalog>)
    requires UniqueKeys(cs, CatalogId)
    ensures |CatalogIds(cs)| == |cs|
  {
    if cs == [] {
      assert CatalogIds(cs) == {};
    } else {
      var rest, c := cs[..|cs| - 1], cs[|cs| - 1];
      assert cs == rest + [c];
      CatalogIdsCount(rest);
      assert CatalogIds(cs) == CatalogIds(rest) + {c.catalogId};
      forall d | d in rest ensures d.catalogId != c.catalogId {
        var i :| 0 <= i < |rest| && cs[i] == d;
        assert CatalogId(cs[i]) != CatalogId(cs[|cs| - 1]);
      }
    }
  }

  /** Whole catalogs: those listed as added and removed are exactly those that came and went. */
  lemma CatalogListsExactly(base: seq<DiffCatalog>, head: seq<DiffCatalog>, collate: Collation)
    requires UniqueIds(base) && UniqueIds(head)
    ensures var d := DiffOf(base, head, collate);
      && CatalogIds(d.added) == CatalogIds(head) - CatalogIds(base) && |d.added| == |CatalogIds(d.added)|
      && CatalogIds(d.removed) == CatalogIds(base) - CatalogIds(head) && |d.removed| == |CatalogIds(d.removed)|
  {
    hide DiffOf, UniqueKeys;
    var d := DiffOf(base, head, collate);
    DiffIsUnique(base, head, collate);
    CatalogIdsCount(d.added);
    CatalogIdsCount(d.removed);
    forall c {:trigger c in head} {:trigger c in base}
      ensures c in d.added <==> c in head && !HasCatalog(base, c.catalogId)
      ensures c in d.removed <==> c in base && !HasCatalog(head, c.catalogId)
    {
      AddedAre(base, head, collate, c);
    }
    assert forall id :: id in CatalogIds(base) <==> HasCatalog(base, id);
    assert forall id :: id in CatalogIds(head) <==> HasCatalog(head, id);
  }

  /** What the head has more than the base, in catalogs and in tests, is what the summary adds less what it removes. */
  lemma DiffConserves(base: seq<DiffCatalog>, head: seq<DiffCatalog>, collate: Collation)
    requires UniqueIds(base) && UniqueIds(head)
    ensures var d := DiffOf(base, head, collate);
      && d.headTotals.tests - d.baseTotals.tests == d.caseCounts.added - d.caseCounts.removed
      && d.headTotals.catalogs - d.baseTotals.catalogs == d.catalogCounts.added - d.catalogCounts.removed
  {
    hide DiffOf, UniqueKeys, CaseKeys, CatalogIds, ChangedKeys, Sum;
    SummaryIsExact(base, head, collate);
    SetSizes(CaseKeys(head), CaseKeys(base));
    CountsArePartSums(base, head, collate);
    CatalogListsExactly(base, head, collate);
    CatalogIdsCount(base);
    CatalogIdsCount(head);
    SetSizes(CatalogIds(head), CatalogIds(base));
  }
}
