/** The diff as a patch: which cases it lists, and that applying it to the base gives the head. */
module EvidencePatch {
  import opened StableSort
  import opened LocaleJson
  import opened EvidencePreview
  import opened Keyed
  import opened EvidenceDiff

  /** Catalog ids are unique on a side, and case ids in a catalog; the preview validator does not ensure it. */
  ghost predicate UniqueIds(cs: seq<DiffCatalog>) {
    UniqueKeys(cs, CatalogId) && forall c :: c in cs ==> UniqueKeys(c.cases, CaseId)
  }

  /** Unique ids that the locale does not tie either. */
  ghost predicate IdsApart(cs: seq<DiffCatalog>, collate: Collation) {
    Apart(cs, CatalogId, collate) && forall c :: c in cs ==> Apart(c.cases, CaseId, collate)
  }

  lemma IdsApartAreUnique(cs: seq<DiffCatalog>, collate: Collation)
    requires TotalPreorder(collate) && IdsApart(cs, collate)
    ensures UniqueIds(cs)
  {
    hide Apart, UniqueKeys, TotalPreorder;
    ApartIsUnique(cs, CatalogId, collate);
    forall c | c in cs ensures UniqueKeys(c.cases, CaseId) {
      ApartIsUnique(c.cases, CaseId, collate);
    }
  }

  ghost predicate HasCatalog(cs: seq<DiffCatalog>, id: string) {
    exists c :: c in cs && c.catalogId == id
  }

  ghost predicate HasCase(c: DiffCatalog, id: string) {
    exists t :: t in c.cases && t.id == id
  }

  type CaseKey = (string, string)

  ghost predicate IsCase(cs: seq<DiffCatalog>, k: CaseKey, c: DiffCatalog, t: DiffCase) {
    c in cs && t in c.cases && k == (c.catalogId, t.id)
  }

  ghost function CaseKeys(cs: seq<DiffCatalog>): set<CaseKey> {
    set c, t | c in cs && t in c.cases :: (c.catalogId, t.id)
  }

  lemma CaseKeysAre(cs: seq<DiffCatalog>, k: CaseKey)
    ensures k in CaseKeys(cs) <==> exists c, t :: IsCase(cs, k, c, t)
  {
    if k in CaseKeys(cs) {
      var c, t :| c in cs && t in c.cases && k == (c.catalogId, t.id);
      assert IsCase(cs, k, c, t);
    }
  }

  ghost function FingerprintAt(cs: seq<DiffCatalog>, k: CaseKey, collate: Collation): string
    requires k in CaseKeys(cs)
  {
    CaseKeysAre(cs, k);
    var c, t :| IsCase(cs, k, c, t);
    CaseFingerprint(c, t, collate)
  }

  /** Every case of a side, with the fingerprint it has there. */
  ghost function FingerprintMap(cs: seq<DiffCatalog>, collate: Collation): map<CaseKey, string> {
    map k | k in CaseKeys(cs) :: FingerprintAt(cs, k, collate)
  }

  lemma MapKeys(cs: seq<DiffCatalog>, collate: Collation)
    ensures FingerprintMap(cs, collate).Keys == CaseKeys(cs)
  {
    hide CaseKeys, FingerprintAt;
  }

  lemma FingerprintIsOfACase(cs: seq<DiffCatalog>, k: CaseKey, collate: Collation) returns (c: DiffCatalog, t: DiffCase)
    requires k in CaseKeys(cs)
    ensures IsCase(cs, k, c, t) && FingerprintMap(cs, collate)[k] == CaseFingerprint(c, t, collate)
  {
    hide CaseFingerprint, CaseKeys;
    CaseKeysAre(cs, k);
    c, t :| IsCase(cs, k, c, t) && FingerprintAt(cs, k, collate) == CaseFingerprint(c, t, collate);
  }

  lemma CaseIsFound(cs: seq<DiffCatalog>, k: CaseKey, c: DiffCatalog, t: DiffCase, collate: Collation)
    requires UniqueIds(cs) && IsCase(cs, k, c, t)
    ensures k in CaseKeys(cs) && FingerprintMap(cs, collate)[k] == CaseFingerprint(c, t, collate)
  {
    hide CaseFingerprint, UniqueKeys, FingerprintAt;
    CaseKeysAre(cs, k);
    var c', t' := FingerprintIsOfACase(cs, k, collate);
    assert c' in cs && CatalogId(c') == CatalogId(c) && CaseId(t') == CaseId(t);
    UniqueMeansSame(cs, CatalogId, c, c');
    UniqueMeansSame(c.cases, CaseId, t, t');
  }

  // ----------------------------------------------- what the lists of a diff hold

  lemma ByIdHas(cs: seq<DiffCatalog>, id: string)
    ensures id in ById(cs, CatalogId) <==> HasCatalog(cs, id)
  {
    if HasCatalog(cs, id) {
      var c :| c in cs && c.catalogId == id;
      assert CatalogId(c) in ById(cs, CatalogId);
    }
  }

  lemma AddedAre(base: seq<DiffCatalog>, head: seq<DiffCatalog>, collate: Collation, c: DiffCatalog)
    ensures c in DiffOf(base, head, collate).added <==> c in head && !HasCatalog(base, c.catalogId)
    ensures c in DiffOf(base, head, collate).removed <==> c in base && !HasCatalog(head, c.catalogId)
  {
    hide ById, Absent, UpdatedEntries, SortBy, Sum;
    var added, removed := Absent(head, CatalogId, ById(base, CatalogId)),
      Absent(base, CatalogId, ById(head, CatalogId));
    SameElements(added, SortBy(added, ByKind(collate)));
    SameElements(removed, SortBy(removed, ByKind(collate)));
    ByIdHas(base, c.catalogId);
    ByIdHas(head, c.catalogId);
  }

  ghost predicate IsUpdate(base: seq<DiffCatalog>, head: seq<DiffCatalog>, e: UpdatedCatalog, collate: Collation) {
    && e.before in base && e.after in head && e.before.catalogId == e.after.catalogId
    && e == EntryOf(collate)((e.before, e.after))
    && CatalogDiffers(collate)(e.before, e.after)
  }

  lemma UpdatedAre(base: seq<DiffCatalog>, head: seq<DiffCatalog>, collate: Collation, e: UpdatedCatalog)
    requires UniqueKeys(head, CatalogId)
    ensures e in DiffOf(base, head, collate).updated <==> IsUpdate(base, head, e, collate)
  {
    hide ById, Absent, ChangedPairs, SortBy, Sum, CaseDiff, HeaderFingerprint, UniqueKeys;
    var pairs := ChangedPairs(base, CatalogId, ById(head, CatalogId), CatalogDiffers(collate));
    var entries := UpdatedEntries(base, head, collate);
    SameElements(entries, SortBy(entries, ByKindAfter(collate)));
    if e in entries {
      var i :| 0 <= i < |entries| && entries[i] == e;
      assert pairs[i] in pairs;
    }
    if IsUpdate(base, head, e, collate) {
      ByIdFinds(head, CatalogId, e.after);
      var p := (e.before, e.after);
      assert p in pairs;
      var i :| 0 <= i < |pairs| && pairs[i] == p;
      assert entries[i] == e;
    }
  }

  lemma ByCaseIdHas(c: DiffCatalog, id: string)
    ensures id in ById(c.cases, CaseId) <==> HasCase(c, id)
  {
    if HasCase(c, id) {
      var t :| t in c.cases && t.id == id;
      assert CaseId(t) in ById(c.cases, CaseId);
    }
  }

  lemma CasesAddedAre(before: DiffCatalog, after: DiffCatalog, collate: Collation, t: DiffCase)
    ensures t in CaseDiff(before, after, collate).added <==> t in after.cases && !HasCase(before, t.id)
    ensures t in CaseDiff(before, after, collate).removed <==> t in before.cases && !HasCase(after, t.id)
  {
    hide ById, Absent, ChangedPairs, SortBy;
    var added, removed := Absent(after.cases, CaseId, ById(before.cases, CaseId)),
      Absent(before.cases, CaseId, ById(after.cases, CaseId));
    SameElements(added, SortBy(added, CaseLe(collate)));
    SameElements(removed, SortBy(removed, CaseLe(collate)));
    ByCaseIdHas(before, t.id);
    ByCaseIdHas(after, t.id);
  }

  lemma CasesUpdatedAre(before: DiffCatalog, after: DiffCatalog, collate: Collation, p: (DiffCase, DiffCase))
    requires UniqueKeys(after.cases, CaseId)
    ensures p in CaseDiff(before, after, collate).updated <==>
      p.0 in before.cases && p.1 in after.cases && p.0.id == p.1.id &&
      CaseFingerprint(before, p.0, collate) != CaseFingerprint(after, p.1, collate)
  {
    hide ById, Absent, ChangedPairs, SortBy, CaseFingerprint, UniqueKeys;
    var updated := ChangedPairs(before.cases, CaseId, ById(after.cases, CaseId), CaseDiffers(before, after, collate));
    SameElements(updated, SortBy(updated, UpdateLe(collate)));
    if p.1 in after.cases {
      ByIdFinds(after.cases, CaseId, p.1);
    }
  }

  // ----------------------------------------------------- ids stay unique in it

  lemma UniqueConcat<T(!new)>(s: seq<T>, t: seq<T>, key: T -> string)
    requires UniqueKeys(s, key) && UniqueKeys(t, key)
    requires forall x, y :: x in s && y in t ==> key(x) != key(y)
    ensures UniqueKeys(s + t, key)
  {
  }

  lemma SortedStaysUnique<T(!new)>(s: seq<T>, key: T -> string, le: (T, T) -> bool)
    requires UniqueKeys(s, key)
    ensures UniqueKeys(SortBy(s, le), key)
  {
    UniqueUnderPermutation(s, SortBy(s, le), key);
  }

  function BeforeId(p: (DiffCase, DiffCase)): string {
    p.0.id
  }

  function EntryId(e: UpdatedCatalog): string {
    e.catalogId
  }

  lemma CaseDiffIsUnique(before: DiffCatalog, after: DiffCatalog, collate: Collation)
    requires UniqueKeys(before.cases, CaseId) && UniqueKeys(after.cases, CaseId)
    ensures var r := CaseDiff(before, after, collate);
      UniqueKeys(r.added, CaseId) && UniqueKeys(r.removed, CaseId) && UniqueKeys(r.updated, BeforeId)
  {
    hide SortBy, ById, Absent, ChangedPairs;
    var beforeMap, afterMap := ById(before.cases, CaseId), ById(after.cases, CaseId);
    AbsentIsUnique(after.cases, CaseId, beforeMap);
    AbsentIsUnique(before.cases, CaseId, afterMap);
    ChangedIsUnique(before.cases, CaseId, afterMap, CaseDiffers(before, after, collate));
    SortedStaysUnique(Absent(after.cases, CaseId, beforeMap), CaseId, CaseLe(collate));
    SortedStaysUnique(Absent(before.cases, CaseId, afterMap), CaseId, CaseLe(collate));
    SortedStaysUnique(ChangedPairs(before.cases, CaseId, afterMap, CaseDiffers(before, after, collate)), BeforeId,
      UpdateLe(collate));
  }

  lemma DiffIsUnique(base: seq<DiffCatalog>, head: seq<DiffCatalog>, collate: Collation)
    requires UniqueKeys(base, CatalogId) && UniqueKeys(head, CatalogId)
    ensures var d := DiffOf(base, head, collate);
      UniqueKeys(d.added, CatalogId) && UniqueKeys(d.removed, CatalogId) && UniqueKeys(d.updated, EntryId)
  {
    hide SortBy, ById, Absent, ChangedPairs, Sum, CatalogDiffers;
    var baseMap, headMap := ById(base, CatalogId), ById(head, CatalogId);
    AbsentIsUnique(head, CatalogId, baseMap);
    AbsentIsUnique(base, CatalogId, headMap);
    ChangedIsUnique(base, CatalogId, headMap, CatalogDiffers(collate));
    SortedStaysUnique(Absent(head, CatalogId, baseMap), CatalogId, ByKind(collate));
    SortedStaysUnique(Absent(base, CatalogId, headMap), CatalogId, ByKind(collate));
    var entries := UpdatedEntries(base, head, collate);
    assert UniqueKeys(entries, EntryId);
    SortedStaysUnique(entries, EntryId, ByKindAfter(collate));
  }

  // --------------------------------------------------------- the parts of a diff

  function AddedPart(e: UpdatedCatalog): DiffCatalog {
    e.after.(cases := e.cases.added)
  }

  function RemovedPart(e: UpdatedCatalog): DiffCatalog {
    e.before.(cases := e.cases.removed)
  }

  function SecondOf(p: (DiffCase, DiffCase)): DiffCase {
    p.1
  }

  function ChangedPart(e: UpdatedCatalog): DiffCatalog {
    e.after.(cases := Map(e.cases.updated, SecondOf))
  }

  /** The cases a diff lists as added: those of added catalogs and those added to catalogs both sides have. */
  function AddedCases(d: DiffJson): seq<DiffCatalog> {
    d.added + Map(d.updated, AddedPart)
  }

  function RemovedCases(d: DiffJson): seq<DiffCatalog> {
    d.removed + Map(d.updated, RemovedPart)
  }

  /** The cases a diff lists as updated, as they are afterwards. */
  function ChangedCases(d: DiffJson): seq<DiffCatalog> {
    Map(d.updated, ChangedPart)
  }

  lemma InMap<S, T>(s: seq<S>, f: S -> T, y: T) returns (x: S)
    requires y in Map(s, f)
    ensures x in s && f(x) == y
  {
    var i :| 0 <= i < |s| && Map(s, f)[i] == y;
    x := s[i];
  }

  lemma MapHas<S, T>(s: seq<S>, f: S -> T, x: S)
    requires x in s
    ensures f(x) in Map(s, f)
  {
    var i :| 0 <= i < |s| && s[i] == x;
    assert Map(s, f)[i] == f(x);
  }

  lemma PartsKeepFingerprints(c: DiffCatalog, cases: seq<DiffCase>, t: DiffCase, collate: Collation)
    ensures CaseFingerprint(c.(cases := cases), t, collate) == CaseFingerprint(c, t, collate)
  {
    hide StableStringify;
  }

  lemma CatalogOf(cs: seq<DiffCatalog>, id: string, c: DiffCatalog)
    requires UniqueKeys(cs, CatalogId) && c in cs && c.catalogId == id
    ensures forall d :: d in cs && d.catalogId == id ==> d == c
  {
    forall d | d in cs && d.catalogId == id ensures d == c {
      UniqueMeansSame(cs, CatalogId, c, d);
    }
  }

  /** Each case listed as added is in the head and not in the base. */
  lemma AddedOnlyNew(base: seq<DiffCatalog>, head: seq<DiffCatalog>, collate: Collation, k: CaseKey, c: DiffCatalog,
                     t: DiffCase)
    requires UniqueIds(base) && UniqueIds(head) && IsCase(AddedCases(DiffOf(base, head, collate)), k, c, t)
    ensures k in CaseKeys(head) && k !in CaseKeys(base)
    ensures FingerprintMap(head, collate)[k] == CaseFingerprint(c, t, collate)
  {
    hide DiffOf, CaseDiff, UniqueKeys, CaseFingerprint, HeaderFingerprint, FingerprintMap;
    var d := DiffOf(base, head, collate);
    if c in d.added {
      AddedAre(base, head, collate, c);
      assert IsCase(head, k, c, t);
      CaseIsFound(head, k, c, t, collate);
    } else {
      var e := InMap(d.updated, AddedPart, c);
      UpdatedAre(base, head, collate, e);
      CasesAddedAre(e.before, e.after, collate, t);
      assert IsCase(head, k, e.after, t);
      CaseIsFound(head, k, e.after, t, collate);
      PartsKeepFingerprints(e.after, e.cases.added, t, collate);
      CatalogOf(base, k.0, e.before);
    }
  }

  /** Each case of the head that the base lacks is listed as added. */
  lemma NewIsAdded(base: seq<DiffCatalog>, head: seq<DiffCatalog>, collate: Collation, k: CaseKey)
    requires UniqueIds(base) && UniqueIds(head) && k in CaseKeys(head) && k !in CaseKeys(base)
    ensures k in CaseKeys(AddedCases(DiffOf(base, head, collate)))
  {
    hide DiffOf, CaseDiff, UniqueKeys, CaseFingerprint, HeaderFingerprint;
    var d := DiffOf(base, head, collate);
    CaseKeysAre(head, k);
    CaseKeysAre(base, k);
    CaseKeysAre(AddedCases(d), k);
    var c, t :| IsCase(head, k, c, t);
    if !HasCatalog(base, c.catalogId) {
      AddedAre(base, head, collate, c);
      assert IsCase(AddedCases(d), k, c, t);
    } else {
      var b :| b in base && b.catalogId == c.catalogId;
      assert forall u :: u in b.cases && u.id == t.id ==> IsCase(base, k, b, u);
      CasesAddedAre(b, c, collate, t);
      var e := EntryOf(collate)((b, c));
      UpdatedAre(base, head, collate, e);
      MapHas(d.updated, AddedPart, e);
      assert IsCase(AddedCases(d), k, AddedPart(e), t);
    }
  }

  lemma RemovedOnlyOld(base: seq<DiffCatalog>, head: seq<DiffCatalog>, collate: Collation, k: CaseKey, c: DiffCatalog,
                       t: DiffCase)
    requires UniqueIds(base) && UniqueIds(head) && IsCase(RemovedCases(DiffOf(base, head, collate)), k, c, t)
    ensures k in CaseKeys(base) && k !in CaseKeys(head)
  {
    hide DiffOf, CaseDiff, UniqueKeys, CaseFingerprint, HeaderFingerprint;
    var d := DiffOf(base, head, collate);
    CaseKeysAre(base, k);
    CaseKeysAre(head, k);
    if c in d.removed {
      AddedAre(base, head, collate, c);
      assert IsCase(base, k, c, t);
    } else {
      var e := InMap(d.updated, RemovedPart, c);
      UpdatedAre(base, head, collate, e);
      CasesAddedAre(e.before, e.after, collate, t);
      assert IsCase(base, k, e.before, t);
      CatalogOf(head, k.0, e.after);
    }
  }

  lemma OldIsRemoved(base: seq<DiffCatalog>, head: seq<DiffCatalog>, collate: Collation, k: CaseKey)
    requires UniqueIds(base) && UniqueIds(head) && k in CaseKeys(base) && k !in CaseKeys(head)
    ensures k in CaseKeys(RemovedCases(DiffOf(base, head, collate)))
  {
    hide DiffOf, CaseDiff, UniqueKeys, CaseFingerprint, HeaderFingerprint;
    var d := DiffOf(base, head, collate);
    CaseKeysAre(head, k);
    CaseKeysAre(base, k);
    CaseKeysAre(RemovedCases(d), k);
    var c, t :| IsCase(base, k, c, t);
    if !HasCatalog(head, c.catalogId) {
      AddedAre(base, head, collate, c);
      assert IsCase(RemovedCases(d), k, c, t);
    } else {
      var a :| a in head && a.catalogId == c.catalogId;
      assert forall u :: u in a.cases && u.id == t.id ==> IsCase(head, k, a, u);
      CasesAddedAre(c, a, collate, t);
      var e := EntryOf(collate)((c, a));
      UpdatedAre(base, head, collate, e);
      MapHas(d.updated, RemovedPart, e);
      assert IsCase(RemovedCases(d), k, RemovedPart(e), t);
    }
  }

  ghost predicate KeptButChanged(base: seq<DiffCatalog>, head: seq<DiffCatalog>, k: CaseKey, collate: Collation) {
    && k in CaseKeys(base) && k in CaseKeys(head)
    && FingerprintMap(base, collate)[k] != FingerprintMap(head, collate)[k]
  }

  lemma ChangedOnlyChanged(base: seq<DiffCatalog>, head: seq<DiffCatalog>, collate: Collation, k: CaseKey,
                           c: DiffCatalog, t: DiffCase)
    requires UniqueIds(base) && UniqueIds(head) && IsCase(ChangedCases(DiffOf(base, head, collate)), k, c, t)
    ensures KeptButChanged(base, head, k, collate)
    ensures FingerprintMap(head, collate)[k] == CaseFingerprint(c, t, collate)
  {
    hide DiffOf, CaseDiff, UniqueKeys, CaseFingerprint, HeaderFingerprint, FingerprintMap;
    var d := DiffOf(base, head, collate);
    var e := InMap(d.updated, ChangedPart, c);
    UpdatedAre(base, head, collate, e);
    var p := InMap(e.cases.updated, SecondOf, t);
    CasesUpdatedAre(e.before, e.after, collate, p);
    CaseIsFound(base, k, e.before, p.0, collate);
    CaseIsFound(head, k, e.after, p.1, collate);
    PartsKeepFingerprints(e.after, c.cases, t, collate);
  }

  lemma ChangedIsListed(base: seq<DiffCatalog>, head: seq<DiffCatalog>, collate: Collation, k: CaseKey)
    requires UniqueIds(base) && UniqueIds(head) && KeptButChanged(base, head, k, collate)
    ensures k in CaseKeys(ChangedCases(DiffOf(base, head, collate)))
  {
    hide DiffOf, CaseDiff, UniqueKeys, CaseFingerprint, HeaderFingerprint, FingerprintMap;
    var d := DiffOf(base, head, collate);
    CaseKeysAre(head, k);
    CaseKeysAre(base, k);
    CaseKeysAre(ChangedCases(d), k);
    var b, u :| IsCase(base, k, b, u);
    var a, t :| IsCase(head, k, a, t);
    CaseIsFound(base, k, b, u, collate);
    CaseIsFound(head, k, a, t, collate);
    CasesUpdatedAre(b, a, collate, (u, t));
    var e := EntryOf(collate)((b, a));
    UpdatedAre(base, head, collate, e);
    MapHas(d.updated, ChangedPart, e);
    MapHas(e.cases.updated, SecondOf, (u, t));
    assert IsCase(ChangedCases(d), k, ChangedPart(e), t);
  }

  ghost function ChangedKeys(base: seq<DiffCatalog>, head: seq<DiffCatalog>, collate: Collation): set<CaseKey> {
    set k | k in CaseKeys(base) && KeptButChanged(base, head, k, collate)
  }

  lemma ChangedKeysAre(base: seq<DiffCatalog>, head: seq<DiffCatalog>, collate: Collation, k: CaseKey)
    requires UniqueIds(base) && UniqueIds(head)
    ensures k in CaseKeys(ChangedCases(DiffOf(base, head, collate))) <==> k in ChangedKeys(base, head, collate)
  {
    hide DiffOf, UniqueIds, ChangedCases, CaseKeys, IsCase;
    var d := DiffOf(base, head, collate);
    CaseKeysAre(ChangedCases(d), k);
    if c, t :| IsCase(ChangedCases(d), k, c, t) {
      ChangedOnlyChanged(base, head, collate, k, c, t);
    }
    if KeptButChanged(base, head, k, collate) {
      ChangedIsListed(base, head, collate, k);
    }
  }

  lemma AddedKeysAre(base: seq<DiffCatalog>, head: seq<DiffCatalog>, collate: Collation, k: CaseKey)
    requires UniqueIds(base) && UniqueIds(head)
    ensures k in CaseKeys(AddedCases(DiffOf(base, head, collate))) <==> k in CaseKeys(head) && k !in CaseKeys(base)
  {
    hide DiffOf, UniqueIds, AddedCases, CaseKeys, IsCase;
    var d := DiffOf(base, head, collate);
    CaseKeysAre(AddedCases(d), k);
    if c, t :| IsCase(AddedCases(d), k, c, t) {
      AddedOnlyNew(base, head, collate, k, c, t);
    } else if k in CaseKeys(head) && k !in CaseKeys(base) {
      NewIsAdded(base, head, collate, k);
    }
  }

  lemma RemovedKeysAre(base: seq<DiffCatalog>, head: seq<DiffCatalog>, collate: Collation, k: CaseKey)
    requires UniqueIds(base) && UniqueIds(head)
    ensures k in CaseKeys(RemovedCases(DiffOf(base, head, collate))) <==> k in CaseKeys(base) && k !in CaseKeys(head)
  {
    hide DiffOf, UniqueIds, RemovedCases, CaseKeys, IsCase;
    var d := DiffOf(base, head, collate);
    CaseKeysAre(RemovedCases(d), k);
    if c, t :| IsCase(RemovedCases(d), k, c, t) {
      RemovedOnlyOld(base, head, collate, k, c, t);
    } else if k in CaseKeys(base) && k !in CaseKeys(head) {
      OldIsRemoved(base, head, collate, k);
    }
  }

  /** The diff lists exactly the cases that came, went or changed. */
  lemma DiffListsExactly(base: seq<DiffCatalog>, head: seq<DiffCatalog>, collate: Collation)
    requires UniqueIds(base) && UniqueIds(head)
    ensures var d := DiffOf(base, head, collate);
      && CaseKeys(AddedCases(d)) == CaseKeys(head) - CaseKeys(base)
      && CaseKeys(RemovedCases(d)) == CaseKeys(base) - CaseKeys(head)
      && CaseKeys(ChangedCases(d)) == ChangedKeys(base, head, collate)
  {
    hide DiffOf, UniqueIds, AddedCases, RemovedCases, ChangedCases, CaseKeys, ChangedKeys;
    var d := DiffOf(base, head, collate);
    forall k ensures k in CaseKeys(AddedCases(d)) <==> k in CaseKeys(head) - CaseKeys(base) {
      AddedKeysAre(base, head, collate, k);
    }
    forall k ensures k in CaseKeys(RemovedCases(d)) <==> k in CaseKeys(base) - CaseKeys(head) {
      RemovedKeysAre(base, head, collate, k);
    }
    forall k ensures k in CaseKeys(ChangedCases(d)) <==> k in ChangedKeys(base, head, collate) {
      ChangedKeysAre(base, head, collate, k);
    }
  }

  // ------------------------------------------------------------- the patch laws

  /** What applying a diff does to a side's fingerprints: drop the removed cases, write the added and updated ones. */
  ghost function ApplyPatch(m: map<CaseKey, string>, d: DiffJson, collate: Collation): map<CaseKey, string> {
    m - CaseKeys(RemovedCases(d)) + FingerprintMap(AddedCases(d), collate) + FingerprintMap(ChangedCases(d), collate)
  }

  lemma AddedFingerprint(base: seq<DiffCatalog>, head: seq<DiffCatalog>, collate: Collation, k: CaseKey)
    requires UniqueIds(base) && UniqueIds(head) && k in CaseKeys(AddedCases(DiffOf(base, head, collate)))
    ensures k in CaseKeys(head) && FingerprintMap(AddedCases(DiffOf(base, head, collate)), collate)[k] ==
      FingerprintMap(head, collate)[k]
  {
    hide DiffOf, UniqueIds, AddedCases, CaseKeys, IsCase, CaseFingerprint;
    var cs := AddedCases(DiffOf(base, head, collate));
    var c, t := FingerprintIsOfACase(cs, k, collate);
    AddedOnlyNew(base, head, collate, k, c, t);
  }

  lemma ChangedFingerprint(base: seq<DiffCatalog>, head: seq<DiffCatalog>, collate: Collation, k: CaseKey)
    requires UniqueIds(base) && UniqueIds(head) && k in CaseKeys(ChangedCases(DiffOf(base, head, collate)))
    ensures k in CaseKeys(head) && FingerprintMap(ChangedCases(DiffOf(base, head, collate)), collate)[k] ==
      FingerprintMap(head, collate)[k]
  {
    hide DiffOf, UniqueIds, ChangedCases, CaseKeys, IsCase, CaseFingerprint;
    var cs := ChangedCases(DiffOf(base, head, collate));
    var c, t := FingerprintIsOfACase(cs, k, collate);
    ChangedOnlyChanged(base, head, collate, k, c, t);
  }

  ghost predicate AgreesWith<K, V>(m: map<K, V>, h: map<K, V>) {
    forall k :: k in m ==> k in h && m[k] == h[k]
  }

  lemma PatchedMap<K, V>(b: map<K, V>, h: map<K, V>, removed: set<K>, added: map<K, V>, changed: map<K, V>)
    requires removed == b.Keys - h.Keys && added.Keys == h.Keys - b.Keys
    requires changed.Keys == set k | k in b && k in h && b[k] != h[k]
    requires AgreesWith(added, h) && AgreesWith(changed, h)
    ensures b - removed + added + changed == h
  {
    var m := b - removed + added + changed;
    assert m.Keys == h.Keys;
    assert forall k :: k in h ==> m[k] == h[k];
  }

  lemma AddedAgree(base: seq<DiffCatalog>, head: seq<DiffCatalog>, collate: Collation)
    requires UniqueIds(base) && UniqueIds(head)
    ensures AgreesWith(FingerprintMap(AddedCases(DiffOf(base, head, collate)), collate), FingerprintMap(head, collate))
  {
    hide DiffOf, UniqueIds, AddedCases, CaseKeys, FingerprintMap;
    var cs := AddedCases(DiffOf(base, head, collate));
    MapKeys(head, collate);
    MapKeys(cs, collate);
    forall k | k in FingerprintMap(cs, collate)
      ensures k in FingerprintMap(head, collate) && FingerprintMap(cs, collate)[k] == FingerprintMap(head, collate)[k]
    {
      AddedFingerprint(base, head, collate, k);
    }
  }

  lemma ChangedAgree(base: seq<DiffCatalog>, head: seq<DiffCatalog>, collate: Collation)
    requires UniqueIds(base) && UniqueIds(head)
    ensures AgreesWith(FingerprintMap(ChangedCases(DiffOf(base, head, collate)), collate),
      FingerprintMap(head, collate))
  {
    hide DiffOf, UniqueIds, ChangedCases, CaseKeys, FingerprintMap;
    var cs := ChangedCases(DiffOf(base, head, collate));
    MapKeys(head, collate);
    MapKeys(cs, collate);
    forall k | k in FingerprintMap(cs, collate)
      ensures k in FingerprintMap(head, collate) && FingerprintMap(cs, collate)[k] == FingerprintMap(head, collate)[k]
    {
      ChangedFingerprint(base, head, collate, k);
    }
  }

  lemma ChangedKeysOfMaps(base: seq<DiffCatalog>, head: seq<DiffCatalog>, collate: Collation)
    ensures var b, h := FingerprintMap(base, collate), FingerprintMap(head, collate);
      ChangedKeys(base, head, collate) == set k | k in b && k in h && b[k] != h[k]
  {
    hide FingerprintMap, CaseKeys;
    MapKeys(base, collate);
    MapKeys(head, collate);
  }

  /** Applying the diff to the base gives the head, fingerprint for fingerprint. */
  lemma DiffIsAPatch(base: seq<DiffCatalog>, head: seq<DiffCatalog>, collate: Collation)
    requires UniqueIds(base) && UniqueIds(head)
    ensures ApplyPatch(FingerprintMap(base, collate), DiffOf(base, head, collate), collate) ==
      FingerprintMap(head, collate)
  {
    hide DiffOf, UniqueIds, AddedCases, RemovedCases, ChangedCases, CaseKeys, FingerprintMap, ChangedKeys;
    var d := DiffOf(base, head, collate);
    DiffListsExactly(base, head, collate);
    AddedAgree(base, head, collate);
    ChangedAgree(base, head, collate);
    ChangedKeysOfMaps(base, head, collate);
    MapKeys(base, collate);
    MapKeys(head, collate);
    MapKeys(AddedCases(d), collate);
    MapKeys(ChangedCases(d), collate);
    PatchedMap(FingerprintMap(base, collate), FingerprintMap(head, collate), CaseKeys(RemovedCases(d)),
               FingerprintMap(AddedCases(d), collate), FingerprintMap(ChangedCases(d), collate));
  }
}
