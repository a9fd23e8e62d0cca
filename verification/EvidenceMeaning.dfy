/** What a diff of two previews reports, read off the previews' own fields. */
module EvidenceMeaning {
  import opened Texts
  import opened Wrappers
  import opened StableSort
  import opened Json
  import opened LocaleJson
  import opened Keyed
  import opened EvidencePreview
  import opened EvidenceIds
  import opened EvidenceDiff
  import opened EvidencePatch
  import opened EvidenceLaws

  // -------------------------------------------------- the cases of a preview

  ghost predicate SqlCaseAt(p: Preview, k: CaseKey, c: PreviewSqlCatalog, t: PreviewSqlCase) {
    c in p.sqlCaseCatalogs && t in c.cases && k == (c.id, t.id)
  }

  ghost predicate FunctionCaseAt(p: Preview, k: CaseKey, c: PreviewFunctionCatalog, t: PreviewFunctionCase) {
    c in p.testCaseCatalogs && t in c.cases && k == (c.id, t.id)
  }

  ghost predicate HasSqlCase(p: Preview, k: CaseKey) {
    exists c, t :: SqlCaseAt(p, k, c, t)
  }

  ghost predicate HasFunctionCase(p: Preview, k: CaseKey) {
    exists c, t :: FunctionCaseAt(p, k, c, t)
  }

  predicate SameOptionalText(a: Option<string>, b: Option<string>) {
    (if a.Some? then a.value else "") == (if b.Some? then b.value else "")
  }

  function FixtureNames(c: PreviewSqlCatalog): multiset<string> {
    if c.fixtures.Some? then multiset(c.fixtures.value) else multiset{}
  }

  /** SQL cases show the same evidence: parameters, expected rows, and the catalog's fixtures and definition. */
  ghost predicate SameSqlCase(b: PreviewSqlCatalog, u: PreviewSqlCase, a: PreviewSqlCatalog, t: PreviewSqlCase) {
    && Equiv(u.params, t.params) && Equiv(u.expected, t.expected)
    && FixtureNames(b) == FixtureNames(a) && SameOptionalText(b.definitionPath, a.definitionPath)
  }

  /** The output a function case shows: one that throws shows none. */
  predicate Shows(t: PreviewFunctionCase, output: Json) {
    t.expected != Throws && t.output == Some(output)
  }

  ghost predicate SameFunctionCase(u: PreviewFunctionCase, t: PreviewFunctionCase) {
    && Equiv(u.input, t.input)
    && (forall x :: Shows(u, x) ==> exists y :: Shows(t, y) && Equiv(x, y))
    && (forall y :: Shows(t, y) ==> exists x :: Shows(u, x) && Equiv(x, y))
  }

  ghost predicate SqlCaseChanged(base: Preview, head: Preview, k: CaseKey) {
    exists b, u, a, t :: SqlCaseAt(base, k, b, u) && SqlCaseAt(head, k, a, t) && !SameSqlCase(b, u, a, t)
  }

  ghost predicate FunctionCaseChanged(base: Preview, head: Preview, k: CaseKey) {
    exists b, u, a, t :: FunctionCaseAt(base, k, b, u) && FunctionCaseAt(head, k, a, t) && !SameFunctionCase(u, t)
  }

  /** A case that both sides have shows other evidence, or has moved between the two kinds. */
  ghost predicate CaseChanged(base: Preview, head: Preview, k: CaseKey) {
    || SqlCaseChanged(base, head, k) || FunctionCaseChanged(base, head, k)
    || (HasSqlCase(base, k) && HasFunctionCase(head, k)) || (HasFunctionCase(base, k) && HasSqlCase(head, k))
  }

  /** No object has a key twice. */
  ghost predicate WellFormedPreview(p: Preview) {
    && (forall c, t :: c in p.sqlCaseCatalogs && t in c.cases ==> WellFormed(t.params) && WellFormed(t.expected))
    && (forall c, t :: c in p.testCaseCatalogs && t in c.cases ==>
         WellFormed(t.input) && (t.output.Some? ==> WellFormed(t.output.value)))
  }

  /** Nothing in the cases and fixtures ties in the locale. */
  ghost predicate NoTiesInPreview(p: Preview, collate: Collation) {
    && (forall c, t :: c in p.sqlCaseCatalogs && t in c.cases ==>
         NoTiedKeys(t.params, collate) && NoTiedKeys(t.expected, collate))
    && (forall c, t :: c in p.testCaseCatalogs && t in c.cases ==>
         NoTiedKeys(t.input, collate) && (t.output.Some? ==> NoTiedKeys(t.output.value, collate)))
    && (forall c :: c in p.sqlCaseCatalogs && c.fixtures.Some? ==> Separated(c.fixtures.value, collate))
  }

  // ----------------------------------------- normalization, field for field

  ghost predicate AllSpace(s: string) {
    forall i :: 0 <= i < |s| ==> IsSpace(s[i])
  }

  /** `r` is `s` without the white space around it. */
  ghost predicate IsTrimmed(s: string, r: string) {
    && (exists before, after :: s == before + r + after && AllSpace(before) && AllSpace(after))
    && (r != "" ==> !IsSpace(r[0]) && !IsSpace(r[|r| - 1]))
  }

  /** A present text is the trimmed one and not blank; an absent one was absent or blank. */
  ghost predicate TextKept(s: Option<string>, r: Option<string>) {
    match r
    case Some(text) => s.Some? && text != "" && IsTrimmed(s.value, text)
    case None => s.Some? ==> AllSpace(s.value)
  }

  lemma {:induction false} TrimStartSplits(s: string) returns (before: string)
    ensures s == before + TrimStart(s) && AllSpace(before)
    ensures TrimStart(s) != "" ==> !IsSpace(TrimStart(s)[0])
  {
    if s != "" && IsSpace(s[0]) {
      var rest := TrimStartSplits(s[1..]);
      before := [s[0]] + rest;
    } else {
      before := "";
    }
  }

  lemma {:induction false} TrimEndSplits(s: string) returns (after: string)
    ensures s == TrimEnd(s) + after && AllSpace(after)
    ensures TrimEnd(s) != "" ==> !IsSpace(TrimEnd(s)[|TrimEnd(s)| - 1])
  {
    if s != "" && IsSpace(s[|s| - 1]) {
      var rest := TrimEndSplits(s[..|s| - 1]);
      after := rest + [s[|s| - 1]];
    } else {
      after := "";
    }
  }

  lemma TrimTrims(s: string)
    ensures IsTrimmed(s, Trim(s))
    ensures Trim(s) == "" ==> AllSpace(s)
  {
    var before := TrimStartSplits(s);
    var after := TrimEndSplits(TrimStart(s));
    hide TrimStart, TrimEnd, IsSpace;
    assert s == before + Trim(s) + after;
    assert Trim(s) != "" ==> Trim(s)[0] == TrimStart(s)[0];
  }

  lemma TextIsKept(s: Option<string>)
    ensures TextKept(s, TrimmedOrNone(s))
  {
    if s.Some? {
      TrimTrims(s.value);
    }
    hide Trim, IsTrimmed, AllSpace;
  }

  ghost predicate RefsTrimmed(refs: seq<RefLink>, ts: seq<RefLink>) {
    |ts| == |refs| && forall i :: 0 <= i < |ts| ==>
      IsTrimmed(refs[i].caption, ts[i].caption) && IsTrimmed(refs[i].url, ts[i].url)
  }

  ghost predicate RefsSorted(rs: seq<RefLink>, collate: Collation) {
    forall i, j :: 0 <= i < j < |rs| ==>
      && collate(rs[i].caption, rs[j].caption)
      && (collate(rs[j].caption, rs[i].caption) ==> collate(rs[i].url, rs[j].url))
  }

  /** References are trimmed and sorted by caption, those with tied captions by url; no references are none at all. */
  ghost predicate RefsKept(refs: Option<seq<RefLink>>, r: Option<seq<RefLink>>, collate: Collation) {
    if refs.None? || refs.value == [] then r.None?
    else
      && r.Some? && RefsSorted(r.value, collate)
      && exists ts :: RefsTrimmed(refs.value, ts) && multiset(ts) == multiset(r.value)
  }

  ghost predicate SqlCaseKept(t: PreviewSqlCase, r: DiffCase) {
    && r.id == t.id && r.title == t.title && r.input == t.params && r.expected == Succeeds
    && r.output == Some(t.expected) && r.error.None? && r.tags.None? && r.focus.None? && r.refs.None?
  }

  ghost predicate FunctionCaseKept(t: PreviewFunctionCase, r: DiffCase, collate: Collation) {
    && r.id == t.id && r.title == t.title && r.input == t.input && r.expected == t.expected
    && (forall x :: r.output == Some(x) <==> Shows(t, x))
    && (forall x :: r.error == Some(x) <==> t.expected == Throws && t.error == Some(x))
    && (forall x :: r.tags == Some(x) <==> x != [] && t.tags == Some(x))
    && TextKept(t.focus, r.focus) && RefsKept(t.refs, r.refs, collate)
  }

  ghost predicate SqlCatalogKept(c: PreviewSqlCatalog, r: DiffCatalog, collate: Collation) {
    && r.kind == Sql && r.catalogId == c.id && r.title == c.title && r.definition == c.definitionPath
    && TextKept(c.description, r.description) && RefsKept(c.refs, r.refs, collate)
    && r.fixtures.Some? && multiset(r.fixtures.value) == FixtureNames(c) && Sorted(r.fixtures.value, collate)
    && |r.cases| == |c.cases| && forall i :: 0 <= i < |r.cases| ==> SqlCaseKept(c.cases[i], r.cases[i])
  }

  ghost predicate FunctionCatalogKept(c: PreviewFunctionCatalog, r: DiffCatalog, collate: Collation) {
    && r.kind == Function && r.catalogId == c.id && r.title == c.title && r.definition == c.definitionPath
    && TextKept(c.description, r.description) && RefsKept(c.refs, r.refs, collate) && r.fixtures.None?
    && |r.cases| == |c.cases| && forall i :: 0 <= i < |r.cases| ==> FunctionCaseKept(c.cases[i], r.cases[i], collate)
  }

  lemma RefsAreKept(refs: Option<seq<RefLink>>, collate: Collation)
    requires TotalPreorder(collate)
    ensures RefsKept(refs, NormalRefs(refs, collate), collate)
  {
    if refs.Some? && refs.value != [] {
      var ts := Map(refs.value, TrimRef);
      RefsAreTrimmed(refs.value);
      SortedRefs(ts, collate);
      hide SortBy, TotalPreorder, RefsTrimmed, RefsSorted;
      assert multiset(ts) == multiset(SortBy(ts, RefLe(collate)));
    }
  }

  lemma SortedRefs(ts: seq<RefLink>, collate: Collation)
    requires TotalPreorder(collate)
    ensures RefsSorted(SortBy(ts, RefLe(collate)), collate)
  {
    RefLeIsPreorder(collate);
    SortByIsSorted(ts, RefLe(collate));
    hide SortBy, TotalPreorder;
    var r := SortBy(ts, RefLe(collate));
    forall i, j | 0 <= i < j < |r| ensures RefLe(collate)(r[i], r[j]) {
    }
  }

  lemma RefsAreTrimmed(refs: seq<RefLink>)
    ensures RefsTrimmed(refs, Map(refs, TrimRef))
  {
    forall i | 0 <= i < |refs|
      ensures IsTrimmed(refs[i].caption, TrimRef(refs[i]).caption) && IsTrimmed(refs[i].url, TrimRef(refs[i]).url)
    {
      TrimTrims(refs[i].caption);
      TrimTrims(refs[i].url);
    }
    hide Trim, IsTrimmed;
  }

  lemma SqlCatalogIsKept(c: PreviewSqlCatalog, collate: Collation)
    requires TotalPreorder(collate)
    ensures SqlCatalogKept(c, NormalSqlCatalog(c, collate), collate)
  {
    TextIsKept(c.description);
    RefsAreKept(c.refs, collate);
    SortByIsSorted(if c.fixtures.Some? then c.fixtures.value else [], collate);
    assert forall t :: SqlCaseKept(t, NormalSqlCase(t));
    hide TextKept, RefsKept, TrimmedOrNone, NormalRefs, SortBy, TotalPreorder, Sorted, SqlCaseKept, NormalSqlCase;
  }

  lemma FunctionCaseIsKept(t: PreviewFunctionCase, collate: Collation)
    requires TotalPreorder(collate)
    ensures FunctionCaseKept(t, NormalFunctionCase(t, collate), collate)
  {
    TextIsKept(t.focus);
    RefsAreKept(t.refs, collate);
    hide TextKept, RefsKept, TrimmedOrNone, NormalRefs, TotalPreorder;
  }

  lemma FunctionCatalogIsKept(c: PreviewFunctionCatalog, collate: Collation)
    requires TotalPreorder(collate)
    ensures FunctionCatalogKept(c, NormalFunctionCatalog(c, collate), collate)
  {
    TextIsKept(c.description);
    RefsAreKept(c.refs, collate);
    forall i | 0 <= i < |c.cases|
      ensures FunctionCaseKept(c.cases[i], NormalFunctionCase(c.cases[i], collate), collate)
    {
      FunctionCaseIsKept(c.cases[i], collate);
    }
    hide TextKept, RefsKept, TrimmedOrNone, NormalRefs, NormalFunctionCase, FunctionCaseKept, TotalPreorder;
  }

  /** The normal form holds each catalog of the preview with its fields, and nothing else, sorted by id. */
  lemma NormalFormKeepsFields(p: Preview, collate: Collation)
    requires TotalPreorder(collate)
    ensures var cs := NormalizeCatalogsForDiff(p, collate);
      && |cs| == |p.sqlCaseCatalogs| + |p.testCaseCatalogs|
      && (forall i, j :: 0 <= i < j < |cs| ==> collate(cs[i].catalogId, cs[j].catalogId))
      && (forall c :: c in p.sqlCaseCatalogs ==> exists r :: r in cs && SqlCatalogKept(c, r, collate))
      && (forall c :: c in p.testCaseCatalogs ==> exists r :: r in cs && FunctionCatalogKept(c, r, collate))
      && (forall r :: r in cs ==>
           (exists c :: c in p.sqlCaseCatalogs && SqlCatalogKept(c, r, collate)) ||
           (exists c :: c in p.testCaseCatalogs && FunctionCatalogKept(c, r, collate)))
  {
    NormalFormIsSorted(p, collate);
    hide SqlCatalogKept, FunctionCatalogKept, NormalSqlCatalog, NormalFunctionCatalog, NormalizeCatalogsForDiff,
      Unsorted, TotalPreorder, Sorted;
    var cs := NormalizeCatalogsForDiff(p, collate);
    forall c | c in p.sqlCaseCatalogs ensures exists r :: r in cs && SqlCatalogKept(c, r, collate) {
      var r := SqlCatalogIn(p, c, collate);
    }
    forall c | c in p.testCaseCatalogs ensures exists r :: r in cs && FunctionCatalogKept(c, r, collate) {
      var r := FunctionCatalogIn(p, c, collate);
    }
    forall r | r in cs
      ensures (exists c :: c in p.sqlCaseCatalogs && SqlCatalogKept(c, r, collate)) ||
        (exists c :: c in p.testCaseCatalogs && FunctionCatalogKept(c, r, collate))
    {
      SortedHolds(p, collate, r);
      UnsortedFrom(p, collate, r);
      if c :| c in p.sqlCaseCatalogs && r == NormalSqlCatalog(c, collate) {
        SqlCatalogIsKept(c, collate);
      } else {
        var c :| c in p.testCaseCatalogs && r == NormalFunctionCatalog(c, collate);
        FunctionCatalogIsKept(c, collate);
      }
    }
  }

  lemma NormalFormIsSorted(p: Preview, collate: Collation)
    requires TotalPreorder(collate)
    ensures var cs := NormalizeCatalogsForDiff(p, collate);
      && |cs| == |p.sqlCaseCatalogs| + |p.testCaseCatalogs|
      && forall i, j :: 0 <= i < j < |cs| ==> collate(cs[i].catalogId, cs[j].catalogId)
  {
    hide NormalSqlCatalog, NormalFunctionCatalog;
    CatalogLeIsPreorder(collate);
    SortByIsSorted(Unsorted(p, collate), CatalogLe(collate));
    SortedIsPermuted(p, collate);
    hide TotalPreorder;
    var cs := NormalizeCatalogsForDiff(p, collate);
    assert |multiset(cs)| == |multiset(Unsorted(p, collate))|;
    forall i, j | 0 <= i < j < |cs| ensures collate(cs[i].catalogId, cs[j].catalogId) {
      assert CatalogLe(collate)(cs[i], cs[j]);
    }
  }

  lemma SqlCatalogIn(p: Preview, c: PreviewSqlCatalog, collate: Collation) returns (r: DiffCatalog)
    requires TotalPreorder(collate) && c in p.sqlCaseCatalogs
    ensures r in NormalizeCatalogsForDiff(p, collate) && SqlCatalogKept(c, r, collate)
  {
    hide SqlCatalogKept, NormalSqlCatalog, NormalizeCatalogsForDiff, Unsorted, TotalPreorder;
    r := NormalSqlCatalog(c, collate);
    SortedHolds(p, collate, r);
    UnsortedFrom(p, collate, r);
    SqlCatalogIsKept(c, collate);
  }

  lemma FunctionCatalogIn(p: Preview, c: PreviewFunctionCatalog, collate: Collation) returns (r: DiffCatalog)
    requires TotalPreorder(collate) && c in p.testCaseCatalogs
    ensures r in NormalizeCatalogsForDiff(p, collate) && FunctionCatalogKept(c, r, collate)
  {
    hide FunctionCatalogKept, NormalFunctionCatalog, NormalizeCatalogsForDiff, Unsorted, TotalPreorder;
    r := NormalFunctionCatalog(c, collate);
    SortedHolds(p, collate, r);
    UnsortedFrom(p, collate, r);
    FunctionCatalogIsKept(c, collate);
  }

  // ------------------------------------------------------ cases find their way

  lemma SqlCaseIn(p: Preview, k: CaseKey, c: PreviewSqlCatalog, t: PreviewSqlCase, collate: Collation)
    returns (nc: DiffCatalog, nt: DiffCase)
    requires TotalPreorder(collate) && SqlCaseAt(p, k, c, t)
    ensures IsCase(NormalizeCatalogsForDiff(p, collate), k, nc, nt)
    ensures SqlCatalogKept(c, nc, collate) && SqlCaseKept(t, nt)
  {
    hide NormalizeCatalogsForDiff, RefsKept, TextKept, TotalPreorder, Sorted;
    nc := SqlCatalogIn(p, c, collate);
    var i :| 0 <= i < |c.cases| && c.cases[i] == t;
    nt := nc.cases[i];
  }

  lemma FunctionCaseIn(p: Preview, k: CaseKey, c: PreviewFunctionCatalog, t: PreviewFunctionCase, collate: Collation)
    returns (nc: DiffCatalog, nt: DiffCase)
    requires TotalPreorder(collate) && FunctionCaseAt(p, k, c, t)
    ensures IsCase(NormalizeCatalogsForDiff(p, collate), k, nc, nt)
    ensures nc.kind == Function && FunctionCaseKept(t, nt, collate)
  {
    hide NormalizeCatalogsForDiff, RefsKept, TextKept, TotalPreorder, FunctionCaseKept;
    nc := FunctionCatalogIn(p, c, collate);
    var i :| 0 <= i < |c.cases| && c.cases[i] == t;
    nt := nc.cases[i];
    FunctionKeptIds(t, nt, collate);
  }

  /** The keys of the normal form are those of the preview. */
  lemma CasesAreKept(p: Preview, collate: Collation, k: CaseKey)
    requires TotalPreorder(collate)
    ensures k in CaseKeys(NormalizeCatalogsForDiff(p, collate)) <==> HasSqlCase(p, k) || HasFunctionCase(p, k)
  {
    hide NormalizeCatalogsForDiff, RefsKept, TextKept, TotalPreorder, CaseKeys, FunctionCaseKept, SqlCaseKept;
    var cs := NormalizeCatalogsForDiff(p, collate);
    CaseKeysAre(cs, k);
    NormalFormKeepsFields(p, collate);
    if c, t :| SqlCaseAt(p, k, c, t) {
      var nc, nt := SqlCaseIn(p, k, c, t, collate);
    } else if c, t :| FunctionCaseAt(p, k, c, t) {
      var nc, nt := FunctionCaseIn(p, k, c, t, collate);
    }
    if nc, nt :| IsCase(cs, k, nc, nt) {
      var i :| 0 <= i < |nc.cases| && nc.cases[i] == nt;
      if c :| c in p.sqlCaseCatalogs && SqlCatalogKept(c, nc, collate) {
        KeptIds(c.cases[i], nt);
        assert SqlCaseAt(p, k, c, c.cases[i]);
      } else {
        var c :| c in p.testCaseCatalogs && FunctionCatalogKept(c, nc, collate);
        FunctionKeptIds(c.cases[i], nt, collate);
        assert FunctionCaseAt(p, k, c, c.cases[i]);
      }
    }
  }

  lemma KeptIds(t: PreviewSqlCase, r: DiffCase)
    requires SqlCaseKept(t, r)
    ensures r.id == t.id
  {
  }

  lemma FunctionKeptIds(t: PreviewFunctionCase, r: DiffCase, collate: Collation)
    requires FunctionCaseKept(t, r, collate)
    ensures r.id == t.id
  {
  }

  // ---------------------------------------------------------- what is reported

  ghost predicate ListsUpdate(d: DiffJson, k: CaseKey) {
    exists e, p :: e in d.updated && p in e.cases.updated && e.catalogId == k.0 && p.0.id == k.1 && p.1.id == k.1
  }

  ghost predicate ListsAddition(d: DiffJson, k: CaseKey) {
    || (exists c, t :: c in d.added && t in c.cases && k == (c.catalogId, t.id))
    || (exists e, t :: e in d.updated && t in e.cases.added && k == (e.catalogId, t.id))
  }

  ghost predicate ListsRemoval(d: DiffJson, k: CaseKey) {
    || (exists c, t :: c in d.removed && t in c.cases && k == (c.catalogId, t.id))
    || (exists e, t :: e in d.updated && t in e.cases.removed && k == (e.catalogId, t.id))
  }

  lemma UpdateListedIff(base: seq<DiffCatalog>, head: seq<DiffCatalog>, collate: Collation, k: CaseKey,
                        b: DiffCatalog, u: DiffCase, a: DiffCatalog, t: DiffCase)
    requires UniqueIds(base) && UniqueIds(head) && IsCase(base, k, b, u) && IsCase(head, k, a, t)
    ensures ListsUpdate(DiffOf(base, head, collate), k) <==>
      CaseFingerprint(b, u, collate) != CaseFingerprint(a, t, collate)
  {
    hide DiffOf, CaseDiff, UniqueKeys, CaseFingerprint, HeaderFingerprint;
    var d := DiffOf(base, head, collate);
    if e, p :| e in d.updated && p in e.cases.updated && e.catalogId == k.0 && p.0.id == k.1 && p.1.id == k.1 {
      UpdatedAre(base, head, collate, e);
      CasesUpdatedAre(e.before, e.after, collate, p);
      UniqueMeansSame(base, CatalogId, e.before, b);
      UniqueMeansSame(head, CatalogId, e.after, a);
      UniqueMeansSame(b.cases, CaseId, p.0, u);
      UniqueMeansSame(a.cases, CaseId, p.1, t);
    }
    if CaseFingerprint(b, u, collate) != CaseFingerprint(a, t, collate) {
      CasesUpdatedAre(b, a, collate, (u, t));
      var e := EntryOf(collate)((b, a));
      UpdatedAre(base, head, collate, e);
      assert e in d.updated && (u, t) in e.cases.updated;
    }
  }

  /** An update is listed only of a case that both sides have. */
  lemma UpdateIsOfBoth(base: seq<DiffCatalog>, head: seq<DiffCatalog>, collate: Collation, k: CaseKey)
    requires UniqueIds(base) && UniqueIds(head) && ListsUpdate(DiffOf(base, head, collate), k)
    ensures k in CaseKeys(base) && k in CaseKeys(head)
  {
    hide DiffOf, CaseDiff, UniqueKeys, CaseFingerprint, HeaderFingerprint, CaseKeys;
    var d := DiffOf(base, head, collate);
    var e, p :| e in d.updated && p in e.cases.updated && e.catalogId == k.0 && p.0.id == k.1 && p.1.id == k.1;
    UpdatedAre(base, head, collate, e);
    CasesUpdatedAre(e.before, e.after, collate, p);
    CaseKeysAre(base, k);
    CaseKeysAre(head, k);
    assert IsCase(base, k, e.before, p.0) && IsCase(head, k, e.after, p.1);
  }

  lemma ListingsAre(d: DiffJson, k: CaseKey)
    requires forall e :: e in d.updated ==> e.before.catalogId == e.after.catalogId == e.catalogId
    ensures ListsAddition(d, k) <==> k in CaseKeys(AddedCases(d))
    ensures ListsRemoval(d, k) <==> k in CaseKeys(RemovedCases(d))
  {
    hide CaseKeys;
    CaseKeysAre(AddedCases(d), k);
    CaseKeysAre(RemovedCases(d), k);
    hide Map;
    if c, t :| IsCase(AddedCases(d), k, c, t) && c !in d.added {
      var e := InMap(d.updated, AddedPart, c);
    }
    if c, t :| IsCase(RemovedCases(d), k, c, t) && c !in d.removed {
      var e := InMap(d.updated, RemovedPart, c);
    }
    if ListsAddition(d, k) {
      if c, t :| c in d.added && t in c.cases && k == (c.catalogId, t.id) {
        assert IsCase(AddedCases(d), k, c, t);
      } else {
        var e, t :| e in d.updated && t in e.cases.added && k == (e.catalogId, t.id);
        MapHas(d.updated, AddedPart, e);
        assert IsCase(AddedCases(d), k, AddedPart(e), t);
      }
    }
    if ListsRemoval(d, k) {
      if c, t :| c in d.removed && t in c.cases && k == (c.catalogId, t.id) {
        assert IsCase(RemovedCases(d), k, c, t);
      } else {
        var e, t :| e in d.updated && t in e.cases.removed && k == (e.catalogId, t.id);
        MapHas(d.updated, RemovedPart, e);
        assert IsCase(RemovedCases(d), k, RemovedPart(e), t);
      }
    }
  }

  // ------------------------------------------------------ same evidence, both ways

  lemma SameFixtures(b: PreviewSqlCatalog, nb: DiffCatalog, a: PreviewSqlCatalog, na: DiffCatalog, collate: Collation)
    requires TotalPreorder(collate) && SqlCatalogKept(b, nb, collate) && SqlCatalogKept(a, na, collate)
    requires b.fixtures.Some? ==> Separated(b.fixtures.value, collate)
    ensures FixturesOf(nb) == FixturesOf(na) <==> FixtureNames(b) == FixtureNames(a)
  {
    hide RefsKept, TextKept, TotalPreorder, Sorted, SqlCaseKept;
    var fs, gs := nb.fixtures.value, na.fixtures.value;
    assert Separated(fs, collate) by {
      if b.fixtures.Some? {
        SameElements(b.fixtures.value, fs);
      } else {
        assert |multiset(fs)| == 0;
      }
    }
    if FixtureNames(b) == FixtureNames(a) {
      SortedIsUnique(fs, gs, collate);
    }
  }

  lemma SameSqlEvidence(k: CaseKey, b: PreviewSqlCatalog, u: PreviewSqlCase, nb: DiffCatalog, nu: DiffCase,
                        a: PreviewSqlCatalog, t: PreviewSqlCase, na: DiffCatalog, nt: DiffCase, collate: Collation)
    requires TotalPreorder(collate) && k == (b.id, u.id) == (a.id, t.id)
    requires SqlCatalogKept(b, nb, collate) && SqlCaseKept(u, nu)
    requires SqlCatalogKept(a, na, collate) && SqlCaseKept(t, nt)
    requires b.fixtures.Some? ==> Separated(b.fixtures.value, collate)
    ensures SameEvidence(nb, nu, na, nt) <==> SameSqlCase(b, u, a, t)
  {
    SameFixtures(b, nb, a, na, collate);
    hide RefsKept, TextKept, TotalPreorder, Sorted, Equiv, FixturesOf, FixtureNames;
  }

  lemma SameFunctionEvidence(u: PreviewFunctionCase, nb: DiffCatalog, nu: DiffCase,
                             t: PreviewFunctionCase, na: DiffCatalog, nt: DiffCase, collate: Collation)
    requires nb.kind == Function == na.kind && nb.catalogId == na.catalogId && u.id == t.id
    requires FunctionCaseKept(u, nu, collate) && FunctionCaseKept(t, nt, collate)
    ensures SameEvidence(nb, nu, na, nt) <==> SameFunctionCase(u, t)
  {
    hide RefsKept, TextKept, Equiv, FixturesOf, DefinitionOf, Shows;
    if nu.output.Some? {
      assert Shows(u, nu.output.value);
    }
    if nt.output.Some? {
      assert Shows(t, nt.output.value);
    }
  }

  // -------------------------------------------------------- the law on previews

  lemma SqlUpdateIff(base: Preview, head: Preview, collate: Collation, k: CaseKey,
                     b: PreviewSqlCatalog, u: PreviewSqlCase, a: PreviewSqlCatalog, t: PreviewSqlCase)
    requires TotalPreorder(collate) && PreviewIdsUnique(base) && PreviewIdsUnique(head)
    requires WellFormedPreview(base) && WellFormedPreview(head) && NoTiesInPreview(base, collate)
    requires SqlCaseAt(base, k, b, u) && SqlCaseAt(head, k, a, t)
    ensures ListsUpdate(BuildDiff(base, head, collate), k) <==> !SameSqlCase(b, u, a, t)
  {
    hide NormalizeCatalogsForDiff, TotalPreorder, UniqueIds, PreviewIdsUnique, CaseFingerprint, ListsUpdate, DiffOf,
      SqlCatalogKept, SameSqlCase, SameEvidence, WellFormed, NoTiedKeys, Separated;
    UniqueIdsIff(base, collate);
    UniqueIdsIff(head, collate);
    var nb, nu := SqlCaseIn(base, k, b, u, collate);
    var na, nt := SqlCaseIn(head, k, a, t, collate);
    UpdateListedIff(NormalizeCatalogsForDiff(base, collate), NormalizeCatalogsForDiff(head, collate), collate, k,
                    nb, nu, na, nt);
    FingerprintsMeanSameEvidence(nb, nu, na, nt, collate);
    SameSqlEvidence(k, b, u, nb, nu, a, t, na, nt, collate);
  }

  lemma KeptFunctionFits(t: PreviewFunctionCase, nt: DiffCase, collate: Collation)
    requires FunctionCaseKept(t, nt, collate)
    requires WellFormed(t.input) && (t.output.Some? ==> WellFormed(t.output.value))
    ensures WellFormedCase(nt)
    ensures NoTiedKeys(t.input, collate) && (t.output.Some? ==> NoTiedKeys(t.output.value, collate)) ==>
      NoTiesInCase(nt, collate)
  {
    hide RefsKept, TextKept, WellFormed, NoTiedKeys;
    if nt.output.Some? {
      assert Shows(t, nt.output.value);
    }
  }

  lemma FunctionUpdateIff(base: Preview, head: Preview, collate: Collation, k: CaseKey,
                          b: PreviewFunctionCatalog, u: PreviewFunctionCase,
                          a: PreviewFunctionCatalog, t: PreviewFunctionCase)
    requires TotalPreorder(collate) && PreviewIdsUnique(base) && PreviewIdsUnique(head)
    requires WellFormedPreview(base) && WellFormedPreview(head) && NoTiesInPreview(base, collate)
    requires FunctionCaseAt(base, k, b, u) && FunctionCaseAt(head, k, a, t)
    ensures ListsUpdate(BuildDiff(base, head, collate), k) <==> !SameFunctionCase(u, t)
  {
    hide NormalizeCatalogsForDiff, TotalPreorder, UniqueIds, PreviewIdsUnique, CaseFingerprint, ListsUpdate, DiffOf,
      FunctionCaseKept, SameFunctionCase, SameEvidence, WellFormed, NoTiedKeys, NoTiesInCase, WellFormedCase;
    UniqueIdsIff(base, collate);
    UniqueIdsIff(head, collate);
    var nb, nu := FunctionCaseIn(base, k, b, u, collate);
    var na, nt := FunctionCaseIn(head, k, a, t, collate);
    UpdateListedIff(NormalizeCatalogsForDiff(base, collate), NormalizeCatalogsForDiff(head, collate), collate, k,
                    nb, nu, na, nt);
    KeptFunctionFits(u, nu, collate);
    KeptFunctionFits(t, nt, collate);
    FingerprintsMeanSameEvidence(nb, nu, na, nt, collate);
    SameFunctionEvidence(u, nb, nu, t, na, nt, collate);
  }

  /** A case that moves between the kinds is always an update. */
  lemma MovedIsUpdate(base: Preview, head: Preview, collate: Collation, k: CaseKey)
    requires TotalPreorder(collate) && PreviewIdsUnique(base) && PreviewIdsUnique(head)
    requires WellFormedPreview(base) && WellFormedPreview(head) && NoTiesInPreview(base, collate)
    requires (HasSqlCase(base, k) && HasFunctionCase(head, k)) || (HasFunctionCase(base, k) && HasSqlCase(head, k))
    ensures ListsUpdate(BuildDiff(base, head, collate), k)
  {
    hide NormalizeCatalogsForDiff, TotalPreorder, UniqueIds, PreviewIdsUnique, CaseFingerprint, ListsUpdate, DiffOf,
      FunctionCaseKept, SqlCatalogKept, WellFormed, NoTiedKeys, NoTiesInCase, WellFormedCase;
    UniqueIdsIff(base, collate);
    UniqueIdsIff(head, collate);
    var cs, ds := NormalizeCatalogsForDiff(base, collate), NormalizeCatalogsForDiff(head, collate);
    if HasSqlCase(base, k) && HasFunctionCase(head, k) {
      var b, u :| SqlCaseAt(base, k, b, u);
      var a, t :| FunctionCaseAt(head, k, a, t);
      var nb, nu := SqlCaseIn(base, k, b, u, collate);
      var na, nt := FunctionCaseIn(head, k, a, t, collate);
      UpdateListedIff(cs, ds, collate, k, nb, nu, na, nt);
      KeptSqlFits(b, nb, u, nu, collate);
      KeptFunctionFits(t, nt, collate);
      FingerprintsMeanSameEvidence(nb, nu, na, nt, collate);
    } else {
      var b, u :| FunctionCaseAt(base, k, b, u);
      var a, t :| SqlCaseAt(head, k, a, t);
      var nb, nu := FunctionCaseIn(base, k, b, u, collate);
      var na, nt := SqlCaseIn(head, k, a, t, collate);
      UpdateListedIff(cs, ds, collate, k, nb, nu, na, nt);
      KeptFunctionFits(u, nu, collate);
      KeptSqlFits(a, na, t, nt, collate);
      FingerprintsMeanSameEvidence(nb, nu, na, nt, collate);
    }
  }

  lemma KeptSqlFits(c: PreviewSqlCatalog, nc: DiffCatalog, t: PreviewSqlCase, nt: DiffCase, collate: Collation)
    requires SqlCatalogKept(c, nc, collate) && SqlCaseKept(t, nt)
    requires WellFormed(t.params) && WellFormed(t.expected)
    ensures nc.kind == Sql && WellFormedCase(nt)
    ensures NoTiedKeys(t.params, collate) && NoTiedKeys(t.expected, collate) ==> NoTiesInCase(nt, collate)
  {
    hide RefsKept, TextKept, WellFormed, NoTiedKeys;
  }

  /** An update is listed exactly of the cases that both previews have and that show other evidence. */
  lemma UpdatesAreChanges(base: Preview, head: Preview, collate: Collation, k: CaseKey)
    requires TotalPreorder(collate) && PreviewIdsUnique(base) && PreviewIdsUnique(head)
    requires WellFormedPreview(base) && WellFormedPreview(head) && NoTiesInPreview(base, collate)
    ensures ListsUpdate(BuildDiff(base, head, collate), k) <==> CaseChanged(base, head, k)
  {
    hide NormalizeCatalogsForDiff, TotalPreorder, UniqueIds, PreviewIdsUnique, ListsUpdate, DiffOf, WellFormedPreview,
      NoTiesInPreview, SqlCaseAt, FunctionCaseAt, SameSqlCase, SameFunctionCase;
    if (HasSqlCase(base, k) && HasFunctionCase(head, k)) || (HasFunctionCase(base, k) && HasSqlCase(head, k)) {
      MovedIsUpdate(base, head, collate, k);
    } else if b, u, a, t :| SqlCaseAt(base, k, b, u) && SqlCaseAt(head, k, a, t) && !SameSqlCase(b, u, a, t) {
      SqlUpdateIff(base, head, collate, k, b, u, a, t);
    } else if b, u, a, t :|
      FunctionCaseAt(base, k, b, u) && FunctionCaseAt(head, k, a, t) && !SameFunctionCase(u, t)
    {
      FunctionUpdateIff(base, head, collate, k, b, u, a, t);
    } else if ListsUpdate(BuildDiff(base, head, collate), k) {
      UniqueIdsIff(base, collate);
      UniqueIdsIff(head, collate);
      UpdateIsOfBoth(NormalizeCatalogsForDiff(base, collate), NormalizeCatalogsForDiff(head, collate), collate, k);
      CasesAreKept(base, collate, k);
      CasesAreKept(head, collate, k);
      if HasSqlCase(base, k) {
        var b, u :| SqlCaseAt(base, k, b, u);
        var a, t :| SqlCaseAt(head, k, a, t);
        SqlUpdateIff(base, head, collate, k, b, u, a, t);
      } else {
        var b, u :| FunctionCaseAt(base, k, b, u);
        var a, t :| FunctionCaseAt(head, k, a, t);
        FunctionUpdateIff(base, head, collate, k, b, u, a, t);
      }
    }
  }

  ghost predicate HasPreviewCase(p: Preview, k: CaseKey) {
    HasSqlCase(p, k) || HasFunctionCase(p, k)
  }

  /** Additions and removals are exactly the cases that one preview has and the other has not. */
  lemma AdditionsAndRemovals(base: Preview, head: Preview, collate: Collation, k: CaseKey)
    requires TotalPreorder(collate) && PreviewIdsUnique(base) && PreviewIdsUnique(head)
    ensures var d := BuildDiff(base, head, collate);
      && (ListsAddition(d, k) <==> HasPreviewCase(head, k) && !HasPreviewCase(base, k))
      && (ListsRemoval(d, k) <==> HasPreviewCase(base, k) && !HasPreviewCase(head, k))
  {
    hide NormalizeCatalogsForDiff, TotalPreorder, PreviewIdsUnique, UniqueKeys, DiffOf, CaseKeys, ListsAddition,
      ListsRemoval, HasSqlCase, HasFunctionCase, CaseDiff, HeaderFingerprint;
    UniqueIdsIff(base, collate);
    UniqueIdsIff(head, collate);
    var cs, ds := NormalizeCatalogsForDiff(base, collate), NormalizeCatalogsForDiff(head, collate);
    var d := DiffOf(cs, ds, collate);
    CasesAreKept(base, collate, k);
    CasesAreKept(head, collate, k);
    DiffListsExactly(cs, ds, collate);
    forall e | e in d.updated ensures e.before.catalogId == e.after.catalogId == e.catalogId {
      UpdatedAre(cs, ds, collate, e);
    }
    ListingsAre(d, k);
  }

  // --------------------------------------------------------- the order of lists

  /** SQL catalogs before function catalogs, each sorted by id. */
  ghost predicate InReportOrder(cs: seq<DiffCatalog>, collate: Collation) {
    forall i, j :: 0 <= i < j < |cs| ==>
      && (cs[i].kind == Function ==> cs[j].kind == Function)
      && (cs[i].kind == cs[j].kind ==> collate(cs[i].catalogId, cs[j].catalogId))
  }

  predicate SortedById(cases: seq<DiffCase>, collate: Collation) {
    forall i, j :: 0 <= i < j < |cases| ==> collate(cases[i].id, cases[j].id)
  }

  predicate CasesInOrder(c: CaseChanges, collate: Collation) {
    SortedById(c.added, collate) && SortedById(c.removed, collate) && SortedById(Map(c.updated, SecondOf), collate)
  }

  lemma ByKindIsPreorder(collate: Collation)
    requires TotalPreorder(collate)
    ensures TotalPreorder(ByKind(collate)) && TotalPreorder(ByKindAfter(collate))
  {
    var le, after := ByKind(collate), ByKindAfter(collate);
    forall a, b ensures le(a, b) || le(b, a) {
      assert collate(a.catalogId, b.catalogId) || collate(b.catalogId, a.catalogId);
    }
    forall a, b, c | le(a, b) && le(b, c) ensures le(a, c) {
      assert a.kind == b.kind == c.kind ==> collate(a.catalogId, b.catalogId) && collate(b.catalogId, c.catalogId);
    }
    forall a, b ensures after(a, b) || after(b, a) {
      assert le(a.after, b.after) || le(b.after, a.after);
    }
    forall a, b, c | after(a, b) && after(b, c) ensures after(a, c) {
      assert le(a.after, b.after) && le(b.after, c.after);
    }
  }

  lemma SortedByKind(s: seq<DiffCatalog>, collate: Collation)
    requires TotalPreorder(collate)
    ensures InReportOrder(SortBy(s, ByKind(collate)), collate)
  {
    ByKindIsPreorder(collate);
    SortByIsSorted(s, ByKind(collate));
    hide SortBy, TotalPreorder;
    var r := SortBy(s, ByKind(collate));
    forall i, j | 0 <= i < j < |r| ensures KindThenIdLe(r[i], r[j], collate) {
      assert ByKind(collate)(r[i], r[j]);
    }
  }

  lemma SortedByKindAfter(s: seq<UpdatedCatalog>, collate: Collation)
    requires TotalPreorder(collate)
    ensures InReportOrder(Map(SortBy(s, ByKindAfter(collate)), AfterOf), collate)
  {
    ByKindIsPreorder(collate);
    SortByIsSorted(s, ByKindAfter(collate));
    hide SortBy, TotalPreorder;
    var r := SortBy(s, ByKindAfter(collate));
    forall i, j | 0 <= i < j < |r| ensures KindThenIdLe(r[i].after, r[j].after, collate) {
      assert ByKindAfter(collate)(r[i], r[j]);
    }
  }

  function AfterOf(e: UpdatedCatalog): DiffCatalog {
    e.after
  }

  lemma SortedCases(s: seq<DiffCase>, collate: Collation)
    requires TotalPreorder(collate)
    ensures SortedById(SortBy(s, CaseLe(collate)), collate)
  {
    CaseLeIsPreorder(collate);
    SortByIsSorted(s, CaseLe(collate));
    hide SortBy, TotalPreorder;
    var r := SortBy(s, CaseLe(collate));
    forall i, j | 0 <= i < j < |r| ensures collate(r[i].id, r[j].id) {
      assert CaseLe(collate)(r[i], r[j]);
    }
  }

  lemma SortedUpdates(s: seq<(DiffCase, DiffCase)>, collate: Collation)
    requires TotalPreorder(collate)
    ensures SortedById(Map(SortBy(s, UpdateLe(collate)), SecondOf), collate)
  {
    UpdateLeIsPreorder(collate);
    SortByIsSorted(s, UpdateLe(collate));
    hide SortBy, TotalPreorder;
    var r := SortBy(s, UpdateLe(collate));
    forall i, j | 0 <= i < j < |r| ensures collate(r[i].1.id, r[j].1.id) {
      assert UpdateLe(collate)(r[i], r[j]);
    }
  }

  lemma CaseChangesInOrder(before: DiffCatalog, after: DiffCatalog, collate: Collation)
    requires TotalPreorder(collate)
    ensures CasesInOrder(CaseDiff(before, after, collate), collate)
  {
    hide SortBy, TotalPreorder, ById, Absent, ChangedPairs, CaseDiffers, CaseLe, UpdateLe, SortedById, Map;
    var beforeMap, afterMap := ById(before.cases, CaseId), ById(after.cases, CaseId);
    SortedCases(Absent(after.cases, CaseId, beforeMap), collate);
    SortedCases(Absent(before.cases, CaseId, afterMap), collate);
    SortedUpdates(ChangedPairs(before.cases, CaseId, afterMap, CaseDiffers(before, after, collate)), collate);
  }

  /** Every list of a diff comes out in order: catalogs by kind and id, cases by id. */
  lemma DiffIsInOrder(base: seq<DiffCatalog>, head: seq<DiffCatalog>, collate: Collation)
    requires TotalPreorder(collate) && UniqueKeys(head, CatalogId)
    ensures var d := DiffOf(base, head, collate);
      && InReportOrder(d.added, collate) && InReportOrder(d.removed, collate)
      && InReportOrder(Map(d.updated, AfterOf), collate)
      && forall e :: e in d.updated ==> CasesInOrder(e.cases, collate)
  {
    var d := DiffOf(base, head, collate);
    SortedByKind(Absent(head, CatalogId, ById(base, CatalogId)), collate);
    SortedByKind(Absent(base, CatalogId, ById(head, CatalogId)), collate);
    SortedByKindAfter(UpdatedEntries(base, head, collate), collate);
    hide SortBy, TotalPreorder, ById, Absent, UpdatedEntries, InReportOrder, CasesInOrder, Sum, CaseDiff, UniqueKeys,
      HeaderFingerprint;
    forall e | e in d.updated ensures CasesInOrder(e.cases, collate) {
      UpdatedAre(base, head, collate, e);
      CaseChangesInOrder(e.before, e.after, collate);
    }
  }
}
