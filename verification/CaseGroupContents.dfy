/** What the pull-request report shows of each case, read off the two sides of the diff. */
module CaseGroupContents {
  import opened Wrappers
  import opened StableSort
  import opened LocaleJson
  import opened EvidencePreview
  import opened Keyed
  import opened EvidenceDiff
  import opened EvidencePatch
  import opened EvidenceSymmetry
  import opened CaseGroups

  // ------------------------------------------------------ what should be shown

  ghost predicate ShowsAddition(base: seq<DiffCatalog>, head: seq<DiffCatalog>, k: CaseKey, x: CaseDelta) {
    && k !in CaseKeys(base)
    && exists a, t :: IsCase(head, k, a, t) && x.title == t.title
         && x.inputBefore.None? && x.outputBefore.None? && x.inputAfter == Some(t.input) && x.outputAfter == t.output
  }

  ghost predicate ShowsRemoval(base: seq<DiffCatalog>, head: seq<DiffCatalog>, k: CaseKey, x: CaseDelta) {
    && k !in CaseKeys(head)
    && exists b, u :: IsCase(base, k, b, u) && x.title == u.title
         && x.inputBefore == Some(u.input) && x.outputBefore == u.output && x.inputAfter.None? && x.outputAfter.None?
  }

  ghost predicate ShowsUpdate(base: seq<DiffCatalog>, head: seq<DiffCatalog>, k: CaseKey, x: CaseDelta,
                              collate: Collation)
  {
    exists b, u, a, t :: IsCase(base, k, b, u) && IsCase(head, k, a, t) && x.title == t.title
      && CaseFingerprint(b, u, collate) != CaseFingerprint(a, t, collate)
      && x.inputBefore == Some(u.input) && x.outputBefore == u.output
      && x.inputAfter == Some(t.input) && x.outputAfter == t.output
  }

  /** What the two sides say of the case that `x` names under catalog `id`. */
  ghost predicate ShowsChange(base: seq<DiffCatalog>, head: seq<DiffCatalog>, id: string, x: CaseDelta,
                              collate: Collation)
  {
    match x.changeType
    case ADD => ShowsAddition(base, head, (id, x.id), x)
    case REMOVE => ShowsRemoval(base, head, (id, x.id), x)
    case UPDATE => ShowsUpdate(base, head, (id, x.id), x, collate)
  }

  ghost predicate Reported(gs: seq<CatalogCaseGroup>, id: string, x: CaseDelta) {
    exists g :: g in gs && g.catalogId == id && x in g.cases
  }

  // ------------------------------------------------- one contribution a catalog

  function ContributionId(c: Contribution): string {
    c.catalogId
  }

  function GroupOf(c: Contribution): CatalogCaseGroup {
    CatalogCaseGroup(c.catalogId, c.title, c.definitionPath, c.deltas)
  }

  /** A catalog that contributes once has a group of its own fields and deltas. */
  lemma {:induction false} LoneGroup(cs: seq<Contribution>, c: Contribution)
    requires UniqueKeys(cs, ContributionId) && c in cs
    ensures c.catalogId in TableOf(cs).groups && TableOf(cs).groups[c.catalogId] == GroupOf(c)
  {
    var rest, last := cs[..|cs| - 1], cs[|cs| - 1];
    assert cs == rest + [last];
    hide TableOf;
    TableGrows(rest, last);
    GroupHoldsItsDeltas(rest, last.catalogId);
    assert !Contributes(rest, last.catalogId) by {
      forall r | r in rest ensures r.catalogId != last.catalogId {
        var i :| 0 <= i < |rest| && rest[i] == r;
        assert ContributionId(cs[i]) != ContributionId(cs[|cs| - 1]);
      }
    }
    if c == last {
      assert [] + c.deltas == c.deltas;
    } else {
      LoneGroup(rest, c);
    }
  }

  lemma EntriesApart(base: seq<DiffCatalog>, head: seq<DiffCatalog>, collate: Collation)
    requires UniqueIds(base) && UniqueIds(head)
    ensures var d := DiffOf(base, head, collate);
      && (forall c, c' :: c in d.added && c' in d.removed ==> c.catalogId != c'.catalogId)
      && (forall c, e :: c in d.added && e in d.updated ==> c.catalogId != e.after.catalogId)
      && (forall c, e :: c in d.removed && e in d.updated ==> c.catalogId != e.after.catalogId)
  {
    hide DiffOf, UniqueKeys, CaseDiff, HeaderFingerprint;
    var d := DiffOf(base, head, collate);
    forall c ensures c in d.added <==> c in head && !HasCatalog(base, c.catalogId)
      ensures c in d.removed <==> c in base && !HasCatalog(head, c.catalogId)
    {
      AddedAre(base, head, collate, c);
    }
    forall e | e in d.updated
      ensures e.before in base && e.after in head && e.before.catalogId == e.after.catalogId
    {
      UpdatedAre(base, head, collate, e);
    }
  }

  lemma ContributionsAreUnique(base: seq<DiffCatalog>, head: seq<DiffCatalog>, collate: Collation)
    requires UniqueIds(base) && UniqueIds(head)
    ensures UniqueKeys(Contributions(DiffOf(base, head, collate)), ContributionId)
  {
    hide DiffOf, CaseDiff, HeaderFingerprint;
    var d := DiffOf(base, head, collate);
    EntriesApart(base, head, collate);
    DiffIsUnique(base, head, collate);
    var a, r, u := Map(d.added, OfAdded), Map(d.removed, OfRemoved), Map(d.updated, OfUpdated);
    assert UniqueKeys(a, ContributionId) && UniqueKeys(r, ContributionId);
    assert UniqueKeys(u, ContributionId) by {
      forall i, j | 0 <= i < j < |u| ensures u[i].catalogId != u[j].catalogId {
        UpdatedIds(base, head, collate, d.updated[i]);
        UpdatedIds(base, head, collate, d.updated[j]);
        assert EntryId(d.updated[i]) != EntryId(d.updated[j]);
      }
    }
    hide UniqueKeys;
    UniqueConcat(a, r, ContributionId);
    UniqueConcat(a + r, u, ContributionId);
  }

  lemma UpdatedIds(base: seq<DiffCatalog>, head: seq<DiffCatalog>, collate: Collation, e: UpdatedCatalog)
    requires UniqueIds(head) && e in DiffOf(base, head, collate).updated
    ensures e.after.catalogId == EntryId(e)
  {
    hide DiffOf, CaseDiff, HeaderFingerprint, UniqueKeys;
    UpdatedAre(base, head, collate, e);
  }

  /** The groups are the contributions, one for one, with sorted deltas. */
  lemma GroupsAreContributions(base: seq<DiffCatalog>, head: seq<DiffCatalog>, collate: Collation, g: CatalogCaseGroup)
    requires UniqueIds(base) && UniqueIds(head)
    ensures var d := DiffOf(base, head, collate);
      g in CatalogGroups(d, collate) <==>
        exists c :: c in Contributions(d) && g == SortedGroup(GroupOf(c), collate)
  {
    hide UniqueIds, DiffOf, TableOf, FinishedGroups, SortBy, Contributions, UniqueKeys;
    var d := DiffOf(base, head, collate);
    var cs := Contributions(d);
    var t := TableOf(cs);
    ContributionsAreUnique(base, head, collate);
    TablesAreValid(cs);
    GroupComesFrom(t, collate, g);
    if c :| c in cs && g == SortedGroup(GroupOf(c), collate) {
      LoneGroup(cs, c);
    }
    if g.catalogId in t.groups && g == SortedGroup(t.groups[g.catalogId], collate) {
      GroupHoldsItsDeltas(cs, g.catalogId);
      var c :| c in cs && c.catalogId == g.catalogId;
      LoneGroup(cs, c);
    }
  }

  // ------------------------------------------------------- where deltas come from

  ghost predicate BroughtByCatalog(cs: seq<DiffCatalog>, id: string, x: CaseDelta, delta: DiffCase -> CaseDelta) {
    exists c, t :: c in cs && t in c.cases && c.catalogId == id && x == delta(t)
  }

  ghost predicate BroughtByUpdate(d: DiffJson, id: string, x: CaseDelta) {
    || (exists e, t :: e in d.updated && t in e.cases.added && e.after.catalogId == id && x == AddDelta(t))
    || (exists e, t :: e in d.updated && t in e.cases.removed && e.after.catalogId == id && x == RemoveDelta(t))
    || (exists e, p :: e in d.updated && p in e.cases.updated && e.after.catalogId == id && x == UpdateDelta(p))
  }

  ghost predicate Brought(cs: seq<Contribution>, id: string, x: CaseDelta) {
    exists c :: c in cs && c.catalogId == id && x in c.deltas
  }

  lemma ReportedIffBrought(base: seq<DiffCatalog>, head: seq<DiffCatalog>, collate: Collation, id: string, x: CaseDelta)
    requires UniqueIds(base) && UniqueIds(head)
    ensures var d := DiffOf(base, head, collate);
      Reported(CatalogGroups(d, collate), id, x) <==> Brought(Contributions(d), id, x)
  {
    hide UniqueIds, DiffOf, CatalogGroups, SortBy, Contributions;
    var d := DiffOf(base, head, collate);
    var gs, cs := CatalogGroups(d, collate), Contributions(d);
    if g :| g in gs && g.catalogId == id && x in g.cases {
      GroupsAreContributions(base, head, collate, g);
      var c :| c in cs && g == SortedGroup(GroupOf(c), collate);
      SameElements(c.deltas, g.cases);
    }
    if c :| c in cs && c.catalogId == id && x in c.deltas {
      var g := SortedGroup(GroupOf(c), collate);
      GroupsAreContributions(base, head, collate, g);
      SameElements(c.deltas, g.cases);
    }
  }

  lemma MappedHas<S(!new), T(!new)>(s: seq<S>, f: S -> T, y: T)
    ensures y in Map(s, f) <==> exists x :: x in s && y == f(x)
  {
    if y in Map(s, f) {
      var x := InMap(s, f, y);
    }
    if x :| x in s && y == f(x) {
      MapHas(s, f, x);
    }
  }

  lemma BroughtBySide(cs: seq<DiffCatalog>, id: string, x: CaseDelta, delta: DiffCase -> CaseDelta,
                      of: DiffCatalog -> Contribution)
    requires forall c :: of(c).catalogId == c.catalogId && of(c).deltas == Map(c.cases, delta)
    ensures Brought(Map(cs, of), id, x) <==> BroughtByCatalog(cs, id, x, delta)
  {
    hide Map;
    if c :| c in Map(cs, of) && c.catalogId == id && x in c.deltas {
      var a := InMap(cs, of, c);
      MappedHas(a.cases, delta, x);
    }
    if a, t :| a in cs && t in a.cases && a.catalogId == id && x == delta(t) {
      MapHas(cs, of, a);
      MapHas(a.cases, delta, t);
      assert of(a) in Map(cs, of);
    }
  }

  lemma BroughtByEntries(d: DiffJson, id: string, x: CaseDelta)
    ensures Brought(Map(d.updated, OfUpdated), id, x) <==> BroughtByUpdate(d, id, x)
  {
    forall e ensures x in OfUpdated(e).deltas <==>
      || (exists t :: t in e.cases.added && x == AddDelta(t))
      || (exists t :: t in e.cases.removed && x == RemoveDelta(t))
      || (exists p :: p in e.cases.updated && x == UpdateDelta(p))
    {
      MappedHas(e.cases.added, AddDelta, x);
      MappedHas(e.cases.removed, RemoveDelta, x);
      MappedHas(e.cases.updated, UpdateDelta, x);
    }
    hide Map, AddDelta, RemoveDelta, UpdateDelta;
    if c :| c in Map(d.updated, OfUpdated) && c.catalogId == id && x in c.deltas {
      var e := InMap(d.updated, OfUpdated, c);
      assert e.after.catalogId == id;
    }
    if BroughtByUpdate(d, id, x) {
      var e :| e in d.updated && e.after.catalogId == id && x in OfUpdated(e).deltas;
      MapHas(d.updated, OfUpdated, e);
      assert OfUpdated(e) in Map(d.updated, OfUpdated);
    }
  }

  lemma BroughtIs(d: DiffJson, id: string, x: CaseDelta)
    ensures Brought(Contributions(d), id, x) <==>
      || BroughtByCatalog(d.added, id, x, AddDelta) || BroughtByCatalog(d.removed, id, x, RemoveDelta)
      || BroughtByUpdate(d, id, x)
  {
    BroughtBySide(d.added, id, x, AddDelta, OfAdded);
    BroughtBySide(d.removed, id, x, RemoveDelta, OfRemoved);
    BroughtByEntries(d, id, x);
    hide Map, OfAdded, OfRemoved, OfUpdated, BroughtByCatalog, BroughtByUpdate;
    var a, r, u := Map(d.added, OfAdded), Map(d.removed, OfRemoved), Map(d.updated, OfUpdated);
    assert forall c :: c in Contributions(d) <==> c in a || c in r || c in u;
  }

  // ----------------------------------------------------------- the three kinds

  lemma AdditionIff(base: seq<DiffCatalog>, head: seq<DiffCatalog>, collate: Collation, id: string, x: CaseDelta)
    requires UniqueIds(base) && UniqueIds(head) && x.changeType == ADD
    ensures Brought(Contributions(DiffOf(base, head, collate)), id, x) <==> ShowsAddition(base, head, (id, x.id), x)
  {
    hide DiffOf, CaseDiff, UniqueKeys, HeaderFingerprint, CaseKeys, Brought, Contributions;
    var d := DiffOf(base, head, collate);
    var k := (id, x.id);
    BroughtIs(d, id, x);
    CaseKeysAre(base, k);
    if c, t :| c in d.added && t in c.cases && c.catalogId == id && x == AddDelta(t) {
      AddedAre(base, head, collate, c);
      assert IsCase(head, k, c, t);
    }
    if e, t :| e in d.updated && t in e.cases.added && e.after.catalogId == id && x == AddDelta(t) {
      UpdatedAre(base, head, collate, e);
      CasesAddedAre(e.before, e.after, collate, t);
      CatalogOf(base, id, e.before);
      assert IsCase(head, k, e.after, t);
    }
    if ShowsAddition(base, head, k, x) {
      var a, t :| IsCase(head, k, a, t) && x.title == t.title && x.inputBefore.None? && x.outputBefore.None? &&
        x.inputAfter == Some(t.input) && x.outputAfter == t.output;
      assert x == AddDelta(t);
      AddedAre(base, head, collate, a);
      if HasCatalog(base, id) {
        var b :| b in base && b.catalogId == id;
        assert forall u :: u in b.cases && u.id == t.id ==> IsCase(base, k, b, u);
        CasesAddedAre(b, a, collate, t);
        var e := EntryOf(collate)((b, a));
        UpdatedAre(base, head, collate, e);
        assert e in d.updated && t in e.cases.added;
      }
    }
  }

  lemma RemovalIff(base: seq<DiffCatalog>, head: seq<DiffCatalog>, collate: Collation, id: string, x: CaseDelta)
    requires UniqueIds(base) && UniqueIds(head) && x.changeType == REMOVE
    ensures Brought(Contributions(DiffOf(base, head, collate)), id, x) <==> ShowsRemoval(base, head, (id, x.id), x)
  {
    hide DiffOf, CaseDiff, UniqueKeys, HeaderFingerprint, CaseKeys, Brought, Contributions;
    var d := DiffOf(base, head, collate);
    var k := (id, x.id);
    BroughtIs(d, id, x);
    CaseKeysAre(head, k);
    if c, u :| c in d.removed && u in c.cases && c.catalogId == id && x == RemoveDelta(u) {
      AddedAre(base, head, collate, c);
      assert IsCase(base, k, c, u);
    }
    if e, u :| e in d.updated && u in e.cases.removed && e.after.catalogId == id && x == RemoveDelta(u) {
      UpdatedAre(base, head, collate, e);
      CasesAddedAre(e.before, e.after, collate, u);
      CatalogOf(head, id, e.after);
      assert IsCase(base, k, e.before, u);
    }
    if ShowsRemoval(base, head, k, x) {
      var b, u :| IsCase(base, k, b, u) && x.title == u.title && x.inputBefore == Some(u.input) &&
        x.outputBefore == u.output && x.inputAfter.None? && x.outputAfter.None?;
      assert x == RemoveDelta(u);
      AddedAre(base, head, collate, b);
      if HasCatalog(head, id) {
        var a :| a in head && a.catalogId == id;
        assert forall t :: t in a.cases && t.id == u.id ==> IsCase(head, k, a, t);
        CasesAddedAre(b, a, collate, u);
        var e := EntryOf(collate)((b, a));
        UpdatedAre(base, head, collate, e);
        assert e in d.updated && u in e.cases.removed;
      }
    }
  }

  lemma UpdateIff(base: seq<DiffCatalog>, head: seq<DiffCatalog>, collate: Collation, id: string, x: CaseDelta)
    requires UniqueIds(base) && UniqueIds(head) && x.changeType == UPDATE
    ensures Brought(Contributions(DiffOf(base, head, collate)), id, x) <==>
      ShowsUpdate(base, head, (id, x.id), x, collate)
  {
    hide DiffOf, CaseDiff, UniqueKeys, HeaderFingerprint, CaseFingerprint, Brought, Contributions;
    var d := DiffOf(base, head, collate);
    var k := (id, x.id);
    BroughtIs(d, id, x);
    if e, p :| e in d.updated && p in e.cases.updated && e.after.catalogId == id && x == UpdateDelta(p) {
      UpdatedAre(base, head, collate, e);
      CasesUpdatedAre(e.before, e.after, collate, p);
      assert IsCase(base, k, e.before, p.0) && IsCase(head, k, e.after, p.1);
    }
    if ShowsUpdate(base, head, k, x, collate) {
      var b, u, a, t :| IsCase(base, k, b, u) && IsCase(head, k, a, t) && x.title == t.title &&
        CaseFingerprint(b, u, collate) != CaseFingerprint(a, t, collate) &&
        x.inputBefore == Some(u.input) && x.outputBefore == u.output &&
        x.inputAfter == Some(t.input) && x.outputAfter == t.output;
      assert x == UpdateDelta((u, t));
      CasesUpdatedAre(b, a, collate, (u, t));
      var e := EntryOf(collate)((b, a));
      UpdatedAre(base, head, collate, e);
      assert e in d.updated && (u, t) in e.cases.updated;
    }
  }

  /** The report shows a delta under a catalog exactly when it is what the two sides say of that case. */
  lemma ReportShowsTheChanges(base: seq<DiffCatalog>, head: seq<DiffCatalog>, collate: Collation, id: string,
                              x: CaseDelta)
    requires UniqueIds(base) && UniqueIds(head)
    ensures Reported(CatalogGroups(DiffOf(base, head, collate), collate), id, x) <==>
      ShowsChange(base, head, id, x, collate)
  {
    hide UniqueIds, DiffOf, CatalogGroups, Contributions, Brought, Reported, ShowsAddition, ShowsRemoval, ShowsUpdate;
    ReportedIffBrought(base, head, collate, id, x);
    match x.changeType
    case ADD => AdditionIff(base, head, collate, id, x);
    case REMOVE => RemovalIff(base, head, collate, id, x);
    case UPDATE => UpdateIff(base, head, collate, id, x);
  }

  // ------------------------------------------------------- the groups themselves

  /** A group is headed by the head's catalog, or the base's when the head has none. */
  ghost predicate HeadedBy(base: seq<DiffCatalog>, head: seq<DiffCatalog>, id: string, title: string, path: string) {
    exists c: DiffCatalog :: c.catalogId == id && (c in head || (c in base && !HasCatalog(head, id)))
      && title == c.title && path == if c.definition.Some? then c.definition.value else "(unknown)"
  }

  function DeltaId(x: CaseDelta): string {
    x.id
  }

  /** The catalog is on one side only, or shows other evidence on the two. */
  ghost predicate CatalogChanged(base: seq<DiffCatalog>, head: seq<DiffCatalog>, id: string, collate: Collation) {
    || HasCatalog(base, id) != HasCatalog(head, id)
    || exists b, a :: b in base && a in head && b.catalogId == id == a.catalogId && !ShowsSame(b, a, collate)
  }

  lemma DeltasOfUpdateUnique(e: UpdatedCatalog, collate: Collation)
    requires UniqueKeys(e.before.cases, CaseId) && UniqueKeys(e.after.cases, CaseId)
    requires e.cases == CaseDiff(e.before, e.after, collate)
    ensures UniqueKeys(OfUpdated(e).deltas, DeltaId)
  {
    hide CaseDiff, UniqueKeys, Map, HasCase, AddDelta, RemoveDelta, UpdateDelta;
    CaseDiffIsUnique(e.before, e.after, collate);
    CasesArePlaced(e, collate);
    DeltasApart(e);
    var a, r, u := Map(e.cases.added, AddDelta), Map(e.cases.removed, RemoveDelta), Map(e.cases.updated, UpdateDelta);
    IdsOfSingles();
    MappedDeltasUnique(e.cases.added, AddDelta);
    MappedDeltasUnique(e.cases.removed, RemoveDelta);
    UpdateDeltasUnique(e.cases.updated);
    UniqueConcat(a, r, DeltaId);
    UniqueConcat(a + r, u, DeltaId);
  }

  lemma UpdateDeltasUnique(ps: seq<(DiffCase, DiffCase)>)
    requires UniqueKeys(ps, BeforeId) && forall p :: p in ps ==> p.0.id == p.1.id
    ensures UniqueKeys(Map(ps, UpdateDelta), DeltaId)
  {
    forall i, j | 0 <= i < j < |ps| ensures UpdateDelta(ps[i]).id != UpdateDelta(ps[j]).id {
      assert BeforeId(ps[i]) != BeforeId(ps[j]) && ps[i] in ps && ps[j] in ps;
    }
  }

  /** Added cases are not in the old catalog, removed ones not in the new one, updated ones in both. */
  ghost predicate CasesPlaced(e: UpdatedCatalog) {
    && (forall t :: t in e.cases.added ==> !HasCase(e.before, t.id) && HasCase(e.after, t.id))
    && (forall t :: t in e.cases.removed ==> HasCase(e.before, t.id) && !HasCase(e.after, t.id))
    && (forall p :: p in e.cases.updated ==> p.0.id == p.1.id && HasCase(e.before, p.1.id) && HasCase(e.after, p.1.id))
  }

  lemma CasesArePlaced(e: UpdatedCatalog, collate: Collation)
    requires UniqueKeys(e.after.cases, CaseId) && e.cases == CaseDiff(e.before, e.after, collate)
    ensures CasesPlaced(e)
  {
    hide CaseDiff, UniqueKeys, HasCase;
    var before, after, cases := e.before, e.after, e.cases;
    forall t ensures t in cases.added ==> !HasCase(before, t.id) && HasCase(after, t.id)
      ensures t in cases.removed ==> HasCase(before, t.id) && !HasCase(after, t.id)
    {
      CasesAddedAre(before, after, collate, t);
      CaseIsThere(before, t);
      CaseIsThere(after, t);
    }
    forall p ensures p in cases.updated ==> p.0.id == p.1.id && HasCase(before, p.1.id) && HasCase(after, p.1.id) {
      CasesUpdatedAre(before, after, collate, p);
      CaseIsThere(before, p.0);
      CaseIsThere(after, p.1);
    }
  }

  lemma CaseIsThere(c: DiffCatalog, t: DiffCase)
    ensures t in c.cases ==> HasCase(c, t.id)
  {
  }

  lemma DeltasApart(e: UpdatedCatalog)
    requires CasesPlaced(e)
    ensures forall x, y :: x in Map(e.cases.added, AddDelta) && y in Map(e.cases.removed, RemoveDelta) ==> x.id != y.id
    ensures var singles := Map(e.cases.added, AddDelta) + Map(e.cases.removed, RemoveDelta);
      forall x, y :: x in singles && y in Map(e.cases.updated, UpdateDelta) ==> x.id != y.id
  {
    hide HasCase, Map;
    IdsOfDeltas(e.cases);
    hide AddDelta, RemoveDelta, UpdateDelta;
  }

  lemma IdsOfDeltas(c: CaseChanges)
    ensures forall x :: x in Map(c.added, AddDelta) ==> exists t :: t in c.added && t.id == x.id
    ensures forall x :: x in Map(c.removed, RemoveDelta) ==> exists t :: t in c.removed && t.id == x.id
    ensures forall x :: x in Map(c.updated, UpdateDelta) ==> exists p :: p in c.updated && p.1.id == x.id
  {
    forall x | x in Map(c.added, AddDelta) ensures exists t :: t in c.added && t.id == x.id {
      var t := InMap(c.added, AddDelta, x);
    }
    forall x | x in Map(c.removed, RemoveDelta) ensures exists t :: t in c.removed && t.id == x.id {
      var t := InMap(c.removed, RemoveDelta, x);
    }
    forall x | x in Map(c.updated, UpdateDelta) ensures exists p :: p in c.updated && p.1.id == x.id {
      var p := InMap(c.updated, UpdateDelta, x);
    }
  }

  lemma MappedDeltasUnique(cases: seq<DiffCase>, delta: DiffCase -> CaseDelta)
    requires UniqueKeys(cases, CaseId) && forall t :: delta(t).id == t.id
    ensures UniqueKeys(Map(cases, delta), DeltaId)
  {
    forall i, j | 0 <= i < j < |cases| ensures delta(cases[i]).id != delta(cases[j]).id {
      assert CaseId(cases[i]) != CaseId(cases[j]);
    }
  }

  /** Each contribution is headed and lists its cases as it should. */
  lemma ContributionIsProper(base: seq<DiffCatalog>, head: seq<DiffCatalog>, collate: Collation, c: Contribution)
    requires UniqueIds(base) && UniqueIds(head) && c in Contributions(DiffOf(base, head, collate))
    ensures HeadedBy(base, head, c.catalogId, c.title, c.definitionPath) && UniqueKeys(c.deltas, DeltaId)
  {
    hide DiffOf, CaseDiff, UniqueKeys, HeaderFingerprint, Map, AddDelta, RemoveDelta, UpdateDelta;
    var d := DiffOf(base, head, collate);
    if c in Map(d.added, OfAdded) {
      var a := InMap(d.added, OfAdded, c);
      AddedAre(base, head, collate, a);
      assert forall t :: AddDelta(t).id == t.id by {
        IdsOfSingles();
      }
      MappedDeltasUnique(a.cases, AddDelta);
    } else if c in Map(d.removed, OfRemoved) {
      var b := InMap(d.removed, OfRemoved, c);
      AddedAre(base, head, collate, b);
      assert forall t :: RemoveDelta(t).id == t.id by {
        IdsOfSingles();
      }
      MappedDeltasUnique(b.cases, RemoveDelta);
    } else {
      var e := InMap(d.updated, OfUpdated, c);
      UpdatedAre(base, head, collate, e);
      DeltasOfUpdateUnique(e, collate);
    }
  }

  lemma IdsOfSingles()
    ensures forall t :: AddDelta(t).id == t.id
    ensures forall t :: RemoveDelta(t).id == t.id
  {
  }

  lemma ContributedIff(base: seq<DiffCatalog>, head: seq<DiffCatalog>, collate: Collation, id: string)
    requires UniqueIds(base) && UniqueIds(head)
    ensures Contributes(Contributions(DiffOf(base, head, collate)), id) <==> CatalogChanged(base, head, id, collate)
  {
    hide DiffOf, CaseDiff, UniqueKeys, HeaderFingerprint, ShowsSame, CatalogDiffers;
    var d := DiffOf(base, head, collate);
    var cs := Contributions(d);
    forall b, a ensures CatalogDiffers(collate)(b, a) <==> !ShowsSame(b, a, collate) {
      DiffersIff(b, a, collate);
    }
    forall c ensures c in d.added <==> c in head && !HasCatalog(base, c.catalogId)
      ensures c in d.removed <==> c in base && !HasCatalog(head, c.catalogId)
    {
      AddedAre(base, head, collate, c);
    }
    forall e ensures e in d.updated <==> IsUpdate(base, head, e, collate) {
      UpdatedAre(base, head, collate, e);
    }
    hide Map;
    if c :| c in cs && c.catalogId == id {
      if c in Map(d.added, OfAdded) {
        var a := InMap(d.added, OfAdded, c);
      } else if c in Map(d.removed, OfRemoved) {
        var b := InMap(d.removed, OfRemoved, c);
      } else {
        var e := InMap(d.updated, OfUpdated, c);
      }
    }
    if CatalogChanged(base, head, id, collate) {
      if HasCatalog(head, id) && !HasCatalog(base, id) {
        var a :| a in head && a.catalogId == id;
        MapHas(d.added, OfAdded, a);
        assert OfAdded(a) in cs;
      } else if HasCatalog(base, id) && !HasCatalog(head, id) {
        var b :| b in base && b.catalogId == id;
        MapHas(d.removed, OfRemoved, b);
        assert OfRemoved(b) in cs;
      } else {
        var b, a :| b in base && a in head && b.catalogId == id == a.catalogId && !ShowsSame(b, a, collate);
        var e := EntryOf(collate)((b, a));
        assert e in d.updated;
        MapHas(d.updated, OfUpdated, e);
        assert OfUpdated(e) in cs;
      }
    }
  }

  /** There is a group exactly for each catalog that changed, under its heading, and no case is in it twice. */
  lemma GroupsAreOfChangedCatalogs(base: seq<DiffCatalog>, head: seq<DiffCatalog>, collate: Collation)
    requires UniqueIds(base) && UniqueIds(head)
    ensures var gs := CatalogGroups(DiffOf(base, head, collate), collate);
      && (forall id :: (exists g :: g in gs && g.catalogId == id) <==> CatalogChanged(base, head, id, collate))
      && (forall g :: g in gs ==>
           HeadedBy(base, head, g.catalogId, g.title, g.definitionPath) && UniqueKeys(g.cases, DeltaId))
  {
    hide UniqueIds, DiffOf, CatalogGroups, Contributions, SortBy, UniqueKeys, HeadedBy, CatalogChanged;
    var d := DiffOf(base, head, collate);
    var gs := CatalogGroups(d, collate);
    forall g | g in gs
      ensures HeadedBy(base, head, g.catalogId, g.title, g.definitionPath) && UniqueKeys(g.cases, DeltaId)
      ensures CatalogChanged(base, head, g.catalogId, collate)
    {
      GroupsAreContributions(base, head, collate, g);
      var c :| c in Contributions(d) && g == SortedGroup(GroupOf(c), collate);
      ContributionIsProper(base, head, collate, c);
      SortedStaysUnique(c.deltas, DeltaId, DeltaLe(collate));
      ContributedIff(base, head, collate, g.catalogId);
    }
    forall id | CatalogChanged(base, head, id, collate) ensures exists g :: g in gs && g.catalogId == id {
      ContributedIff(base, head, collate, id);
      var c :| c in Contributions(d) && c.catalogId == id;
      GroupsAreContributions(base, head, collate, SortedGroup(GroupOf(c), collate));
    }
  }
}
