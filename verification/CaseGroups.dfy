/** Regrouping a diff by catalog for the pull-request report. */
module CaseGroups {
  import opened Wrappers
  import opened StableSort
  import opened Json
  import opened LocaleJson
  import opened EvidencePreview
  import opened Keyed
  import opened EvidenceDiff
  import opened EvidencePatch
  import opened EvidenceCounts

  datatype ChangeType = ADD | UPDATE | REMOVE

  datatype CaseDelta = CaseDelta(changeType: ChangeType, id: string, title: string,
                                 inputBefore: Option<Json>, inputAfter: Option<Json>,
                                 outputBefore: Option<Json>, outputAfter: Option<Json>)

  datatype CatalogCaseGroup = CatalogCaseGroup(catalogId: string, title: string, definitionPath: string,
                                               cases: seq<CaseDelta>)

  const UNKNOWN_DEFINITION := "(unknown)"

  function AddDelta(t: DiffCase): CaseDelta {
    CaseDelta(ADD, t.id, t.title, None, Some(t.input), None, t.output)
  }

  function RemoveDelta(t: DiffCase): CaseDelta {
    CaseDelta(REMOVE, t.id, t.title, Some(t.input), None, t.output, None)
  }

  function UpdateDelta(p: (DiffCase, DiffCase)): CaseDelta {
    CaseDelta(UPDATE, p.1.id, p.1.title, Some(p.0.input), Some(p.1.input), p.0.output, p.1.output)
  }

  /** What one entry of a diff brings to the groups. */
  datatype Contribution = Contribution(catalogId: string, title: string, definitionPath: string, deltas: seq<CaseDelta>)

  function DefinitionPath(c: DiffCatalog): string {
    if c.definition.Some? then c.definition.value else UNKNOWN_DEFINITION
  }

  function OfAdded(c: DiffCatalog): Contribution {
    Contribution(c.catalogId, c.title, DefinitionPath(c), Map(c.cases, AddDelta))
  }

  function OfRemoved(c: DiffCatalog): Contribution {
    Contribution(c.catalogId, c.title, DefinitionPath(c), Map(c.cases, RemoveDelta))
  }

  function OfUpdated(e: UpdatedCatalog): Contribution {
    Contribution(e.after.catalogId, e.after.title, DefinitionPath(e.after),
                 Map(e.cases.added, AddDelta) + Map(e.cases.removed, RemoveDelta) + Map(e.cases.updated, UpdateDelta))
  }

  function Contributions(d: DiffJson): seq<Contribution> {
    Map(d.added, OfAdded) + Map(d.removed, OfRemoved) + Map(d.updated, OfUpdated)
  }

  // -------------------------------------------------- the table of groups

  /** An insertion-ordered map from catalog id to group. */
  datatype Table = Table(order: seq<string>, groups: map<string, CatalogCaseGroup>)

  ghost predicate ValidTable(t: Table) {
    && Distinct(t.order)
    && (forall k :: k in t.order <==> k in t.groups)
    && (forall k :: k in t.groups ==> t.groups[k].catalogId == k)
  }

  function Open(t: Table, id: string, title: string, definitionPath: string): Table {
    if id in t.groups then
      if t.groups[id].definitionPath == UNKNOWN_DEFINITION && definitionPath != UNKNOWN_DEFINITION then
        t.(groups := t.groups[id := t.groups[id].(definitionPath := definitionPath)])
      else t
    else Table(t.order + [id], t.groups[id := CatalogCaseGroup(id, title, definitionPath, [])])
  }

  function Pushed(t: Table, id: string, deltas: seq<CaseDelta>): Table {
    if id in t.groups then t.(groups := t.groups[id := t.groups[id].(cases := t.groups[id].cases + deltas)]) else t
  }

  function Contribute(t: Table, c: Contribution): Table {
    Pushed(Open(t, c.catalogId, c.title, c.definitionPath), c.catalogId, c.deltas)
  }

  function TableOf(cs: seq<Contribution>): Table {
    if cs == [] then Table([], map[]) else Contribute(TableOf(cs[..|cs| - 1]), cs[|cs| - 1])
  }

  function DeltaLe(collate: Collation): (CaseDelta, CaseDelta) -> bool {
    (a: CaseDelta, b: CaseDelta) => collate(a.id, b.id)
  }

  function GroupLe(collate: Collation): (CatalogCaseGroup, CatalogCaseGroup) -> bool {
    (a: CatalogCaseGroup, b: CatalogCaseGroup) => collate(a.catalogId, b.catalogId)
  }

  function SortedGroup(g: CatalogCaseGroup, collate: Collation): CatalogCaseGroup {
    g.(cases := SortBy(g.cases, DeltaLe(collate)))
  }

  function GroupsInOrder(t: Table): seq<CatalogCaseGroup>
    requires forall k :: k in t.order ==> k in t.groups
  {
    seq(|t.order|, i requires 0 <= i < |t.order| => t.groups[t.order[i]])
  }

  function FinishedGroups(t: Table, collate: Collation): seq<CatalogCaseGroup>
    requires forall k :: k in t.order ==> k in t.groups
  {
    SortBy(Map(GroupsInOrder(t), g => SortedGroup(g, collate)), GroupLe(collate))
  }

  /** The mutable map of groups that the renderer fills. */
  class GroupTable {
    var order: seq<string>
    var groups: map<string, CatalogCaseGroup>

    ghost function Contents(): Table
      reads this
    {
      Table(order, groups)
    }

    constructor ()
      ensures Contents() == Table([], map[])
    {
      order, groups := [], map[];
    }

    method GetOrCreateGroup(catalogId: string, title: string, definitionPath: string)
      modifies this
      ensures Contents() == Open(old(Contents()), catalogId, title, definitionPath)
      ensures catalogId in groups
    {
      if catalogId in groups {
        var existing := groups[catalogId];
        if existing.definitionPath == UNKNOWN_DEFINITION && definitionPath != UNKNOWN_DEFINITION {
          groups := groups[catalogId := existing.(definitionPath := definitionPath)];
        }
        return;
      }
      order := order + [catalogId];
      groups := groups[catalogId := CatalogCaseGroup(catalogId, title, definitionPath, [])];
    }

    method PushCases(catalogId: string, deltas: seq<CaseDelta>)
      requires catalogId in groups
      modifies this`groups
      ensures Contents() == Pushed(old(Contents()), catalogId, deltas)
    {
      var i := 0;
      ghost var before := groups;
      assert before[catalogId].cases + deltas[..0] == before[catalogId].cases;
      while i < |deltas|
        invariant 0 <= i <= |deltas|
        invariant catalogId in groups
        invariant groups.Keys == before.Keys && forall k :: k in groups && k != catalogId ==> groups[k] == before[k]
        invariant groups[catalogId] == before[catalogId].(cases := before[catalogId].cases + deltas[..i])
      {
        var group := groups[catalogId];
        groups := groups[catalogId := group.(cases := group.cases + [deltas[i]])];
        assert deltas[..i + 1] == deltas[..i] + [deltas[i]];
        i := i + 1;
      }
      assert deltas[..i] == deltas;
    }

    method AddContribution(c: Contribution)
      modifies this
      ensures Contents() == Contribute(old(Contents()), c)
    {
      GetOrCreateGroup(c.catalogId, c.title, c.definitionPath);
      PushCases(c.catalogId, c.deltas);
    }
  }

  lemma TableGrows(cs: seq<Contribution>, c: Contribution)
    ensures TableOf(cs + [c]) == Contribute(TableOf(cs), c)
  {
    assert (cs + [c])[..|cs|] == cs;
  }

  method BuildCatalogCaseGroups(d: DiffJson, collate: Collation) returns (r: seq<CatalogCaseGroup>)
    ensures r == CatalogGroups(d, collate)
  {
    hide TableOf, Contribute, FinishedGroups;
    var table := new GroupTable();
    ghost var done: seq<Contribution> := [];
    EmptyTable();
    for i := 0 to |d.added|
      invariant done == Map(d.added[..i], OfAdded) && table.Contents() == TableOf(done)
    {
      table.AddContribution(OfAdded(d.added[i]));
      TableGrows(done, OfAdded(d.added[i]));
      MapGrows(d.added, i, OfAdded);
      done := done + [OfAdded(d.added[i])];
    }
    ghost var added := done;
    for i := 0 to |d.removed|
      invariant done == added + Map(d.removed[..i], OfRemoved) && table.Contents() == TableOf(done)
    {
      table.AddContribution(OfRemoved(d.removed[i]));
      TableGrows(done, OfRemoved(d.removed[i]));
      MapGrows(d.removed, i, OfRemoved);
      done := done + [OfRemoved(d.removed[i])];
    }
    ghost var both := done;
    for i := 0 to |d.updated|
      invariant done == both + Map(d.updated[..i], OfUpdated) && table.Contents() == TableOf(done)
    {
      table.AddContribution(OfUpdated(d.updated[i]));
      TableGrows(done, OfUpdated(d.updated[i]));
      MapGrows(d.updated, i, OfUpdated);
      done := done + [OfUpdated(d.updated[i])];
    }
    assert d.added[..|d.added|] == d.added && d.removed[..|d.removed|] == d.removed &&
      d.updated[..|d.updated|] == d.updated;
    assert done == Contributions(d);
    TablesAreValid(done);
    r := FinishedGroups(Table(table.order, table.groups), collate);
  }

  /** The groups of a diff as the report shows them. */
  function CatalogGroups(d: DiffJson, collate: Collation): seq<CatalogCaseGroup> {
    TablesAreValid(Contributions(d));
    FinishedGroups(TableOf(Contributions(d)), collate)
  }

  lemma EmptyTable()
    ensures TableOf([]) == Table([], map[])
  {
  }

  lemma MapGrows<S, T>(s: seq<S>, i: nat, f: S -> T)
    requires i < |s|
    ensures Map(s[..i + 1], f) == Map(s[..i], f) + [f(s[i])]
  {
  }

  lemma {:induction false} TablesAreValid(cs: seq<Contribution>)
    ensures ValidTable(TableOf(cs))
  {
    if cs != [] {
      TablesAreValid(cs[..|cs| - 1]);
    }
  }

  // ------------------------------------------------ nothing lost, nothing moved

  /** The deltas that the entries of one catalog bring, in order. */
  function DeltasFor(cs: seq<Contribution>, id: string): seq<CaseDelta> {
    if cs == [] then []
    else DeltasFor(cs[..|cs| - 1], id) + if cs[|cs| - 1].catalogId == id then cs[|cs| - 1].deltas else []
  }

  ghost predicate Contributes(cs: seq<Contribution>, id: string) {
    exists c :: c in cs && c.catalogId == id
  }

  function CasesIn(t: Table, id: string): seq<CaseDelta> {
    if id in t.groups then t.groups[id].cases else []
  }

  lemma ContributeAdds(t: Table, c: Contribution, k: string)
    ensures k in Contribute(t, c).groups <==> k in t.groups || k == c.catalogId
    ensures CasesIn(Contribute(t, c), k) == CasesIn(t, k) + if k == c.catalogId then c.deltas else []
  {
  }

  /** Each catalog that contributes has one group, which holds exactly the deltas contributed under its id. */
  lemma {:induction false} GroupHoldsItsDeltas(cs: seq<Contribution>, k: string)
    ensures k in TableOf(cs).groups <==> Contributes(cs, k)
    ensures CasesIn(TableOf(cs), k) == DeltasFor(cs, k)
  {
    if cs == [] {
      EmptyTable();
    } else {
      var rest, c := cs[..|cs| - 1], cs[|cs| - 1];
      GroupHoldsItsDeltas(rest, k);
      assert cs == rest + [c];
      assert forall x :: x in cs <==> x in rest || x == c;
      hide TableOf, Contribute, CasesIn;
      TableGrows(rest, c);
      ContributeAdds(TableOf(rest), c, k);
      assert c in cs;
    }
  }

  function OfType(changeType: ChangeType): CaseDelta -> bool {
    (x: CaseDelta) => x.changeType == changeType
  }

  function CountIn(changeType: ChangeType): CatalogCaseGroup -> nat {
    (g: CatalogCaseGroup) => |Filter(g.cases, OfType(changeType))|
  }

  function CountOf(changeType: ChangeType): Contribution -> nat {
    (c: Contribution) => |Filter(c.deltas, OfType(changeType))|
  }

  lemma {:induction false} FilterAppend<T(!new)>(s: seq<T>, t: seq<T>, p: T -> bool)
    ensures Filter(s + t, p) == Filter(s, p) + Filter(t, p)
  {
    if s == [] {
      assert s + t == t;
    } else {
      assert (s + t)[1..] == s[1..] + t;
      FilterAppend(s[1..], t, p);
    }
  }

  lemma {:induction false} FilterAll<T(!new)>(s: seq<T>, p: T -> bool, keep: bool)
    requires forall x :: x in s ==> p(x) == keep
    ensures Filter(s, p) == if keep then s else []
  {
    if s != [] {
      assert forall x :: x in s[1..] ==> x in s;
      FilterAll(s[1..], p, keep);
    }
  }

  /** Summing one kind of delta over the groups is summing it over the entries that brought them. */
  lemma {:induction false} GroupsCountDeltas(cs: seq<Contribution>, changeType: ChangeType)
    requires ValidTable(TableOf(cs))
    ensures Sum(GroupsInOrder(TableOf(cs)), CountIn(changeType)) == Sum(cs, CountOf(changeType))
  {
    if cs != [] {
      var rest, c := cs[..|cs| - 1], cs[|cs| - 1];
      TablesAreValid(rest);
      GroupsCountDeltas(rest, changeType);
      hide TableOf, Sum;
      assert cs == rest + [c];
      TableGrows(rest, c);
      ContributionCounts(TableOf(rest), c, changeType);
      SumOne(c, CountOf(changeType));
      SumAppend(rest, [c], CountOf(changeType));
    } else {
      EmptyTable();
    }
  }

  lemma ContributionCounts(t: Table, c: Contribution, changeType: ChangeType)
    requires ValidTable(t) && ValidTable(Contribute(t, c))
    ensures Sum(GroupsInOrder(Contribute(t, c)), CountIn(changeType)) ==
            Sum(GroupsInOrder(t), CountIn(changeType)) + |Filter(c.deltas, OfType(changeType))|
  {
    hide Sum, Filter;
    var w, id := CountIn(changeType), c.catalogId;
    var u := Contribute(t, c);
    var gs, hs := GroupsInOrder(t), GroupsInOrder(u);
    if id in t.groups {
      var i :| 0 <= i < |t.order| && t.order[i] == id;
      FilterAppend(t.groups[id].cases, c.deltas, OfType(changeType));
      SumTakeOut(gs, i, w);
      SumTakeOut(hs, i, w);
      assert forall j :: 0 <= j < |gs| && j != i ==> hs[j] == gs[j];
      assert hs[..i] == gs[..i] && hs[i + 1..] == gs[i + 1..];
    } else {
      var g := CatalogCaseGroup(id, c.title, c.definitionPath, c.deltas);
      assert [] + c.deltas == c.deltas;
      assert hs == gs + [g];
      SumAppend(gs, [g], w);
      SumOne(g, w);
    }
  }

  lemma CatalogDeltaTypes(c: DiffCatalog, ct: ChangeType)
    ensures CountOf(ct)(OfAdded(c)) == if ct == ADD then TestCount(c) else 0
    ensures CountOf(ct)(OfRemoved(c)) == if ct == REMOVE then TestCount(c) else 0
  {
    hide Filter, Map;
    FilterAll(Map(c.cases, AddDelta), OfType(ct), ct == ADD);
    FilterAll(Map(c.cases, RemoveDelta), OfType(ct), ct == REMOVE);
  }

  lemma UpdatedDeltaTypes(e: UpdatedCatalog, ct: ChangeType)
    ensures CountOf(ct)(OfUpdated(e)) ==
      if ct == ADD then AddedCount(e) else if ct == REMOVE then RemovedCount(e) else UpdatedCount(e)
  {
    hide Filter, Map;
    var a, r, u := Map(e.cases.added, AddDelta), Map(e.cases.removed, RemoveDelta), Map(e.cases.updated, UpdateDelta);
    FilterAll(a, OfType(ct), ct == ADD);
    FilterAll(r, OfType(ct), ct == REMOVE);
    FilterAll(u, OfType(ct), ct == UPDATE);
    FilterAppend(a, r, OfType(ct));
    FilterAppend(a + r, u, OfType(ct));
  }

  function Zero<T>(): T -> nat {
    (x: T) => 0
  }

  lemma {:induction false} SumZero<T(!new)>(s: seq<T>)
    ensures Sum(s, Zero()) == 0
  {
    if s != [] {
      SumZero(s[..|s| - 1]);
    }
  }

  lemma ContributionSum(d: DiffJson, ct: ChangeType)
    ensures Sum(Contributions(d), CountOf(ct)) ==
      match ct
      case ADD => Sum(d.added, TestCount) + Sum(d.updated, AddedCount)
      case REMOVE => Sum(d.removed, TestCount) + Sum(d.updated, RemovedCount)
      case UPDATE => Sum(d.updated, UpdatedCount)
  {
    hide Sum, Map, OfAdded, OfRemoved, OfUpdated, CountOf;
    var a, r, u := Map(d.added, OfAdded), Map(d.removed, OfRemoved), Map(d.updated, OfUpdated);
    SumAppend(a, r, CountOf(ct));
    SumAppend(a + r, u, CountOf(ct));
    forall c ensures CountOf(ct)(OfAdded(c)) == if ct == ADD then TestCount(c) else 0 {
      CatalogDeltaTypes(c, ct);
    }
    forall c ensures CountOf(ct)(OfRemoved(c)) == if ct == REMOVE then TestCount(c) else 0 {
      CatalogDeltaTypes(c, ct);
    }
    forall e ensures CountOf(ct)(OfUpdated(e)) ==
      if ct == ADD then AddedCount(e) else if ct == REMOVE then RemovedCount(e) else UpdatedCount(e)
    {
      UpdatedDeltaTypes(e, ct);
    }
    SumZero(d.added);
    SumZero(d.removed);
    match ct {
      case ADD =>
        SumOfMap(d.added, OfAdded, CountOf(ct), TestCount);
        SumOfMap(d.removed, OfRemoved, CountOf(ct), Zero());
        SumOfMap(d.updated, OfUpdated, CountOf(ct), AddedCount);
      case REMOVE =>
        SumOfMap(d.added, OfAdded, CountOf(ct), Zero());
        SumOfMap(d.removed, OfRemoved, CountOf(ct), TestCount);
        SumOfMap(d.updated, OfUpdated, CountOf(ct), RemovedCount);
      case UPDATE =>
        SumOfMap(d.added, OfAdded, CountOf(ct), Zero());
        SumOfMap(d.removed, OfRemoved, CountOf(ct), Zero());
        SumOfMap(d.updated, OfUpdated, CountOf(ct), UpdatedCount);
    }
  }

  lemma SortingKeepsCounts(g: CatalogCaseGroup, ct: ChangeType, collate: Collation)
    ensures CountIn(ct)(SortedGroup(g, collate)) == CountIn(ct)(g)
  {
    hide SortBy, Filter;
    var sorted := SortBy(g.cases, DeltaLe(collate));
    FilterMultiset(g.cases, sorted, OfType(ct));
    SameElements(Filter(g.cases, OfType(ct)), Filter(sorted, OfType(ct)));
  }

  lemma FinishingKeepsCounts(t: Table, ct: ChangeType, collate: Collation)
    requires ValidTable(t)
    ensures Sum(FinishedGroups(t, collate), CountIn(ct)) == Sum(GroupsInOrder(t), CountIn(ct))
  {
    hide SortBy, Sum, CountIn;
    var sorted := Map(GroupsInOrder(t), g => SortedGroup(g, collate));
    SumUnderPermutation(sorted, SortBy(sorted, GroupLe(collate)), CountIn(ct));
    forall g ensures CountIn(ct)(SortedGroup(g, collate)) == CountIn(ct)(g) {
      SortingKeepsCounts(g, ct, collate);
    }
    SumOfMap(GroupsInOrder(t), g => SortedGroup(g, collate), CountIn(ct), CountIn(ct));
  }

  /** For any diff of two sides: over all groups, the deltas of each kind number what the summary says. */
  lemma RegroupingLosesNothing(base: seq<DiffCatalog>, head: seq<DiffCatalog>, collate: Collation)
    ensures var d := DiffOf(base, head, collate); var t := TableOf(Contributions(d));
      && ValidTable(t)
      && d.caseCounts == Counts(
           Sum(FinishedGroups(t, collate), CountIn(ADD)),
           Sum(FinishedGroups(t, collate), CountIn(REMOVE)),
           Sum(FinishedGroups(t, collate), CountIn(UPDATE)))
  {
    var d := DiffOf(base, head, collate);
    var t := TableOf(Contributions(d));
    TablesAreValid(Contributions(d));
    CountsArePartSums(base, head, collate);
    hide DiffOf, Sum, TableOf, Contributions, ValidTable, FinishedGroups, GroupsInOrder, CountIn, Map;
    PartSums(d.updated);
    SumAppend(d.added, Map(d.updated, AddedPart), TestCount);
    SumAppend(d.removed, Map(d.updated, RemovedPart), TestCount);
    FinishingKeepsCounts(t, ADD, collate);
    FinishingKeepsCounts(t, REMOVE, collate);
    FinishingKeepsCounts(t, UPDATE, collate);
    GroupsCountDeltas(Contributions(d), ADD);
    GroupsCountDeltas(Contributions(d), REMOVE);
    GroupsCountDeltas(Contributions(d), UPDATE);
    ContributionSum(d, ADD);
    ContributionSum(d, REMOVE);
    ContributionSum(d, UPDATE);
  }

  lemma DeltaLeIsPreorder(collate: Collation)
    requires TotalPreorder(collate)
    ensures TotalPreorder(DeltaLe(collate)) && TotalPreorder(GroupLe(collate))
  {
    var le, gle := DeltaLe(collate), GroupLe(collate);
    forall a, b ensures le(a, b) || le(b, a) {
      assert collate(a.id, b.id) || collate(b.id, a.id);
    }
    forall a, b, c | le(a, b) && le(b, c) ensures le(a, c) {
      assert collate(a.id, b.id) && collate(b.id, c.id);
    }
    forall a, b ensures gle(a, b) || gle(b, a) {
      assert collate(a.catalogId, b.catalogId) || collate(b.catalogId, a.catalogId);
    }
    forall a, b, c | gle(a, b) && gle(b, c) ensures gle(a, c) {
      assert collate(a.catalogId, b.catalogId) && collate(b.catalogId, c.catalogId);
    }
  }

  function GroupId(g: CatalogCaseGroup): string {
    g.catalogId
  }

  lemma GroupIdsUnique(t: Table, collate: Collation)
    requires ValidTable(t)
    ensures UniqueKeys(FinishedGroups(t, collate), GroupId)
  {
    hide SortBy;
    var sorted := Map(GroupsInOrder(t), g => SortedGroup(g, collate));
    forall i, j | 0 <= i < j < |sorted| ensures GroupId(sorted[i]) != GroupId(sorted[j]) {
      assert t.order[i] in t.order && t.order[j] in t.order;
    }
    SortedStaysUnique(sorted, GroupId, GroupLe(collate));
  }

  lemma GroupComesFrom(t: Table, collate: Collation, g: CatalogCaseGroup)
    requires ValidTable(t)
    ensures g in FinishedGroups(t, collate) <==>
      g.catalogId in t.groups && g == SortedGroup(t.groups[g.catalogId], collate)
  {
    hide SortBy;
    var sorted := Map(GroupsInOrder(t), g => SortedGroup(g, collate));
    SameElements(sorted, SortBy(sorted, GroupLe(collate)));
    if g in sorted {
      var i :| 0 <= i < |sorted| && sorted[i] == g;
      assert t.order[i] in t.order;
    }
    if g.catalogId in t.groups && g == SortedGroup(t.groups[g.catalogId], collate) {
      assert g.catalogId in t.order;
      var i :| 0 <= i < |t.order| && t.order[i] == g.catalogId;
      assert sorted[i] == g;
    }
  }

  lemma FinishedIsSorted(t: Table, collate: Collation)
    requires TotalPreorder(collate) && ValidTable(t)
    ensures Sorted(FinishedGroups(t, collate), GroupLe(collate)) && UniqueKeys(FinishedGroups(t, collate), GroupId)
  {
    DeltaLeIsPreorder(collate);
    GroupIdsUnique(t, collate);
    hide SortBy, TotalPreorder, Sorted, UniqueKeys;
    SortByIsSorted(Map(GroupsInOrder(t), g => SortedGroup(g, collate)), GroupLe(collate));
  }

  /** The groups come out sorted, one for each catalog that has a delta to show, with its deltas sorted and complete. */
  lemma GroupsAreSortedAndComplete(d: DiffJson, collate: Collation)
    requires TotalPreorder(collate)
    ensures var cs, gs := Contributions(d), CatalogGroups(d, collate);
      && (forall i, j :: 0 <= i < j < |gs| ==>
           collate(gs[i].catalogId, gs[j].catalogId) && gs[i].catalogId != gs[j].catalogId)
      && (forall g :: g in gs ==>
           && (forall i, j :: 0 <= i < j < |g.cases| ==> collate(g.cases[i].id, g.cases[j].id))
           && multiset(g.cases) == multiset(DeltasFor(cs, g.catalogId)))
      && (forall c :: c in cs ==> exists g :: g in gs && g.catalogId == c.catalogId)
  {
    var cs := Contributions(d);
    var t := TableOf(cs);
    TablesAreValid(cs);
    DeltaLeIsPreorder(collate);
    FinishedIsSorted(t, collate);
    hide SortBy, TotalPreorder, TableOf, Contributions, DeltasFor, FinishedGroups;
    var gs := FinishedGroups(t, collate);
    forall i, j | 0 <= i < j < |gs|
      ensures collate(gs[i].catalogId, gs[j].catalogId) && gs[i].catalogId != gs[j].catalogId
    {
      assert GroupLe(collate)(gs[i], gs[j]) && GroupId(gs[i]) != GroupId(gs[j]);
    }
    forall g | g in gs
      ensures forall i, j :: 0 <= i < j < |g.cases| ==> collate(g.cases[i].id, g.cases[j].id)
      ensures multiset(g.cases) == multiset(DeltasFor(cs, g.catalogId))
    {
      GroupComesFrom(t, collate, g);
      GroupHoldsItsDeltas(cs, g.catalogId);
      SortByIsSorted(t.groups[g.catalogId].cases, DeltaLe(collate));
      assert forall i, j :: 0 <= i < j < |g.cases| ==> DeltaLe(collate)(g.cases[i], g.cases[j]);
    }
    forall c | c in cs ensures exists g :: g in gs && g.catalogId == c.catalogId {
      GroupHoldsItsDeltas(cs, c.catalogId);
      assert Contributes(cs, c.catalogId);
      GroupComesFrom(t, collate, SortedGroup(t.groups[c.catalogId], collate));
    }
  }
}
