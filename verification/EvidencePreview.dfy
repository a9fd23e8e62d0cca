/** Preview documents of test evidence and the normal form that the diff compares. */
module EvidencePreview {
  import opened Texts
  import opened Wrappers
  import opened StableSort
  import opened Json
  import opened LocaleJson

  datatype Kind = Sql | Function

  datatype RefLink = RefLink(caption: string, url: string)

  datatype Expectation = Succeeds | Throws | ErrorResult

  datatype CaseError = CaseError(name: string, message: string, contains: bool)

  // ------------------------------------------------------ preview documents

  datatype PreviewSqlCase = PreviewSqlCase(id: string, title: string, params: Json, expected: Json)

  datatype PreviewSqlCatalog = PreviewSqlCatalog(
    id: string, title: string, description: Option<string>, definitionPath: Option<string>,
    refs: Option<seq<RefLink>>, fixtures: Option<seq<string>>, cases: seq<PreviewSqlCase>)

  datatype PreviewFunctionCase = PreviewFunctionCase(
    id: string, title: string, input: Json, expected: Expectation, output: Option<Json>, error: Option<CaseError>,
    tags: Option<seq<string>>, focus: Option<string>, refs: Option<seq<RefLink>>)

  datatype PreviewFunctionCatalog = PreviewFunctionCatalog(
    id: string, title: string, description: Option<string>, definitionPath: Option<string>,
    refs: Option<seq<RefLink>>, cases: seq<PreviewFunctionCase>)

  datatype Preview = Preview(sqlCaseCatalogs: seq<PreviewSqlCatalog>, testCaseCatalogs: seq<PreviewFunctionCatalog>)

  // ------------------------------------------------------------ normal form

  datatype DiffCase = DiffCase(
    id: string, title: string, input: Json, expected: Expectation, output: Option<Json>, error: Option<CaseError>,
    tags: Option<seq<string>>, focus: Option<string>, refs: Option<seq<RefLink>>)

  datatype DiffCatalog = DiffCatalog(
    kind: Kind, catalogId: string, title: string, description: Option<string>, definition: Option<string>,
    refs: Option<seq<RefLink>>, fixtures: Option<seq<string>>, cases: seq<DiffCase>)

  function CatalogId(c: DiffCatalog): string {
    c.catalogId
  }

  function CaseId(t: DiffCase): string {
    t.id
  }

  function TrimmedOrNone(s: Option<string>): Option<string> {
    if s.Some? && Trim(s.value) != "" then Some(Trim(s.value)) else None
  }

  function TrimRef(r: RefLink): RefLink {
    RefLink(Trim(r.caption), Trim(r.url))
  }

  /** `a.label.localeCompare(b.label) || a.url.localeCompare(b.url)` is not positive. */
  function RefLe(collate: Collation): (RefLink, RefLink) -> bool {
    (a: RefLink, b: RefLink) =>
      collate(a.caption, b.caption) && (collate(b.caption, a.caption) ==> collate(a.url, b.url))
  }

  function NormalRefs(refs: Option<seq<RefLink>>, collate: Collation): Option<seq<RefLink>> {
    if refs.Some? && refs.value != [] then Some(SortBy(Map(refs.value, TrimRef), RefLe(collate))) else None
  }

  function SortedFixtures(fixtures: Option<seq<string>>, collate: Collation): seq<string> {
    SortBy(if fixtures.Some? then fixtures.value else [], collate)
  }

  function NormalSqlCase(t: PreviewSqlCase): DiffCase {
    DiffCase(t.id, t.title, t.params, Succeeds, Some(t.expected), None, None, None, None)
  }

  function NormalSqlCatalog(c: PreviewSqlCatalog, collate: Collation): DiffCatalog {
    DiffCatalog(Sql, c.id, c.title, TrimmedOrNone(c.description), c.definitionPath, NormalRefs(c.refs, collate),
                Some(SortedFixtures(c.fixtures, collate)), Map(c.cases, NormalSqlCase))
  }

  function NormalFunctionCase(t: PreviewFunctionCase, collate: Collation): DiffCase {
    DiffCase(t.id, t.title, t.input, t.expected,
             if t.expected == Throws then None else t.output,
             if t.expected == Throws then t.error else None,
             if t.tags.Some? && t.tags.value != [] then t.tags else None,
             TrimmedOrNone(t.focus), NormalRefs(t.refs, collate))
  }

  function NormalFunctionCatalog(c: PreviewFunctionCatalog, collate: Collation): DiffCatalog {
    DiffCatalog(Function, c.id, c.title, TrimmedOrNone(c.description), c.definitionPath, NormalRefs(c.refs, collate),
                None, Map(c.cases, t => NormalFunctionCase(t, collate)))
  }

  function CatalogLe(collate: Collation): (DiffCatalog, DiffCatalog) -> bool {
    (a: DiffCatalog, b: DiffCatalog) => collate(a.catalogId, b.catalogId)
  }

  function NormalSqlCatalogs(cs: seq<PreviewSqlCatalog>, collate: Collation): seq<DiffCatalog> {
    Map(cs, c => NormalSqlCatalog(c, collate))
  }

  function NormalFunctionCatalogs(cs: seq<PreviewFunctionCatalog>, collate: Collation): seq<DiffCatalog> {
    Map(cs, c => NormalFunctionCatalog(c, collate))
  }

  function NormalizeCatalogsForDiff(p: Preview, collate: Collation): seq<DiffCatalog> {
    SortBy(NormalSqlCatalogs(p.sqlCaseCatalogs, collate) + NormalFunctionCatalogs(p.testCaseCatalogs, collate),
           CatalogLe(collate))
  }

  lemma RefLeIsPreorder(collate: Collation)
    requires TotalPreorder(collate)
    ensures TotalPreorder(RefLe(collate))
  {
    var le := RefLe(collate);
    forall a, b ensures le(a, b) || le(b, a) {
      assert collate(a.caption, b.caption) || collate(b.caption, a.caption);
      assert collate(a.url, b.url) || collate(b.url, a.url);
    }
    forall a, b, c | le(a, b) && le(b, c) ensures le(a, c) {
      assert collate(a.caption, b.caption) && collate(b.caption, c.caption);
    }
  }

  lemma CatalogLeIsPreorder(collate: Collation)
    requires TotalPreorder(collate)
    ensures TotalPreorder(CatalogLe(collate))
  {
    var le := CatalogLe(collate);
    forall a, b ensures le(a, b) || le(b, a) {
      assert collate(a.catalogId, b.catalogId) || collate(b.catalogId, a.catalogId);
    }
    forall a, b, c | le(a, b) && le(b, c) ensures le(a, c) {
      assert collate(a.catalogId, b.catalogId) && collate(b.catalogId, c.catalogId);
    }
  }
}
