/** What the fingerprints of a diff mean: records, cases and catalog headers with equal fingerprints. */
module EvidenceLaws {
  import opened Wrappers
  import opened StableSort
  import opened Json
  import opened StableJson
  import opened JsonRecords
  import opened LocaleJson
  import opened LocaleTies
  import opened EvidencePreview
  import opened EvidenceDiff

  lemma StringArraysEquiv(ss: seq<string>, ts: seq<string>)
    ensures Equiv(StringArray(ss), StringArray(ts)) <==> ss == ts
  {
    var xs, ys := StringArray(ss).items, StringArray(ts).items;
    assert forall i :: 0 <= i < |ss| ==> xs[i] == Str(ss[i]);
    assert forall i :: 0 <= i < |ts| ==> ys[i] == Str(ts[i]);
    if Equiv(StringArray(ss), StringArray(ts)) {
      forall i | 0 <= i < |ss| ensures ss[i] == ts[i] {
        assert Equiv(xs[i], ys[i]);
      }
    }
  }

  // ------------------------------------------------- fingerprints of records

  predicate NoTiesInValues(vs: seq<Option<Json>>, collate: Collation) {
    forall i :: 0 <= i < |vs| && vs[i].Some? ==> NoTiedKeys(vs[i].value, collate)
  }

  lemma FormsOfFirst(m: Member, ms: seq<Member>, arrange: Arrangement)
    ensures StableMembers([m] + ms, arrange) == [Member(m.key, Stable(m.value, arrange))] + StableMembers(ms, arrange)
  {
    hide Stable;
    assert ([m] + ms)[1..] == ms;
  }

  /** Records list their fields in one order, so equal fields give equal forms even when field names tie. */
  lemma {:induction false} SameValuesSameForms(keys: seq<string>, vs: seq<Option<Json>>, ws: seq<Option<Json>>,
                                               collate: Collation)
    requires TotalPreorder(collate) && |keys| == |vs| == |ws| && SameValues(vs, ws)
    requires WellFormedValues(vs) && WellFormedValues(ws) && NoTiesInValues(vs, collate)
    ensures StableMembers(RecordMembers(keys, vs), ByLocale(collate)) ==
      StableMembers(RecordMembers(keys, ws), ByLocale(collate))
  {
    hide TotalPreorder, WellFormed, NoTiedKeys, Equiv, Stable, ByLocale, StableMembers;
    if keys != [] {
      var arrange := ByLocale(collate);
      SameValuesSameForms(keys[1..], vs[1..], ws[1..], collate);
      assert SameValue(vs[0], ws[0]);
      if vs[0].Some? {
        EqualValuesOneForm(vs[0].value, ws[0].value, collate);
        FormsOfFirst(Member(keys[0], vs[0].value), RecordMembers(keys[1..], vs[1..]), arrange);
        FormsOfFirst(Member(keys[0], ws[0].value), RecordMembers(keys[1..], ws[1..]), arrange);
      } else {
        assert RecordMembers(keys, vs) == RecordMembers(keys[1..], vs[1..]);
        assert RecordMembers(keys, ws) == RecordMembers(keys[1..], ws[1..]);
      }
    }
  }

  /** Records over the same fields have one fingerprint exactly when they are equal field by field. */
  lemma RecordFingerprints(keys: seq<string>, vs: seq<Option<Json>>, ws: seq<Option<Json>>, collate: Collation)
    requires TotalPreorder(collate) && |keys| == |vs| == |ws| && Distinct(keys)
    requires WellFormedValues(vs) && WellFormedValues(ws) && NoTiesInValues(vs, collate)
    ensures StableStringify(Obj(RecordMembers(keys, vs)), collate) ==
             StableStringify(Obj(RecordMembers(keys, ws)), collate) <==>
      SameValues(vs, ws)
  {
    hide TotalPreorder, WellFormed, NoTiedKeys, Equiv, Stable, ByLocale, StableMembers, Print, RecordMembers, SameValue;
    var a, b := Obj(RecordMembers(keys, vs)), Obj(RecordMembers(keys, ws));
    RecordIsWellFormed(keys, vs);
    RecordIsWellFormed(keys, ws);
    RecordsEquiv(keys, vs, ws);
    if StableStringify(a, collate) == StableStringify(b, collate) {
      EqualFingerprintsMeanEqualValues(a, b, collate);
    }
    if SameValues(vs, ws) {
      SameValuesSameForms(keys, vs, ws, collate);
      StableObject(a.members, ByLocale(collate));
      StableObject(b.members, ByLocale(collate));
    }
  }

  // --------------------------------------------------- fingerprints of cases

  ghost predicate WellFormedCase(t: DiffCase) {
    WellFormed(t.input) && (t.output.Some? ==> WellFormed(t.output.value))
  }

  /** What the diff looks at in a case: not its title, expectation, error, tags, focus or references. */
  ghost predicate SameEvidence(b: DiffCatalog, u: DiffCase, a: DiffCatalog, t: DiffCase) {
    && b.kind == a.kind && b.catalogId == a.catalogId && u.id == t.id
    && Equiv(u.input, t.input) && SameValue(u.output, t.output)
    && (b.kind == Sql ==> FixturesOf(b) == FixturesOf(a) && DefinitionOf(b) == DefinitionOf(a))
  }

  /** No object in the case's input or output has two keys that tie in the locale. */
  predicate NoTiesInCase(t: DiffCase, collate: Collation) {
    NoTiedKeys(t.input, collate) && (t.output.Some? ==> NoTiedKeys(t.output.value, collate))
  }

  lemma StringsHaveNoTies(ss: seq<string>, collate: Collation)
    ensures WellFormed(StringArray(ss)) && NoTiedKeys(StringArray(ss), collate)
  {
    var items := StringArray(ss).items;
    assert forall i :: 0 <= i < |items| ==> items[i] == Str(ss[i]);
  }

  lemma CaseValuesFit(c: DiffCatalog, t: DiffCase, collate: Collation)
    requires WellFormedCase(t)
    ensures WellFormedValues(CaseValues(c, t))
    ensures NoTiesInCase(t, collate) ==> NoTiesInValues(CaseValues(c, t), collate)
  {
    StringsHaveNoTies(FixturesOf(c), collate);
    hide StringArray, NoTies;
    var vs := CaseValues(c, t);
    assert vs[3] == Some(t.input) && vs[4] == t.output;
    assert vs[5].Some? ==> vs[5].value == StringArray(FixturesOf(c));
  }

  lemma CaseKeysDistinct()
    ensures Distinct(CASE_KEYS)
  {
    assert |CASE_KEYS[0]| == 4 && |CASE_KEYS[1]| == 9 && |CASE_KEYS[2]| == 6 && |CASE_KEYS[3]| == 5;
    assert |CASE_KEYS[4]| == 6 && |CASE_KEYS[5]| == 8 && |CASE_KEYS[6]| == 10;
    assert CASE_KEYS[2][0] == 'c' && CASE_KEYS[4][0] == 'o';
  }

  lemma CaseValuesMatch(b: DiffCatalog, u: DiffCase, a: DiffCatalog, t: DiffCase)
    ensures SameValues(CaseValues(b, u), CaseValues(a, t)) <==> SameEvidence(b, u, a, t)
  {
    StringArraysEquiv(FixturesOf(b), FixturesOf(a));
    hide StringArray, FixturesOf, DefinitionOf;
    var vs, ws := CaseValues(b, u), CaseValues(a, t);
    KindTexts();
    assert SameValue(vs[0], ws[0]) <==> b.kind == a.kind;
    assert SameValue(vs[1], ws[1]) <==> b.catalogId == a.catalogId;
    assert SameValue(vs[2], ws[2]) <==> u.id == t.id;
    assert SameValue(vs[3], ws[3]) <==> Equiv(u.input, t.input);
    assert SameValue(vs[4], ws[4]) <==> SameValue(u.output, t.output);
    assert b.kind == a.kind == Sql ==> (SameValue(vs[5], ws[5]) <==> FixturesOf(b) == FixturesOf(a));
    assert b.kind == a.kind == Sql ==> (SameValue(vs[6], ws[6]) <==> DefinitionOf(b) == DefinitionOf(a));
    assert b.kind == a.kind == Function ==> SameValue(vs[5], ws[5]) && SameValue(vs[6], ws[6]);
  }

  lemma KindTexts()
    ensures KindText(Sql)[0] == 's' && KindText(Function)[0] == 'f'
  {
  }

  /** A case counts as unchanged exactly when its kind, input, output and, in SQL catalogs, fixtures and definition
      are equal up to key order. */
  lemma FingerprintsMeanSameEvidence(b: DiffCatalog, u: DiffCase, a: DiffCatalog, t: DiffCase, collate: Collation)
    requires TotalPreorder(collate) && WellFormedCase(u) && WellFormedCase(t) && NoTiesInCase(u, collate)
    ensures CaseFingerprint(b, u, collate) == CaseFingerprint(a, t, collate) <==> SameEvidence(b, u, a, t)
  {
    hide WellFormedCase, WellFormed, StableStringify, Equiv, TotalPreorder, SameEvidence, SameValue, RecordMembers,
      CaseValues, NoTiesInCase, NoTiesInValues, WellFormedValues;
    CaseKeysDistinct();
    CaseValuesFit(b, u, collate);
    CaseValuesFit(a, t, collate);
    RecordFingerprints(CASE_KEYS, CaseValues(b, u), CaseValues(a, t), collate);
    CaseValuesMatch(b, u, a, t);
  }

  /** Where a field stands in the record of a case. */
  lemma FieldAt(c: DiffCatalog, t: DiffCase, field: nat) returns (i: nat)
    requires field < |CASE_KEYS| && CaseValues(c, t)[field].Some?
    ensures var ms := RecordMembers(CASE_KEYS, CaseValues(c, t));
      i < |ms| && ms[i] == Member(CASE_KEYS[field], CaseValues(c, t)[field].value)
  {
    hide RecordMembers, CaseValues, ValueUnder;
    CaseKeysDistinct();
    RecordMemberValue(CASE_KEYS, CaseValues(c, t), CASE_KEYS[field]);
    ValueUnderIs(CASE_KEYS, CaseValues(c, t), field);
    i := MemberValueFrom(RecordMembers(CASE_KEYS, CaseValues(c, t)), CASE_KEYS[field]);
  }

  /** A field with another form shows in the fingerprint. */
  lemma FieldShows(c: DiffCatalog, u: DiffCase, t: DiffCase, field: nat, collate: Collation)
    requires field < |CASE_KEYS| && CaseValues(c, u)[field].Some? && CaseValues(c, t)[field].Some?
    requires ToStableValue(CaseValues(c, u)[field].value, collate) !=
      ToStableValue(CaseValues(c, t)[field].value, collate)
    ensures CaseFingerprint(c, u, collate) != CaseFingerprint(c, t, collate)
  {
    hide RecordMembers, CaseValues, ToStableValue, Print;
    var a, b := CaseRecord(c, u), CaseRecord(c, t);
    var i := FieldAt(c, u, field);
    var j := FieldAt(c, t, field);
    CaseKeysDistinct();
    RecordKeysAreFrom(CASE_KEYS, CaseValues(c, t));
    PrintIsInjective(ToStableValue(a, collate), ToStableValue(b, collate));
    if ToStableValue(a, collate) == ToStableValue(b, collate) {
      MemberFormShows(a.members, b.members, i, j, collate);
    }
  }

  /** The condition is exact: a case with tied keys has a twin with the same evidence and another fingerprint. */
  lemma TiedCaseShows(c: DiffCatalog, u: DiffCase, collate: Collation) returns (t: DiffCase)
    requires WellFormedCase(u) && !NoTiesInCase(u, collate)
    ensures WellFormedCase(t) && SameEvidence(c, u, c, t) &&
      CaseFingerprint(c, u, collate) != CaseFingerprint(c, t, collate)
  {
    hide CaseFingerprint, WellFormed, Equiv, ToStableValue, NoTiedKeys;
    EquivToItself(u.input);
    if !NoTiedKeys(u.input, collate) {
      var v := TiesShow(u.input, collate);
      t := u.(input := v);
      if u.output.Some? {
        EquivToItself(u.output.value);
      }
      FieldShows(c, u, t, 3, collate);
    } else {
      var v := TiesShow(u.output.value, collate);
      t := u.(output := Some(v));
      FieldShows(c, u, t, 4, collate);
    }
  }

  // ------------------------------------------------- fingerprints of headers

  lemma HeaderKeysDistinct()
    ensures Distinct(HEADER_KEYS)
  {
    assert |HEADER_KEYS[0]| == 4 && |HEADER_KEYS[1]| == 9 && |HEADER_KEYS[2]| == 5;
    assert |HEADER_KEYS[3]| == 10 && |HEADER_KEYS[4]| == 8;
  }

  /** Titles count: a catalog's own fields are unchanged exactly when they are the same, in any locale. */
  lemma HeadersMeanSameFields(b: DiffCatalog, a: DiffCatalog, collate: Collation)
    requires TotalPreorder(collate)
    ensures HeaderFingerprint(b, collate) == HeaderFingerprint(a, collate) <==>
      && b.kind == a.kind && b.catalogId == a.catalogId && b.title == a.title && b.definition == a.definition
      && FixturesOf(b) == FixturesOf(a)
  {
    hide StableStringify, TotalPreorder, RecordMembers;
    HeaderKeysDistinct();
    HeaderValuesFit(b, collate);
    HeaderValuesFit(a, collate);
    HeaderValuesMatch(b, a);
    hide HeaderValues, SameValues;
    RecordFingerprints(HEADER_KEYS, HeaderValues(b), HeaderValues(a), collate);
  }

  lemma HeaderValuesFit(c: DiffCatalog, collate: Collation)
    ensures WellFormedValues(HeaderValues(c)) && NoTiesInValues(HeaderValues(c), collate)
  {
    StringsHaveNoTies(FixturesOf(c), collate);
    hide StringArray, NoTies;
    var vs := HeaderValues(c);
    assert vs[4].value == StringArray(FixturesOf(c));
  }

  lemma HeaderValuesMatch(b: DiffCatalog, a: DiffCatalog)
    ensures SameValues(HeaderValues(b), HeaderValues(a)) <==>
      && b.kind == a.kind && b.catalogId == a.catalogId && b.title == a.title && b.definition == a.definition
      && FixturesOf(b) == FixturesOf(a)
  {
    StringArraysEquiv(FixturesOf(b), FixturesOf(a));
    hide StringArray, FixturesOf;
    var vs, ws := HeaderValues(b), HeaderValues(a);
    KindTexts();
    assert SameValue(vs[0], ws[0]) <==> b.kind == a.kind;
    assert SameValue(vs[1], ws[1]) <==> b.catalogId == a.catalogId;
    assert SameValue(vs[2], ws[2]) <==> b.title == a.title;
    assert SameValue(vs[3], ws[3]) <==> b.definition == a.definition;
    assert SameValue(vs[4], ws[4]) <==> FixturesOf(b) == FixturesOf(a);
  }
}
