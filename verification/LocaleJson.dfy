/** The fingerprint of the evidence diff: object keys sorted by the locale, printed in JavaScript's property order. */
module LocaleJson {
  import opened StableSort
  import opened Json
  import opened StableJson

  /** `collate(a, b)` says that `a.localeCompare(b)` is not positive. */
  type Collation = (string, string) -> bool

  const MAX_ARRAY_INDEX: nat := 4294967294

  predicate AllDigits(s: string) {
    forall i :: 0 <= i < |s| ==> '0' <= s[i] <= '9'
  }

  function DecimalValue(s: string): nat
    requires AllDigits(s)
  {
    if s == "" then 0 else 10 * DecimalValue(s[..|s| - 1]) + (s[|s| - 1] - '0') as nat
  }

  predicate IsCanonicalNumber(s: string) {
    s != "" && AllDigits(s) && (|s| > 1 ==> s[0] != '0')
  }

  /** Keys that JavaScript enumerates first, in numeric order, however they were inserted. */
  predicate IsArrayIndex(key: string) {
    IsCanonicalNumber(key) && DecimalValue(key) <= MAX_ARRAY_INDEX
  }

  predicate HasIndexKey(m: Member) {
    IsArrayIndex(m.key)
  }

  predicate HasPlainKey(m: Member) {
    !IsArrayIndex(m.key)
  }

  predicate IndexLe(m: Member, n: Member) {
    (if AllDigits(m.key) then DecimalValue(m.key) else 0) <= (if AllDigits(n.key) then DecimalValue(n.key) else 0)
  }

  /** The order in which an object built from these entries lists its own keys. */
  function PropertyOrder(ms: seq<Member>): seq<Member> {
    SortBy(Filter(ms, HasIndexKey), IndexLe) + Filter(ms, HasPlainKey)
  }

  function LocaleLe(collate: Collation): (Member, Member) -> bool {
    (m: Member, n: Member) => collate(m.key, n.key)
  }

  function ByLocale(collate: Collation): Arrangement {
    ms => PropertyOrder(SortBy(ms, LocaleLe(collate)))
  }

  function ToStableValue(v: Json, collate: Collation): Json {
    Stable(v, ByLocale(collate))
  }

  function StableStringify(v: Json, collate: Collation): string {
    Print(ToStableValue(v, collate))
  }

  lemma StableObject(ms: seq<Member>, arrange: Arrangement)
    ensures Stable(Obj(ms), arrange) == Obj(arrange(StableMembers(ms, arrange)))
  {
  }

  function StableEntries(ms: seq<Member>, collate: Collation): (r: seq<Member>)
    ensures |r| == |ms| && forall i :: 0 <= i < |ms| ==> r[i] == Member(ms[i].key, ToStableValue(ms[i].value, collate))
  {
    Map(ms, (m: Member) => Member(m.key, ToStableValue(m.value, collate)))
  }

  lemma StableEntriesAreMembers(ms: seq<Member>, collate: Collation)
    ensures StableEntries(ms, collate) == StableMembers(ms, ByLocale(collate))
  {
    hide Stable, StableMembers, ByLocale;
  }

  lemma SortThenMapEntries(ms: seq<Member>, collate: Collation)
    ensures SortBy(StableEntries(ms, collate), LocaleLe(collate)) ==
      StableEntries(SortBy(ms, LocaleLe(collate)), collate)
  {
    hide ToStableValue, SortBy;
    SortCommutesWithMap(ms, (m: Member) => Member(m.key, ToStableValue(m.value, collate)), LocaleLe(collate),
      LocaleLe(collate));
  }

  /** The source sorts the entries before it maps their values; the order of the two does not show. */
  lemma SortingFirstIsTheSame(ms: seq<Member>, collate: Collation)
    ensures ToStableValue(Obj(ms), collate) == Obj(PropertyOrder(StableEntries(SortBy(ms, LocaleLe(collate)), collate)))
  {
    hide Stable, SortBy, PropertyOrder, StableEntries, LocaleLe;
    StableObject(ms, ByLocale(collate));
    StableEntriesAreMembers(ms, collate);
    SortThenMapEntries(ms, collate);
  }

  lemma PropertyOrderKeepsMembers(ms: seq<Member>)
    ensures multiset(PropertyOrder(ms)) == multiset(ms)
  {
    FilterSplits(ms, HasIndexKey, HasPlainKey);
  }

  lemma ByLocaleKeepsMembers(collate: Collation)
    ensures KeepsMembers(ByLocale(collate))
  {
    forall ms ensures multiset(ByLocale(collate)(ms)) == multiset(ms) {
      PropertyOrderKeepsMembers(SortBy(ms, LocaleLe(collate)));
    }
  }

  lemma {:induction false} PositiveValue(s: string)
    requires AllDigits(s) && s != "" && s[0] != '0'
    ensures DecimalValue(s) >= 1
  {
    if |s| > 1 {
      PositiveValue(s[..|s| - 1]);
    }
  }

  /** Canonical numbers with one value are one text. */
  lemma {:induction false} DecimalValueIsInjective(s: string, t: string)
    requires IsCanonicalNumber(s) && IsCanonicalNumber(t) && DecimalValue(s) == DecimalValue(t)
    ensures s == t
    decreases |s|
  {
    var s', t' := s[..|s| - 1], t[..|t| - 1];
    var d, e := (s[|s| - 1] - '0') as nat, (t[|t| - 1] - '0') as nat;
    assert 10 * DecimalValue(s') + d == 10 * DecimalValue(t') + e && d < 10 && e < 10;
    assert DecimalValue(s') == DecimalValue(t') && d == e;
    if |s| > 1 {
      PositiveValue(s');
    }
    if |t| > 1 {
      PositiveValue(t');
    }
    if |s| > 1 && |t| > 1 {
      DecimalValueIsInjective(s', t');
    }
    assert s == s' + [s[|s| - 1]] && t == t' + [t[|t| - 1]];
  }

  lemma IndexLeIsPreorder()
    ensures TotalPreorder(IndexLe)
  {
  }

  lemma LocaleLeIsPreorder(collate: Collation)
    requires TotalPreorder(collate)
    ensures TotalPreorder(LocaleLe(collate))
  {
    var le := LocaleLe(collate);
    forall a, b ensures le(a, b) || le(b, a) {
      assert collate(a.key, b.key) || collate(b.key, a.key);
    }
    forall a, b, c | le(a, b) && le(b, c) ensures le(a, c) {
      assert collate(a.key, b.key) && collate(b.key, c.key);
    }
  }

  lemma SameKeyIsSameMember(ms: seq<Member>, a: Member, b: Member)
    requires DistinctKeys(ms) && a in ms && b in ms && a.key == b.key
    ensures a == b
  {
  }

  lemma IndexKeysSettle(ms: seq<Member>, ns: seq<Member>)
    requires DistinctKeys(ms) && multiset(ms) == multiset(ns)
    ensures SortBy(Filter(ms, HasIndexKey), IndexLe) == SortBy(Filter(ns, HasIndexKey), IndexLe)
  {
    IndexLeIsPreorder();
    FilterMultiset(ms, ns, HasIndexKey);
    var f := Filter(ms, HasIndexKey);
    forall a, b | a in f && b in f && IndexLe(a, b) && IndexLe(b, a) ensures a == b {
      DecimalValueIsInjective(a.key, b.key);
      SameKeyIsSameMember(ms, a, b);
    }
    SortForgetsOrder(f, Filter(ns, HasIndexKey), IndexLe);
  }

  /** No two different plain keys of these members tie in the locale. */
  predicate NoTies(ms: seq<Member>, collate: Collation) {
    forall m, n :: m in ms && n in ms && HasPlainKey(m) && HasPlainKey(n) && collate(m.key, n.key) &&
                    collate(n.key, m.key) ==>
      m.key == n.key
  }

  /** No object of the value, at any depth, has two different plain keys that tie in the locale. */
  predicate NoTiedKeys(v: Json, collate: Collation) {
    match v
    case Arr(items) => forall i :: 0 <= i < |items| ==> NoTiedKeys(items[i], collate)
    case Obj(ms) => NoTies(ms, collate) && forall i :: 0 <= i < |ms| ==> NoTiedKeys(ms[i].value, collate)
    case _ => true
  }

  lemma PlainKeysSettle(ms: seq<Member>, ns: seq<Member>, collate: Collation)
    requires TotalPreorder(collate) && NoTies(ms, collate)
    requires DistinctKeys(ms) && multiset(ms) == multiset(ns)
    requires Sorted(ms, LocaleLe(collate)) && Sorted(ns, LocaleLe(collate))
    ensures Filter(ms, HasPlainKey) == Filter(ns, HasPlainKey)
  {
    LocaleLeIsPreorder(collate);
    FilterMultiset(ms, ns, HasPlainKey);
    FilterKeepsSorted(ms, HasPlainKey, LocaleLe(collate));
    FilterKeepsSorted(ns, HasPlainKey, LocaleLe(collate));
    var f, le := Filter(ms, HasPlainKey), LocaleLe(collate);
    forall a, b | a in f && b in f && le(a, b) && le(b, a) ensures a == b {
      SameKeyIsSameMember(ms, a, b);
    }
    SortedIsUnique(f, Filter(ns, HasPlainKey), le);
  }

  lemma DistinctKeysUnderPermutation(ms: seq<Member>, ns: seq<Member>)
    requires DistinctKeys(ms) && multiset(ms) == multiset(ns)
    ensures DistinctKeys(ns)
  {
    assert Distinct(ms);
    DistinctUnderPermutation(ms, ns);
    SameElements(ms, ns);
    forall i, j | 0 <= i < j < |ns| ensures ns[i].key != ns[j].key {
      assert ns[i] in ms && ns[j] in ms && ns[i] != ns[j];
    }
  }

  /** Members without ties are laid out in one way, however they came. */
  lemma ByLocaleSettles(ms: seq<Member>, ns: seq<Member>, collate: Collation)
    requires TotalPreorder(collate) && NoTies(ms, collate) && DistinctKeys(ms) && multiset(ms) == multiset(ns)
    ensures ByLocale(collate)(ms) == ByLocale(collate)(ns)
  {
    hide TotalPreorder, DistinctKeys;
    var le := LocaleLe(collate);
    LocaleLeIsPreorder(collate);
    SortByIsSorted(ms, le);
    SortByIsSorted(ns, le);
    SameElements(ms, SortBy(ms, le));
    DistinctKeysUnderPermutation(ms, SortBy(ms, le));
    IndexKeysSettle(SortBy(ms, le), SortBy(ns, le));
    PlainKeysSettle(SortBy(ms, le), SortBy(ns, le), collate);
  }

  lemma NoTiesInForms(ms: seq<Member>, collate: Collation)
    requires NoTies(ms, collate)
    ensures NoTies(StableMembers(ms, ByLocale(collate)), collate)
  {
    hide Stable, StableMembers, ByLocale, IsArrayIndex;
    var sm := StableMembers(ms, ByLocale(collate));
    hide ToStableValue;
    forall m, n | m in sm && n in sm && HasPlainKey(m) && HasPlainKey(n) && collate(m.key, n.key) &&
      collate(n.key, m.key)
      ensures m.key == n.key
    {
      var m' := FormOf(ms, m, collate);
      var n' := FormOf(ms, n, collate);
      assert HasPlainKey(m') && HasPlainKey(n');
    }
  }

  lemma FormOf(ms: seq<Member>, m: Member, collate: Collation) returns (m': Member)
    requires m in StableMembers(ms, ByLocale(collate))
    ensures m' in ms && m'.key == m.key
  {
    hide StableMembers;
    var i :| 0 <= i < |ms| && StableMembers(ms, ByLocale(collate))[i] == m;
    m' := ms[i];
  }

  /** Equal values get one form when the first has no tied keys. */
  lemma {:induction false} EqualValuesOneForm(a: Json, b: Json, collate: Collation)
    requires TotalPreorder(collate) && WellFormed(a) && WellFormed(b) && Equiv(a, b) && NoTiedKeys(a, collate)
    ensures ToStableValue(a, collate) == ToStableValue(b, collate)
    decreases a
  {
    hide ByLocale, TotalPreorder, NoTies;
    var arrange := ByLocale(collate);
    if a.Arr? {
      forall i | 0 <= i < |a.items| ensures Stable(a.items[i], arrange) == Stable(b.items[i], arrange) {
        EqualValuesOneForm(a.items[i], b.items[i], collate);
      }
      assert StableItems(a.items, arrange) == StableItems(b.items, arrange);
    } else if a.Obj? {
      var ms, ns := a.members, b.members;
      forall i, j | 0 <= i < |ms| && 0 <= j < |ns| && ms[i].key == ns[j].key
        ensures Stable(ms[i].value, arrange) == Stable(ns[j].value, arrange)
      {
        EqualValuesOneForm(ms[i].value, ns[j].value, collate);
      }
      EquivMembersPermute(ms, ns, arrange);
      NoTiesInForms(ms, collate);
      ByLocaleSettles(StableMembers(ms, arrange), StableMembers(ns, arrange), collate);
    }
  }

  /** Whatever the locale, equal fingerprints mean equal values: no change is missed. */
  lemma EqualFingerprintsMeanEqualValues(a: Json, b: Json, collate: Collation)
    requires WellFormed(a) && WellFormed(b) && StableStringify(a, collate) == StableStringify(b, collate)
    ensures Equiv(a, b)
  {
    hide ByLocale, Print, Stable;
    PrintIsInjective(ToStableValue(a, collate), ToStableValue(b, collate));
    ByLocaleKeepsMembers(collate);
    SameFormMeansEquiv(a, b, ByLocale(collate));
  }

  /** A value without tied keys has the fingerprint of another exactly when the two are equal up to key order. */
  lemma FingerprintIdentifies(a: Json, b: Json, collate: Collation)
    requires TotalPreorder(collate) && WellFormed(a) && WellFormed(b) && NoTiedKeys(a, collate)
    ensures StableStringify(a, collate) == StableStringify(b, collate) <==> Equiv(a, b)
  {
    hide ByLocale, Print, Equiv, WellFormed, NoTiedKeys, TotalPreorder, ToStableValue;
    if StableStringify(a, collate) == StableStringify(b, collate) {
      EqualFingerprintsMeanEqualValues(a, b, collate);
    }
    if Equiv(a, b) {
      EqualValuesOneForm(a, b, collate);
    }
  }
}
