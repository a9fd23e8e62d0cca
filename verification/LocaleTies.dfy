/** Keys that the locale ties: which values they give more than one fingerprint. */
module LocaleTies {
  import opened StableSort
  import opened Json
  import opened StableJson
  import opened LocaleJson

  // ------------------------------------------------ the sort is stable

  ghost predicate Before<T>(s: seq<T>, x: T, y: T) {
    exists i, j :: 0 <= i < j < |s| && s[i] == x && s[j] == y
  }

  lemma BeforeInTail<T>(x: T, s: seq<T>, a: T, b: T)
    requires Before(s, a, b)
    ensures Before([x] + s, a, b)
  {
    var i, j :| 0 <= i < j < |s| && s[i] == a && s[j] == b;
    var t := [x] + s;
    assert t[i + 1] == a && t[j + 1] == b;
  }

  lemma BeforeHead<T>(x: T, s: seq<T>, b: T)
    requires b in s
    ensures Before([x] + s, x, b)
  {
    var j :| 0 <= j < |s| && s[j] == b;
    var t := [x] + s;
    assert t[0] == x && t[j + 1] == b;
  }

  lemma BeforeSplits<T>(s: seq<T>, a: T, b: T)
    requires Before(s, a, b)
    ensures s != [] && ((s[0] == a && b in s[1..]) || Before(s[1..], a, b))
  {
    var i, j :| 0 <= i < j < |s| && s[i] == a && s[j] == b;
    assert s[1..][j - 1] == b;
    if i > 0 {
      assert s[1..][i - 1] == a;
    }
  }

  lemma {:induction false} InsertedBefore<T>(x: T, s: seq<T>, b: T, le: (T, T) -> bool)
    requires b in s && le(x, b)
    ensures Before(Insert(x, s, le), x, b)
  {
    if le(x, s[0]) {
      BeforeHead(x, s, b);
    } else {
      assert s[0] != b && b in s[1..];
      InsertedBefore(x, s[1..], b, le);
      BeforeInTail(s[0], Insert(x, s[1..], le), x, b);
    }
  }

  lemma InsertHas<T>(x: T, s: seq<T>, b: T, le: (T, T) -> bool)
    requires b in s
    ensures b in Insert(x, s, le)
  {
    SameElements(Insert(x, s, le), [x] + s);
    assert b in [x] + s;
  }

  lemma {:induction false} InsertKeepsBefore<T>(x: T, s: seq<T>, a: T, b: T, le: (T, T) -> bool)
    requires Before(s, a, b)
    ensures Before(Insert(x, s, le), a, b)
  {
    BeforeSplits(s, a, b);
    if le(x, s[0]) {
      BeforeInTail(x, s, a, b);
    } else if s[0] == a && b in s[1..] {
      InsertHas(x, s[1..], b, le);
      BeforeHead(s[0], Insert(x, s[1..], le), b);
    } else {
      InsertKeepsBefore(x, s[1..], a, b, le);
      BeforeInTail(s[0], Insert(x, s[1..], le), a, b);
    }
  }

  /** An element that may stand before a later one still stands before it when the list is sorted. */
  lemma {:induction false} SortKeepsBefore<T>(s: seq<T>, a: T, b: T, le: (T, T) -> bool)
    requires Before(s, a, b) && le(a, b)
    ensures Before(SortBy(s, le), a, b)
  {
    BeforeSplits(s, a, b);
    if s[0] == a && b in s[1..] {
      SameElements(s[1..], SortBy(s[1..], le));
      InsertedBefore(a, SortBy(s[1..], le), b, le);
    } else {
      SortKeepsBefore(s[1..], a, b, le);
      InsertKeepsBefore(s[0], SortBy(s[1..], le), a, b, le);
    }
  }

  lemma {:induction false} FilterKeepsBefore<T(!new)>(s: seq<T>, a: T, b: T, p: T -> bool)
    requires Before(s, a, b) && p(a) && p(b)
    ensures Before(Filter(s, p), a, b)
  {
    BeforeSplits(s, a, b);
    var rest := Filter(s[1..], p);
    if s[0] == a && b in s[1..] {
      BeforeHead(a, rest, b);
    } else {
      FilterKeepsBefore(s[1..], a, b, p);
      if p(s[0]) {
        BeforeInTail(s[0], rest, a, b);
      } else {
        assert Filter(s, p) == [] + rest == rest;
      }
    }
  }

  lemma BeforeOnlyOnce<T>(s: seq<T>, a: T, b: T)
    requires Distinct(s) && Before(s, a, b)
    ensures !Before(s, b, a)
  {
  }

  lemma AppendKeepsBefore<T>(s: seq<T>, t: seq<T>, a: T, b: T)
    requires Before(t, a, b)
    ensures Before(s + t, a, b)
  {
    var i, j :| 0 <= i < j < |t| && t[i] == a && t[j] == b;
    var u := s + t;
    assert u[|s| + i] == a && u[|s| + j] == b;
  }

  /** Of two plain members the layout keeps the order they came in, unless the locale puts the later one first. */
  lemma ByLocaleKeepsBefore(ms: seq<Member>, m: Member, n: Member, collate: Collation)
    requires Before(ms, m, n) && HasPlainKey(m) && HasPlainKey(n) && collate(m.key, n.key)
    ensures Before(ByLocale(collate)(ms), m, n)
  {
    hide IsArrayIndex, Filter, SortBy, Before;
    var le := LocaleLe(collate);
    SortKeepsBefore(ms, m, n, le);
    FilterKeepsBefore(SortBy(ms, le), m, n, HasPlainKey);
    AppendKeepsBefore(SortBy(Filter(SortBy(ms, le), HasIndexKey), IndexLe), Filter(SortBy(ms, le), HasPlainKey), m, n);
  }

  // --------------------------------------------------- exchanging two members

  function Exchange<T>(s: seq<T>, i: nat, j: nat): (r: seq<T>)
    requires i < j < |s|
    ensures |r| == |s| && r[i] == s[j] && r[j] == s[i]
    ensures forall k :: 0 <= k < |s| && k != i && k != j ==> r[k] == s[k]
  {
    s[i := s[j]][j := s[i]]
  }

  ghost predicate Differs(a: Json, b: Json, collate: Collation) {
    WellFormed(b) && Equiv(a, b) && ToStableValue(a, collate) != ToStableValue(b, collate)
  }

  lemma {:induction false} EquivToItself(v: Json)
    requires WellFormed(v)
    ensures Equiv(v, v)
  {
    if v.Arr? {
      forall i | 0 <= i < |v.items| ensures Equiv(v.items[i], v.items[i]) {
        EquivToItself(v.items[i]);
      }
    } else if v.Obj? {
      var ms := v.members;
      forall i | 0 <= i < |ms| ensures Equiv(ms[i].value, ms[i].value) {
        EquivToItself(ms[i].value);
      }
      assert forall i :: 0 <= i < |ms| ==> HasKey(ms, ms[i].key);
    }
  }

  function Place(k: nat, i: nat, j: nat): nat {
    if k == i then j else if k == j then i else k
  }

  lemma ExchangedAt<T>(s: seq<T>, i: nat, j: nat, k: nat)
    requires i < j < |s| && k < |s|
    ensures Place(k, i, j) < |s| && Exchange(s, i, j)[k] == s[Place(k, i, j)] && Place(Place(k, i, j), i, j) == k
  {
  }

  lemma ExchangedKeys(ms: seq<Member>, i: nat, j: nat)
    requires i < j < |ms| && DistinctKeys(ms)
    ensures DistinctKeys(Exchange(ms, i, j))
  {
    hide Exchange;
    var ns := Exchange(ms, i, j);
    forall k, l | 0 <= k < l < |ns| ensures ns[k].key != ns[l].key {
      ExchangedAt(ms, i, j, k);
      ExchangedAt(ms, i, j, l);
      assert Place(k, i, j) != Place(l, i, j);
    }
  }

  lemma ExchangedMembers(ms: seq<Member>, i: nat, j: nat)
    requires i < j < |ms| && DistinctKeys(ms)
    ensures SameKeys(ms, Exchange(ms, i, j)) && DistinctKeys(Exchange(ms, i, j))
  {
    hide Exchange, DistinctKeys;
    var ns := Exchange(ms, i, j);
    ExchangedKeys(ms, i, j);
    forall k | 0 <= k < |ms| ensures HasKey(ns, ms[k].key) && HasKey(ms, ns[k].key) {
      ExchangedAt(ms, i, j, k);
      ExchangedAt(ms, i, j, Place(k, i, j));
      assert ns[Place(k, i, j)] == ms[k];
    }
  }

  lemma ExchangedIsEquiv(ms: seq<Member>, i: nat, j: nat)
    requires i < j < |ms| && WellFormed(Obj(ms))
    ensures WellFormed(Obj(Exchange(ms, i, j))) && Equiv(Obj(ms), Obj(Exchange(ms, i, j)))
  {
    var ns := Exchange(ms, i, j);
    ExchangedMembers(ms, i, j);
    forall k | 0 <= k < |ns| ensures WellFormed(ns[k].value) {
      ExchangedAt(ms, i, j, k);
    }
    hide Exchange, SameKeys;
    forall k, l | 0 <= k < |ms| && 0 <= l < |ns| && ms[k].key == ns[l].key ensures Equiv(ms[k].value, ns[l].value) {
      ExchangedAt(ms, i, j, l);
      assert Place(l, i, j) == k;
      EquivToItself(ms[k].value);
    }
  }

  lemma ExchangedForms(ms: seq<Member>, i: nat, j: nat, arrange: Arrangement)
    requires i < j < |ms|
    ensures StableMembers(Exchange(ms, i, j), arrange) == Exchange(StableMembers(ms, arrange), i, j)
  {
    hide Stable, StableMembers;
  }

  lemma ExchangedLayouts(ms: seq<Member>, i: nat, j: nat, sm: seq<Member>, sn: seq<Member>, collate: Collation)
    requires i < j < |sm| && sn == Exchange(sm, i, j) && HasPlainKey(sm[i]) && HasPlainKey(sm[j])
    requires collate(sm[i].key, sm[j].key) && collate(sm[j].key, sm[i].key) && Distinct(ByLocale(collate)(sm))
    ensures ByLocale(collate)(sm) != ByLocale(collate)(sn)
  {
    hide ByLocale, IsArrayIndex, Distinct;
    var m, n := sm[i], sm[j];
    assert Before(sm, m, n);
    assert sn[i] == n && sn[j] == m && Before(sn, n, m);
    hide Before;
    ByLocaleKeepsBefore(sm, m, n, collate);
    ByLocaleKeepsBefore(sn, n, m, collate);
    BeforeOnlyOnce(ByLocale(collate)(sm), m, n);
  }

  lemma DistinctLayout(sm: seq<Member>, collate: Collation)
    requires Distinct(sm)
    ensures Distinct(ByLocale(collate)(sm))
  {
    hide ByLocale;
    ByLocaleKeepsMembers(collate);
    DistinctUnderPermutation(sm, ByLocale(collate)(sm));
  }

  lemma TiedFormsDiffer(ms: seq<Member>, i: nat, j: nat, collate: Collation)
    requires DistinctKeys(ms) && i < j < |ms| && HasPlainKey(ms[i]) && HasPlainKey(ms[j])
    requires collate(ms[i].key, ms[j].key) && collate(ms[j].key, ms[i].key)
    ensures ToStableValue(Obj(ms), collate) != ToStableValue(Obj(Exchange(ms, i, j)), collate)
  {
    hide Exchange, ByLocale, Stable, StableMembers, IsArrayIndex, Distinct, DistinctKeys;
    var arrange, ns := ByLocale(collate), Exchange(ms, i, j);
    StableObject(ms, arrange);
    StableObject(ns, arrange);
    ExchangedForms(ms, i, j, arrange);
    StableMembersDistinct(ms, arrange);
    DistinctLayout(StableMembers(ms, arrange), collate);
    ExchangedLayouts(ms, i, j, StableMembers(ms, arrange), StableMembers(ns, arrange), collate);
  }

  /** Two members whose plain keys tie keep the order they came in, and the fingerprint shows it. */
  lemma TiedKeysShow(ms: seq<Member>, i: nat, j: nat, collate: Collation)
    requires WellFormed(Obj(ms)) && i < j < |ms| && HasPlainKey(ms[i]) && HasPlainKey(ms[j])
    requires collate(ms[i].key, ms[j].key) && collate(ms[j].key, ms[i].key)
    ensures Differs(Obj(ms), Obj(Exchange(ms, i, j)), collate)
  {
    assert DistinctKeys(ms);
    hide Exchange, ToStableValue, WellFormed, Equiv, IsArrayIndex, DistinctKeys;
    ExchangedIsEquiv(ms, i, j);
    TiedFormsDiffer(ms, i, j, collate);
  }

  // ------------------------------------------------------- ties at any depth

  lemma ItemIsEquiv(items: seq<Json>, k: nat, v: Json)
    requires WellFormed(Arr(items)) && k < |items| && WellFormed(v) && Equiv(items[k], v)
    ensures WellFormed(Arr(items[k := v])) && Equiv(Arr(items), Arr(items[k := v]))
  {
    var others := items[k := v];
    forall i | 0 <= i < |items| ensures Equiv(items[i], others[i]) && WellFormed(others[i]) {
      if i != k {
        EquivToItself(items[i]);
      }
    }
  }

  lemma ItemFormShows(items: seq<Json>, k: nat, v: Json, collate: Collation)
    requires k < |items| && ToStableValue(items[k], collate) != ToStableValue(v, collate)
    ensures ToStableValue(Arr(items), collate) != ToStableValue(Arr(items[k := v]), collate)
  {
    hide ByLocale;
    assert StableItems(items, ByLocale(collate))[k] != StableItems(items[k := v], ByLocale(collate))[k];
  }

  lemma ItemDiffers(items: seq<Json>, k: nat, v: Json, collate: Collation)
    requires WellFormed(Arr(items)) && k < |items| && Differs(items[k], v, collate)
    ensures Differs(Arr(items), Arr(items[k := v]), collate)
  {
    hide WellFormed, Equiv, ToStableValue;
    ItemIsEquiv(items, k, v);
    ItemFormShows(items, k, v, collate);
  }

  function WithValue(ms: seq<Member>, k: nat, v: Json): (r: seq<Member>)
    requires k < |ms|
    ensures |r| == |ms|
    ensures forall i :: 0 <= i < |ms| ==> r[i] == if i == k then Member(ms[k].key, v) else ms[i]
  {
    ms[k := Member(ms[k].key, v)]
  }

  lemma WithValueKeys(ms: seq<Member>, k: nat, v: Json)
    requires DistinctKeys(ms) && k < |ms|
    ensures DistinctKeys(WithValue(ms, k, v)) && SameKeys(ms, WithValue(ms, k, v))
  {
    hide WithValue;
    var ns := WithValue(ms, k, v);
    forall i | 0 <= i < |ms| ensures HasKey(ns, ms[i].key) && HasKey(ms, ns[i].key) {
      assert ns[i].key == ms[i].key;
    }
  }

  lemma MemberIsEquiv(ms: seq<Member>, k: nat, v: Json)
    requires WellFormed(Obj(ms)) && k < |ms| && WellFormed(v) && Equiv(ms[k].value, v)
    ensures WellFormed(Obj(WithValue(ms, k, v))) && Equiv(Obj(ms), Obj(WithValue(ms, k, v)))
  {
    hide WithValue, SameKeys;
    var ns := WithValue(ms, k, v);
    WithValueKeys(ms, k, v);
    forall i, j | 0 <= i < |ms| && 0 <= j < |ns| && ms[i].key == ns[j].key ensures Equiv(ms[i].value, ns[j].value) {
      assert i == j;
      if i != k {
        EquivToItself(ms[i].value);
      }
    }
  }

  /** A member's form shows in the form of the object. */
  lemma MemberFormShows(ms: seq<Member>, ns: seq<Member>, i: nat, j: nat, collate: Collation)
    requires DistinctKeys(ns) && i < |ms| && j < |ns| && ms[i].key == ns[j].key
    requires ToStableValue(Obj(ms), collate) == ToStableValue(Obj(ns), collate)
    ensures ToStableValue(ms[i].value, collate) == ToStableValue(ns[j].value, collate)
  {
    hide ByLocale, Stable, StableMembers;
    var arrange := ByLocale(collate);
    ByLocaleKeepsMembers(collate);
    StableObject(ms, arrange);
    StableObject(ns, arrange);
    MembersMeet(ms, ns, arrange);
    MeetingValues(ms, ns, i, j, arrange);
  }

  lemma MemberFormsDiffer(ms: seq<Member>, k: nat, v: Json, collate: Collation)
    requires DistinctKeys(ms) && k < |ms| && ToStableValue(ms[k].value, collate) != ToStableValue(v, collate)
    ensures ToStableValue(Obj(ms), collate) != ToStableValue(Obj(WithValue(ms, k, v)), collate)
  {
    hide ToStableValue, DistinctKeys, SameKeys;
    WithValueKeys(ms, k, v);
    var ns := WithValue(ms, k, v);
    assert ns[k] == Member(ms[k].key, v);
    hide WithValue;
    if ToStableValue(Obj(ms), collate) == ToStableValue(Obj(ns), collate) {
      MemberFormShows(ms, ns, k, k, collate);
    }
  }

  lemma KeysWhenWellFormed(ms: seq<Member>)
    requires WellFormed(Obj(ms))
    ensures DistinctKeys(ms)
  {
  }

  lemma MemberDiffers(ms: seq<Member>, k: nat, v: Json, collate: Collation)
    requires WellFormed(Obj(ms)) && k < |ms| && Differs(ms[k].value, v, collate)
    ensures Differs(Obj(ms), Obj(WithValue(ms, k, v)), collate)
  {
    hide ToStableValue, WellFormed, Equiv, WithValue, DistinctKeys;
    KeysWhenWellFormed(ms);
    MemberIsEquiv(ms, k, v);
    MemberFormsDiffer(ms, k, v, collate);
  }

  /** A value with tied keys, however deep, has an equal value with another form. */
  lemma {:induction false} TiesShow(a: Json, collate: Collation) returns (b: Json)
    requires WellFormed(a) && !NoTiedKeys(a, collate)
    ensures Differs(a, b, collate)
    decreases a
  {
    hide Differs, IsArrayIndex;
    if a.Arr? {
      var i :| 0 <= i < |a.items| && !NoTiedKeys(a.items[i], collate);
      var v := TiesShow(a.items[i], collate);
      ItemDiffers(a.items, i, v, collate);
      b := Arr(a.items[i := v]);
    } else if NoTies(a.members, collate) {
      var i :| 0 <= i < |a.members| && !NoTiedKeys(a.members[i].value, collate);
      var v := TiesShow(a.members[i].value, collate);
      MemberDiffers(a.members, i, v, collate);
      b := Obj(WithValue(a.members, i, v));
    } else {
      var i, j := TiedPlaces(a.members, collate);
      TiedKeysShow(a.members, i, j, collate);
      b := Obj(Exchange(a.members, i, j));
    }
  }

  lemma TiedPlaces(ms: seq<Member>, collate: Collation) returns (i: nat, j: nat)
    requires !NoTies(ms, collate)
    ensures i < j < |ms| && HasPlainKey(ms[i]) && HasPlainKey(ms[j])
    ensures collate(ms[i].key, ms[j].key) && collate(ms[j].key, ms[i].key)
  {
    hide IsArrayIndex;
    var m, n :| m in ms && n in ms && HasPlainKey(m) && HasPlainKey(n) && collate(m.key, n.key) &&
      collate(n.key, m.key) && m.key != n.key;
    var k :| 0 <= k < |ms| && ms[k] == m;
    var l :| 0 <= l < |ms| && ms[l] == n;
    i, j := if k < l then k else l, if k < l then l else k;
  }

  /** A value keeps its fingerprint under every reordering of keys exactly when no two of its keys tie. */
  lemma FingerprintSettledIff(a: Json, collate: Collation)
    requires TotalPreorder(collate) && WellFormed(a)
    ensures NoTiedKeys(a, collate) <==>
      forall b :: WellFormed(b) && Equiv(a, b) ==> StableStringify(a, collate) == StableStringify(b, collate)
  {
    hide Equiv, WellFormed, NoTiedKeys, TotalPreorder, ToStableValue, Print;
    if NoTiedKeys(a, collate) {
      forall b | WellFormed(b) && Equiv(a, b) ensures StableStringify(a, collate) == StableStringify(b, collate) {
        FingerprintIdentifies(a, b, collate);
      }
    } else {
      var b := TiesShow(a, collate);
      PrintIsInjective(ToStableValue(a, collate), ToStableValue(b, collate));
      assert WellFormed(b) && Equiv(a, b) && StableStringify(a, collate) != StableStringify(b, collate);
    }
  }

  // ----------------------------------------------------------- every value

  /** The locale tells apart any two keys that JavaScript does not reorder by itself. */
  ghost predicate SeparatesKeys(collate: Collation) {
    forall k, l :: !IsArrayIndex(k) && !IsArrayIndex(l) && collate(k, l) && collate(l, k) ==> k == l
  }

  lemma {:induction false} SeparatedHaveNoTies(v: Json, collate: Collation)
    requires SeparatesKeys(collate)
    ensures NoTiedKeys(v, collate)
  {
    hide IsArrayIndex;
    if v.Arr? {
      forall i | 0 <= i < |v.items| ensures NoTiedKeys(v.items[i], collate) {
        SeparatedHaveNoTies(v.items[i], collate);
      }
    } else if v.Obj? {
      forall i | 0 <= i < |v.members| ensures NoTiedKeys(v.members[i].value, collate) {
        SeparatedHaveNoTies(v.members[i].value, collate);
      }
    }
  }

  /** The fingerprint is the same for all equal values exactly when the locale separates the keys that it orders. */
  lemma FingerprintIsCanonicalIff(collate: Collation)
    requires TotalPreorder(collate)
    ensures SeparatesKeys(collate) <==>
      forall a, b :: WellFormed(a) && WellFormed(b) ==>
        (StableStringify(a, collate) == StableStringify(b, collate) <==> Equiv(a, b))
  {
    hide Equiv, WellFormed, NoTiedKeys, StableStringify, TotalPreorder;
    if SeparatesKeys(collate) {
      forall a, b | WellFormed(a) && WellFormed(b)
        ensures StableStringify(a, collate) == StableStringify(b, collate) <==> Equiv(a, b)
      {
        SeparatedHaveNoTies(a, collate);
        FingerprintIdentifies(a, b, collate);
      }
    } else {
      var k, l :| !IsArrayIndex(k) && !IsArrayIndex(l) && collate(k, l) && collate(l, k) && k != l;
      TiedPair(Member(k, Null), Member(l, Null), collate);
      FingerprintSettledIff(Obj([Member(k, Null), Member(l, Null)]), collate);
    }
  }

  lemma TiedPair(m: Member, n: Member, collate: Collation)
    requires m.key != n.key && m.value == n.value == Null && HasPlainKey(m) && HasPlainKey(n)
    requires collate(m.key, n.key) && collate(n.key, m.key)
    ensures WellFormed(Obj([m, n])) && !NoTiedKeys(Obj([m, n]), collate)
  {
    hide IsArrayIndex;
    assert [m, n][0] == m && [m, n][1] == n;
    assert m in [m, n] && n in [m, n];
  }
}
