/** What a canonical form is: the value itself up to key order, with the keys of every object in one order. */
module StableOrder {
  import opened StableSort
  import opened Json
  import opened StableJson
  import opened LocaleJson

  type KeyOrder = (string, string) -> bool

  /** At every depth the keys of each object come in the given order. */
  predicate KeysOrdered(v: Json, before: KeyOrder) {
    match v
    case Arr(items) => forall i :: 0 <= i < |items| ==> KeysOrdered(items[i], before)
    case Obj(ms) => MembersOrdered(ms, before) && forall i :: 0 <= i < |ms| ==> KeysOrdered(ms[i].value, before)
    case _ => true
  }

  predicate MembersOrdered(ms: seq<Member>, before: KeyOrder) {
    forall i, j :: 0 <= i < j < |ms| ==> before(ms[i].key, ms[j].key)
  }

  lemma {:induction false} FormIsOrdered(v: Json, arrange: Arrangement, before: KeyOrder)
    requires KeepsMembers(arrange) && forall ms :: MembersOrdered(arrange(ms), before)
    ensures KeysOrdered(Stable(v, arrange), before)
  {
    if v.Arr? {
      forall i | 0 <= i < |v.items| ensures KeysOrdered(Stable(v.items[i], arrange), before) {
        FormIsOrdered(v.items[i], arrange, before);
      }
    } else if v.Obj? {
      var sm := StableMembers(v.members, arrange);
      var arranged := arrange(sm);
      forall i | 0 <= i < |sm| ensures KeysOrdered(sm[i].value, before) {
        FormIsOrdered(v.members[i].value, arrange, before);
      }
      SameElements(sm, arranged);
      forall i | 0 <= i < |arranged| ensures KeysOrdered(arranged[i].value, before) {
        assert arranged[i] in sm;
      }
    }
  }

  lemma {:induction false} FormIsTheValue(v: Json, arrange: Arrangement)
    requires KeepsMembers(arrange) && WellFormed(v)
    ensures Equiv(Stable(v, arrange), v)
  {
    if v.Arr? {
      forall i | 0 <= i < |v.items| ensures Equiv(Stable(v.items[i], arrange), v.items[i]) {
        FormIsTheValue(v.items[i], arrange);
      }
    } else if v.Obj? {
      var ms, sm := v.members, StableMembers(v.members, arrange);
      forall i | 0 <= i < |ms| ensures Equiv(sm[i].value, ms[i].value) {
        FormIsTheValue(ms[i].value, arrange);
      }
      hide Stable, KeepsMembers;
      assert multiset(arrange(sm)) == multiset(sm) by {
        KeptMembers(arrange, sm);
      }
      ArrangedMembersAreEquiv(ms, sm, arrange(sm));
      assert Stable(v, arrange) == Obj(arrange(sm)) by {
        StableObject(ms, arrange);
      }
    }
  }

  lemma KeptMembers(arrange: Arrangement, ms: seq<Member>)
    requires KeepsMembers(arrange)
    ensures multiset(arrange(ms)) == multiset(ms)
  {
  }

  lemma ArrangedMembersAreEquiv(ms: seq<Member>, sm: seq<Member>, arranged: seq<Member>)
    requires DistinctKeys(ms) && |sm| == |ms| && multiset(arranged) == multiset(sm)
    requires forall i :: 0 <= i < |ms| ==> sm[i].key == ms[i].key && Equiv(sm[i].value, ms[i].value)
    ensures Equiv(Obj(arranged), Obj(ms))
  {
    SameElements(sm, arranged);
    forall i | 0 <= i < |ms| ensures HasKey(arranged, ms[i].key) {
      assert sm[i] in arranged;
      var j :| 0 <= j < |arranged| && arranged[j] == sm[i];
    }
    forall i | 0 <= i < |arranged| ensures exists j :: 0 <= j < |ms| && arranged[i] == sm[j] {
      assert arranged[i] in sm;
    }
    forall i | 0 <= i < |arranged| ensures HasKey(ms, arranged[i].key) {
      var j :| 0 <= j < |ms| && arranged[i] == sm[j];
      assert ms[j].key == arranged[i].key;
    }
    forall i, j | 0 <= i < |arranged| && 0 <= j < |ms| && arranged[i].key == ms[j].key
      ensures Equiv(arranged[i].value, ms[j].value)
    {
      var l :| 0 <= l < |ms| && arranged[i] == sm[l];
      assert ms[l].key == ms[j].key;
    }
  }

  // ---------------------------------------------------------- the two forms

  /** JavaScript lists index keys first, by number, whatever the locale says of them; then come the others. */
  function PropertyBefore(collate: Collation): KeyOrder {
    (k: string, l: string) =>
      if IsArrayIndex(k) then (IsArrayIndex(l) ==> DecimalValue(k) <= DecimalValue(l))
      else !IsArrayIndex(l) && collate(k, l)
  }

  /** Code-unit order: a prefix comes first, and otherwise the smaller of the first two characters that differ. */
  predicate CodeUnitsBefore(k: string, l: string) {
    k <= l || exists i :: 0 <= i < |k| && i < |l| && k[..i] == l[..i] && k[i] < l[i]
  }

  lemma {:induction false} TextOrderIs(k: string, l: string)
    ensures TextLe(k, l) <==> CodeUnitsBefore(k, l)
  {
    if k != "" && l != "" {
      TextOrderIs(k[1..], l[1..]);
      assert k == [k[0]] + k[1..] && l == [l[0]] + l[1..];
      if k[0] < l[0] {
        assert k[..0] == l[..0];
      }
      if k[0] == l[0] {
        assert k <= l <==> k[1..] <= l[1..];
        if i :| 0 <= i < |k[1..]| && i < |l[1..]| && k[1..][..i] == l[1..][..i] && k[1..][i] < l[1..][i] {
          assert k[..i + 1] == [k[0]] + k[1..][..i] && l[..i + 1] == [l[0]] + l[1..][..i];
        }
        if i :| 0 <= i < |k| && i < |l| && k[..i] == l[..i] && k[i] < l[i] {
          assert i > 0 && k[1..][..i - 1] == k[..i][1..] && l[1..][..i - 1] == l[..i][1..];
        }
      }
      if k[0] > l[0] {
        forall i | 0 < i < |k| && i < |l| ensures k[..i] != l[..i] {
          assert k[..i][0] != l[..i][0];
        }
      }
    }
  }

  lemma LocaleOrders(collate: Collation, ms: seq<Member>)
    requires TotalPreorder(collate)
    ensures MembersOrdered(ByLocale(collate)(ms), PropertyBefore(collate))
  {
    LocaleLeIsPreorder(collate);
    IndexLeIsPreorder();
    var sorted := SortBy(ms, LocaleLe(collate));
    SortByIsSorted(ms, LocaleLe(collate));
    FilterKeepsSorted(sorted, HasPlainKey, LocaleLe(collate));
    SortByIsSorted(Filter(sorted, HasIndexKey), IndexLe);
    var index, plain := SortBy(Filter(sorted, HasIndexKey), IndexLe), Filter(sorted, HasPlainKey);
    SameElements(Filter(sorted, HasIndexKey), index);
    hide SortBy, Filter, TotalPreorder;
    JoinedOrder(index, plain, collate);
    assert ByLocale(collate)(ms) == index + plain;
  }

  lemma {:induction false} FilterKeepsSorted<T(!new)>(s: seq<T>, p: T -> bool, le: (T, T) -> bool)
    requires Sorted(s, le)
    ensures Sorted(Filter(s, p), le)
  {
    if s != [] {
      FilterKeepsSorted(s[1..], p, le);
      var rest := Filter(s[1..], p);
      forall i | 0 <= i < |rest| ensures le(s[0], rest[i]) {
        assert rest[i] in s[1..];
        var j :| 0 <= j < |s[1..]| && s[1..][j] == rest[i];
        assert s[j + 1] == rest[i];
      }
    }
  }

  lemma JoinedOrder(index: seq<Member>, plain: seq<Member>, collate: Collation)
    requires Sorted(index, IndexLe) && Sorted(plain, LocaleLe(collate))
    requires forall m :: m in index ==> HasIndexKey(m)
    requires forall m :: m in plain ==> HasPlainKey(m)
    ensures MembersOrdered(index + plain, PropertyBefore(collate))
  {
    var ms := index + plain;
    hide DecimalValue;
    forall i, j | 0 <= i < j < |ms| ensures PropertyBefore(collate)(ms[i].key, ms[j].key) {
      if j < |index| {
        assert ms[i] in index && ms[j] in index && IndexLe(index[i], index[j]);
      } else if i < |index| {
        assert ms[i] in index && ms[j] in plain;
      } else {
        assert ms[i] in plain && ms[j] in plain && LocaleLe(collate)(plain[i - |index|], plain[j - |index|]);
      }
    }
  }

  /**
   * The evidence diff's stable value is the value itself up to key order, with index keys first, by number, and the
   * others sorted by the locale, in every object at every depth.
   */
  lemma StableValueIsOrdered(v: Json, collate: Collation)
    requires TotalPreorder(collate) && WellFormed(v)
    ensures Equiv(ToStableValue(v, collate), v) && KeysOrdered(ToStableValue(v, collate), PropertyBefore(collate))
  {
    ByLocaleKeepsMembers(collate);
    FormIsTheValue(v, ByLocale(collate));
    forall ms ensures MembersOrdered(ByLocale(collate)(ms), PropertyBefore(collate)) {
      LocaleOrders(collate, ms);
    }
    FormIsOrdered(v, ByLocale(collate), PropertyBefore(collate));
  }

  /** The runner serializes the value itself up to key order, with the keys of every object in code-unit order. */
  lemma SerializedInCodeUnitOrder(v: Json)
    requires WellFormed(v)
    ensures Equiv(Stable(v, ByText), v) && KeysOrdered(Stable(v, ByText), CodeUnitsBefore)
    ensures StableSerialize(v) == Print(Stable(v, ByText))
  {
    ByTextIsCanonical();
    FormIsTheValue(v, ByText);
    forall ms ensures MembersOrdered(ByText(ms), CodeUnitsBefore) {
      TextOrders(ms);
    }
    FormIsOrdered(v, ByText, CodeUnitsBefore);
  }

  lemma TextOrders(ms: seq<Member>)
    ensures MembersOrdered(ByText(ms), CodeUnitsBefore)
  {
    KeyLeIsPreorder();
    SortByIsSorted(ms, KeyLe);
    var sorted := ByText(ms);
    forall i, j | 0 <= i < j < |sorted| ensures CodeUnitsBefore(sorted[i].key, sorted[j].key) {
      assert KeyLe(sorted[i], sorted[j]);
      TextOrderIs(sorted[i].key, sorted[j].key);
    }
  }
}
