/** Canonical forms of JSON values, and when equal forms mean equal values. */
module StableJson {
  import opened StableSort
  import opened Json

  /** How a fingerprint lays out the members of an object. */
  type Arrangement = seq<Member> -> seq<Member>

  /** Members are neither lost nor invented. */
  ghost predicate KeepsMembers(arrange: Arrangement) {
    forall ms :: multiset(arrange(ms)) == multiset(ms)
  }

  /** The layout does not depend on the order in which the members came. */
  ghost predicate ForgetsOrder(arrange: Arrangement) {
    forall ms, ns {:trigger arrange(ms), arrange(ns)} ::
      DistinctKeys(ms) && multiset(ms) == multiset(ns) ==> arrange(ms) == arrange(ns)
  }

  function Stable(v: Json, arrange: Arrangement): Json
    decreases v, 1
  {
    match v
    case Arr(items) => Arr(StableItems(items, arrange))
    case Obj(ms) => Obj(arrange(StableMembers(ms, arrange)))
    case _ => v
  }

  function StableItems(items: seq<Json>, arrange: Arrangement): (r: seq<Json>)
    ensures |r| == |items| && forall i :: 0 <= i < |items| ==> r[i] == Stable(items[i], arrange)
    decreases items, 0
  {
    if items == [] then [] else [Stable(items[0], arrange)] + StableItems(items[1..], arrange)
  }

  function StableMembers(ms: seq<Member>, arrange: Arrangement): (r: seq<Member>)
    ensures |r| == |ms| && forall i :: 0 <= i < |ms| ==> r[i] == Member(ms[i].key, Stable(ms[i].value, arrange))
    decreases ms, 0
  {
    if ms == [] then []
    else [Member(ms[0].key, Stable(ms[0].value, arrange))] + StableMembers(ms[1..], arrange)
  }

  // ------------------------------------------- equal forms mean equal values

  lemma MembersMeet(ms: seq<Member>, ns: seq<Member>, arrange: Arrangement)
    requires KeepsMembers(arrange)
    requires arrange(StableMembers(ms, arrange)) == arrange(StableMembers(ns, arrange))
    ensures forall m :: m in StableMembers(ms, arrange) <==> m in StableMembers(ns, arrange)
  {
    var sm, sn := StableMembers(ms, arrange), StableMembers(ns, arrange);
    assert multiset(sm) == multiset(arrange(sm)) == multiset(arrange(sn)) == multiset(sn);
    SameElements(sm, sn);
  }

  lemma MeetingKeys(ms: seq<Member>, ns: seq<Member>, arrange: Arrangement)
    requires forall m :: m in StableMembers(ms, arrange) ==> m in StableMembers(ns, arrange)
    ensures KeysIncluded(ms, ns)
  {
    hide Stable;
    var sm, sn := StableMembers(ms, arrange), StableMembers(ns, arrange);
    forall i | 0 <= i < |ms| ensures HasKey(ns, ms[i].key) {
      assert sm[i] in sm;
      var j :| 0 <= j < |sn| && sn[j] == sm[i];
      assert ns[j].key == ms[i].key;
    }
  }

  lemma MeetingValues(ms: seq<Member>, ns: seq<Member>, i: nat, j: nat, arrange: Arrangement)
    requires forall m :: m in StableMembers(ms, arrange) ==> m in StableMembers(ns, arrange)
    requires i < |ms| && j < |ns| && ms[i].key == ns[j].key && DistinctKeys(ns)
    ensures Stable(ms[i].value, arrange) == Stable(ns[j].value, arrange)
  {
    hide Stable;
    var sm, sn := StableMembers(ms, arrange), StableMembers(ns, arrange);
    assert sm[i] in sm;
    var l :| 0 <= l < |sn| && sn[l] == sm[i];
    assert ns[l].key == ns[j].key;
  }

  /** A fingerprint that keeps members never gives two different values one form. */
  lemma {:induction false} SameFormMeansEquiv(a: Json, b: Json, arrange: Arrangement)
    requires KeepsMembers(arrange) && WellFormed(a) && WellFormed(b)
    requires Stable(a, arrange) == Stable(b, arrange)
    ensures Equiv(a, b)
    decreases a, 1
  {
    hide KeepsMembers;
    if a.Arr? {
      SameFormItems(a.items, b.items, arrange);
    } else if a.Obj? {
      SameFormMembers(a.members, b.members, arrange);
    }
  }

  lemma {:induction false} SameFormItems(xs: seq<Json>, ys: seq<Json>, arrange: Arrangement)
    requires KeepsMembers(arrange)
    requires forall i :: 0 <= i < |xs| ==> WellFormed(xs[i])
    requires forall i :: 0 <= i < |ys| ==> WellFormed(ys[i])
    requires StableItems(xs, arrange) == StableItems(ys, arrange)
    ensures |xs| == |ys| && forall i :: 0 <= i < |xs| ==> Equiv(xs[i], ys[i])
    decreases xs, 0
  {
    hide KeepsMembers, Stable, WellFormed, Equiv;
    assert |StableItems(xs, arrange)| == |StableItems(ys, arrange)|;
    forall i | 0 <= i < |xs| ensures Equiv(xs[i], ys[i]) {
      assert StableItems(xs, arrange)[i] == StableItems(ys, arrange)[i];
      SameFormMeansEquiv(xs[i], ys[i], arrange);
    }
  }

  lemma {:induction false} SameFormMembers(ms: seq<Member>, ns: seq<Member>, arrange: Arrangement)
    requires KeepsMembers(arrange) && DistinctKeys(ms) && DistinctKeys(ns)
    requires forall i :: 0 <= i < |ms| ==> WellFormed(ms[i].value)
    requires forall i :: 0 <= i < |ns| ==> WellFormed(ns[i].value)
    requires arrange(StableMembers(ms, arrange)) == arrange(StableMembers(ns, arrange))
    ensures SameKeys(ms, ns)
    ensures forall i, j :: 0 <= i < |ms| && 0 <= j < |ns| && ms[i].key == ns[j].key ==> Equiv(ms[i].value, ns[j].value)
    decreases ms, 0
  {
    hide KeepsMembers, Stable, StableMembers, WellFormed, Equiv;
    MembersMeet(ms, ns, arrange);
    MeetingKeys(ms, ns, arrange);
    MeetingKeys(ns, ms, arrange);
    forall i, j | 0 <= i < |ms| && 0 <= j < |ns| && ms[i].key == ns[j].key
      ensures Equiv(ms[i].value, ns[j].value)
    {
      MeetingValues(ms, ns, i, j, arrange);
      SameFormMeansEquiv(ms[i].value, ns[j].value, arrange);
    }
  }

  /** A fingerprint that also forgets order gives equal values one form. */
  lemma {:induction false} EquivMeansSameForm(a: Json, b: Json, arrange: Arrangement)
    requires ForgetsOrder(arrange) && WellFormed(a) && WellFormed(b) && Equiv(a, b)
    ensures Stable(a, arrange) == Stable(b, arrange)
    decreases a
  {
    if a.Arr? {
      forall i | 0 <= i < |a.items| ensures Stable(a.items[i], arrange) == Stable(b.items[i], arrange) {
        EquivMeansSameForm(a.items[i], b.items[i], arrange);
      }
      assert StableItems(a.items, arrange) == StableItems(b.items, arrange);
    } else if a.Obj? {
      var ms, ns := a.members, b.members;
      forall i, j | 0 <= i < |ms| && 0 <= j < |ns| && ms[i].key == ns[j].key
        ensures Stable(ms[i].value, arrange) == Stable(ns[j].value, arrange)
      {
        EquivMeansSameForm(ms[i].value, ns[j].value, arrange);
      }
      EquivMembersPermute(ms, ns, arrange);
    }
  }

  ghost predicate FormsAgree(ms: seq<Member>, ns: seq<Member>, arrange: Arrangement) {
    forall i, j :: 0 <= i < |ms| && 0 <= j < |ns| && ms[i].key == ns[j].key ==>
      Stable(ms[i].value, arrange) == Stable(ns[j].value, arrange)
  }

  lemma FormsAgreeBothWays(ms: seq<Member>, ns: seq<Member>, arrange: Arrangement)
    requires FormsAgree(ms, ns, arrange)
    ensures FormsAgree(ns, ms, arrange)
  {
    hide Stable;
    forall j, i | 0 <= j < |ns| && 0 <= i < |ms| && ns[j].key == ms[i].key
      ensures Stable(ns[j].value, arrange) == Stable(ms[i].value, arrange)
    {
      assert ms[i].key == ns[j].key;
    }
  }

  lemma EquivMembersIncluded(ms: seq<Member>, ns: seq<Member>, arrange: Arrangement)
    requires KeysIncluded(ms, ns)
    requires FormsAgree(ms, ns, arrange)
    ensures forall m :: m in StableMembers(ms, arrange) ==> m in StableMembers(ns, arrange)
  {
    hide Stable;
    var sm, sn := StableMembers(ms, arrange), StableMembers(ns, arrange);
    forall m | m in sm ensures m in sn {
      var i :| 0 <= i < |sm| && sm[i] == m;
      var j :| 0 <= j < |ns| && ns[j].key == ms[i].key;
      assert sn[j] == m;
    }
  }

  lemma StableMembersDistinct(ms: seq<Member>, arrange: Arrangement)
    requires DistinctKeys(ms)
    ensures DistinctKeys(StableMembers(ms, arrange)) && Distinct(StableMembers(ms, arrange))
  {
    hide Stable;
  }

  lemma EquivMembersPermute(ms: seq<Member>, ns: seq<Member>, arrange: Arrangement)
    requires DistinctKeys(ms) && DistinctKeys(ns) && SameKeys(ms, ns) && FormsAgree(ms, ns, arrange)
    ensures multiset(StableMembers(ms, arrange)) == multiset(StableMembers(ns, arrange))
    ensures DistinctKeys(StableMembers(ms, arrange))
  {
    hide Stable, StableMembers, FormsAgree, KeysIncluded;
    EquivMembersIncluded(ms, ns, arrange);
    FormsAgreeBothWays(ms, ns, arrange);
    EquivMembersIncluded(ns, ms, arrange);
    StableMembersDistinct(ms, arrange);
    StableMembersDistinct(ns, arrange);
    DistinctSameSet(StableMembers(ms, arrange), StableMembers(ns, arrange));
  }

  /** One form, printed, identifies a value up to the order of keys. */
  lemma FormsIdentifyValues(a: Json, b: Json, arrange: Arrangement)
    requires KeepsMembers(arrange) && ForgetsOrder(arrange) && WellFormed(a) && WellFormed(b)
    ensures Print(Stable(a, arrange)) == Print(Stable(b, arrange)) <==> Equiv(a, b)
  {
    PrintIsInjective(Stable(a, arrange), Stable(b, arrange));
    if Equiv(a, b) {
      EquivMeansSameForm(a, b, arrange);
    } else if Stable(a, arrange) == Stable(b, arrange) {
      SameFormMeansEquiv(a, b, arrange);
    }
  }

  /** Taking the form of a form changes nothing. */
  lemma {:induction false} StableIsIdempotent(v: Json, arrange: Arrangement)
    requires KeepsMembers(arrange) && ForgetsOrder(arrange) && WellFormed(v)
    ensures Stable(Stable(v, arrange), arrange) == Stable(v, arrange)
    decreases v
  {
    if v.Arr? {
      forall i | 0 <= i < |v.items| ensures Stable(Stable(v.items[i], arrange), arrange) ==
        Stable(v.items[i], arrange) {
        StableIsIdempotent(v.items[i], arrange);
      }
      assert StableItems(StableItems(v.items, arrange), arrange) == StableItems(v.items, arrange);
    } else if v.Obj? {
      var sm := StableMembers(v.members, arrange);
      var arranged := arrange(sm);
      forall i | 0 <= i < |v.members|
        ensures Stable(Stable(v.members[i].value, arrange), arrange) == Stable(v.members[i].value, arrange)
      {
        StableIsIdempotent(v.members[i].value, arrange);
      }
      SameElements(sm, arranged);
      forall i | 0 <= i < |arranged| ensures Stable(arranged[i].value, arrange) == arranged[i].value {
        assert arranged[i] in sm;
        var j :| 0 <= j < |sm| && sm[j] == arranged[i];
      }
      assert StableMembers(arranged, arrange) == arranged;
      assert multiset(sm) == multiset(arranged) && DistinctKeys(sm);
    }
  }

  // ------------------------------------------- stableSerialize: code-unit order

  predicate TextLe(a: string, b: string) {
    a == "" || (b != "" && (a[0] < b[0] || (a[0] == b[0] && TextLe(a[1..], b[1..]))))
  }

  predicate KeyLe(m: Member, n: Member) {
    TextLe(m.key, n.key)
  }

  lemma {:induction false} TextLeTotal(a: string, b: string)
    ensures TextLe(a, b) || TextLe(b, a)
    ensures TextLe(a, b) && TextLe(b, a) ==> a == b
  {
    if a != "" && b != "" {
      TextLeTotal(a[1..], b[1..]);
      if a[0] == b[0] && a[1..] == b[1..] {
        HeadAndTail(a, b);
      }
    }
  }

  lemma {:induction false} TextLeTransitive(a: string, b: string, c: string)
    requires TextLe(a, b) && TextLe(b, c)
    ensures TextLe(a, c)
  {
    if a != "" && a[0] == b[0] == c[0] {
      TextLeTransitive(a[1..], b[1..], c[1..]);
    }
  }

  lemma KeyLeIsPreorder()
    ensures TotalPreorder(KeyLe)
  {
    forall a: Member, b: Member ensures KeyLe(a, b) || KeyLe(b, a) {
      TextLeTotal(a.key, b.key);
    }
    forall a: Member, b: Member, c: Member | KeyLe(a, b) && KeyLe(b, c) ensures KeyLe(a, c) {
      TextLeTransitive(a.key, b.key, c.key);
    }
  }

  function ByText(ms: seq<Member>): seq<Member> {
    SortBy(ms, KeyLe)
  }

  /** The serialization the benchmark runner compares sinks, environments and records with. */
  function StableSerialize(v: Json): string {
    Print(Stable(v, ByText))
  }

  lemma ByTextIsCanonical()
    ensures KeepsMembers(ByText) && ForgetsOrder(ByText)
  {
    KeyLeIsPreorder();
    forall ms, ns | DistinctKeys(ms) && multiset(ms) == multiset(ns) ensures ByText(ms) == ByText(ns) {
      forall a, b | a in ms && b in ms && KeyLe(a, b) && KeyLe(b, a) ensures a == b {
        TextLeTotal(a.key, b.key);
      }
      SortForgetsOrder(ms, ns, KeyLe);
    }
  }

  lemma StableSerializeIdentifies(a: Json, b: Json)
    requires WellFormed(a) && WellFormed(b)
    ensures StableSerialize(a) == StableSerialize(b) <==> Equiv(a, b)
  {
    ByTextIsCanonical();
    FormsIdentifyValues(a, b, ByText);
  }
}
