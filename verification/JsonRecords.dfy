/** Objects built from a list of field names: reading them back, and when two of them are equal. */
module JsonRecords {
  import opened Wrappers
  import opened StableSort
  import opened Json

  ghost predicate SameValue(a: Option<Json>, b: Option<Json>) {
    if a.Some? && b.Some? then Equiv(a.value, b.value) else a == b
  }

  function ValueUnder(keys: seq<string>, values: seq<Option<Json>>, k: string): Option<Json>
    requires |keys| == |values|
  {
    if keys == [] then None else if keys[0] == k then values[0] else ValueUnder(keys[1..], values[1..], k)
  }

  lemma {:induction false} MemberValueIs(ms: seq<Member>, i: nat)
    requires DistinctKeys(ms) && i < |ms|
    ensures MemberValue(ms, ms[i].key) == Some(ms[i].value)
  {
    if i > 0 {
      assert ms[0].key != ms[i].key && ms[1..][i - 1] == ms[i];
      MemberValueIs(ms[1..], i - 1);
    }
  }

  lemma {:induction false} MemberValueFrom(ms: seq<Member>, k: string) returns (i: nat)
    requires MemberValue(ms, k).Some?
    ensures i < |ms| && ms[i].key == k && MemberValue(ms, k) == Some(ms[i].value)
  {
    if ms[0].key == k {
      i := 0;
    } else {
      i := MemberValueFrom(ms[1..], k);
      i := i + 1;
    }
  }

  lemma {:induction false} ValueUnderIs(keys: seq<string>, values: seq<Option<Json>>, i: nat)
    requires |keys| == |values| && Distinct(keys) && i < |keys|
    ensures ValueUnder(keys, values, keys[i]) == values[i]
  {
    if i > 0 {
      assert keys[0] != keys[i] && keys[1..][i - 1] == keys[i];
      ValueUnderIs(keys[1..], values[1..], i - 1);
    }
  }

  lemma {:induction false} ValueUnderElsewhere(keys: seq<string>, values: seq<Option<Json>>, k: string)
    requires |keys| == |values| && k !in keys
    ensures ValueUnder(keys, values, k) == None
  {
    if keys != [] {
      assert keys[0] in keys && forall l :: l in keys[1..] ==> l in keys;
      ValueUnderElsewhere(keys[1..], values[1..], k);
    }
  }

  lemma {:induction false} RecordMemberValue(keys: seq<string>, values: seq<Option<Json>>, k: string)
    requires |keys| == |values| && Distinct(keys)
    ensures MemberValue(RecordMembers(keys, values), k) == ValueUnder(keys, values, k)
  {
    if keys != [] {
      RecordMemberValue(keys[1..], values[1..], k);
      var rest := RecordMembers(keys[1..], values[1..]);
      if values[0].Some? {
        var m := Member(keys[0], values[0].value);
        assert RecordMembers(keys, values) == [m] + rest && ([m] + rest)[1..] == rest;
      } else {
        assert RecordMembers(keys, values) == rest;
        if keys[0] == k {
          ValueUnderElsewhere(keys[1..], values[1..], k);
        }
      }
    }
  }

  lemma {:induction false} RecordKeysAreFrom(keys: seq<string>, values: seq<Option<Json>>)
    requires |keys| == |values| && Distinct(keys)
    ensures DistinctKeys(RecordMembers(keys, values))
    ensures forall m :: m in RecordMembers(keys, values) ==> m.key in keys && Some(m.value) in values
  {
    if keys != [] {
      var rest := RecordMembers(keys[1..], values[1..]);
      RecordKeysAreFrom(keys[1..], values[1..]);
      assert keys[0] in keys && values[0] in values && keys[0] !in keys[1..];
      forall j | 0 <= j < |rest| ensures rest[j].key != keys[0] {
        assert rest[j] in rest;
      }
    }
  }

  ghost predicate SameMemberValues(ms: seq<Member>, ns: seq<Member>) {
    forall k :: SameValue(MemberValue(ms, k), MemberValue(ns, k))
  }

  lemma SameValuesIncludeKeys(ms: seq<Member>, ns: seq<Member>)
    requires DistinctKeys(ms) && SameMemberValues(ms, ns)
    ensures KeysIncluded(ms, ns)
  {
    hide Equiv, MemberValue;
    forall i | 0 <= i < |ms| ensures HasKey(ns, ms[i].key) {
      MemberValueIs(ms, i);
      assert SameValue(MemberValue(ms, ms[i].key), MemberValue(ns, ms[i].key));
      var j := MemberValueFrom(ns, ms[i].key);
      assert ns[j].key == ms[i].key;
    }
  }

  /** Two objects are equal up to key order exactly when they hold equal values, or none, under every key. */
  lemma ObjectsEquivByKey(ms: seq<Member>, ns: seq<Member>)
    requires DistinctKeys(ms) && DistinctKeys(ns)
    ensures Equiv(Obj(ms), Obj(ns)) <==> SameMemberValues(ms, ns)
  {
    if Equiv(Obj(ms), Obj(ns)) {
      forall k ensures SameValue(MemberValue(ms, k), MemberValue(ns, k)) {
        EquivObjectsAt(ms, ns, k);
      }
    }
    if SameMemberValues(ms, ns) {
      SameValuesBothWays(ms, ns);
    }
  }

  lemma EquivObjectsAt(ms: seq<Member>, ns: seq<Member>, k: string)
    requires DistinctKeys(ms) && DistinctKeys(ns) && Equiv(Obj(ms), Obj(ns))
    ensures SameValue(MemberValue(ms, k), MemberValue(ns, k))
  {
    if MemberValue(ms, k).Some? {
      var i := MemberValueFrom(ms, k);
      assert HasKey(ns, ms[i].key);
      var j :| 0 <= j < |ns| && ns[j].key == ms[i].key;
      MemberValueIs(ns, j);
    } else if MemberValue(ns, k).Some? {
      var j := MemberValueFrom(ns, k);
      assert HasKey(ms, ns[j].key);
      var i :| 0 <= i < |ms| && ms[i].key == ns[j].key;
      MemberValueIs(ms, i);
    }
  }

  lemma SameValuesBothWays(ms: seq<Member>, ns: seq<Member>)
    requires DistinctKeys(ms) && DistinctKeys(ns) && SameMemberValues(ms, ns)
    ensures Equiv(Obj(ms), Obj(ns))
  {
    hide MemberValue;
    SameValuesIncludeKeys(ms, ns);
    forall j | 0 <= j < |ns| ensures HasKey(ms, ns[j].key) {
      MemberValueIs(ns, j);
      assert SameValue(MemberValue(ms, ns[j].key), MemberValue(ns, ns[j].key));
      var i := MemberValueFrom(ms, ns[j].key);
      assert ms[i].key == ns[j].key;
    }
    forall i, j | 0 <= i < |ms| && 0 <= j < |ns| && ms[i].key == ns[j].key ensures Equiv(ms[i].value, ns[j].value) {
      MemberValueIs(ms, i);
      MemberValueIs(ns, j);
      assert SameValue(MemberValue(ms, ms[i].key), MemberValue(ns, ms[i].key));
    }
  }

  ghost predicate SameValues(vs: seq<Option<Json>>, ws: seq<Option<Json>>)
    requires |vs| == |ws|
  {
    forall i :: 0 <= i < |vs| ==> SameValue(vs[i], ws[i])
  }

  /** Records over the same keys are equal exactly when they are field by field. */
  lemma RecordsEquiv(keys: seq<string>, vs: seq<Option<Json>>, ws: seq<Option<Json>>)
    requires |keys| == |vs| == |ws| && Distinct(keys)
    ensures Equiv(Obj(RecordMembers(keys, vs)), Obj(RecordMembers(keys, ws))) <==>
      SameValues(vs, ws)
  {
    hide Equiv, RecordMembers;
    var ms, ns := RecordMembers(keys, vs), RecordMembers(keys, ws);
    RecordKeysAreFrom(keys, vs);
    RecordKeysAreFrom(keys, ws);
    ObjectsEquivByKey(ms, ns);
    forall k ensures MemberValue(ms, k) == ValueUnder(keys, vs, k) && MemberValue(ns, k) == ValueUnder(keys, ws, k) {
      RecordMemberValue(keys, vs, k);
      RecordMemberValue(keys, ws, k);
    }
    hide ValueUnder, MemberValue;
    if SameMemberValues(ms, ns) {
      forall i | 0 <= i < |keys| ensures SameValue(vs[i], ws[i]) {
        ValueUnderIs(keys, vs, i);
        ValueUnderIs(keys, ws, i);
        assert SameValue(MemberValue(ms, keys[i]), MemberValue(ns, keys[i]));
      }
    }
    if forall i :: 0 <= i < |keys| ==> SameValue(vs[i], ws[i]) {
      forall k ensures SameValue(MemberValue(ms, k), MemberValue(ns, k)) {
        if k in keys {
          var i :| 0 <= i < |keys| && keys[i] == k;
          ValueUnderIs(keys, vs, i);
          ValueUnderIs(keys, ws, i);
        } else {
          ValueUnderElsewhere(keys, vs, k);
          ValueUnderElsewhere(keys, ws, k);
        }
      }
    }
  }

  ghost predicate WellFormedValues(vs: seq<Option<Json>>) {
    forall i :: 0 <= i < |vs| && vs[i].Some? ==> WellFormed(vs[i].value)
  }

  lemma RecordIsWellFormed(keys: seq<string>, vs: seq<Option<Json>>)
    requires |keys| == |vs| && Distinct(keys) && WellFormedValues(vs)
    ensures WellFormed(Obj(RecordMembers(keys, vs)))
  {
    hide RecordMembers;
    RecordKeysAreFrom(keys, vs);
    forall m | m in RecordMembers(keys, vs) ensures WellFormed(m.value) {
      assert Some(m.value) in vs;
      var i :| 0 <= i < |vs| && vs[i] == Some(m.value);
    }
  }
}
