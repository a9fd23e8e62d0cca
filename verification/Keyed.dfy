/** Lists of entries keyed by an id, and the maps the diff builds from them. */
module Keyed {
  import opened StableSort

  ghost predicate UniqueKeys<T(!new)>(s: seq<T>, key: T -> string) {
    forall i, j :: 0 <= i < j < |s| ==> key(s[i]) != key(s[j])
  }

  /** No two entries have ids that tie in the locale; with a reflexive locale that includes equal ids. */
  ghost predicate Apart<T(!new)>(s: seq<T>, key: T -> string, collate: (string, string) -> bool) {
    forall i, j :: 0 <= i < j < |s| ==> !(collate(key(s[i]), key(s[j])) && collate(key(s[j]), key(s[i])))
  }

  /** A map filled in list order, so that the last entry of an id wins. */
  function ById<T(!new)>(s: seq<T>, key: T -> string): (m: map<string, T>)
    ensures forall k :: k in m ==> m[k] in s && key(m[k]) == k
    ensures forall x :: x in s ==> key(x) in m
  {
    if s == [] then map[]
    else
      var x := s[|s| - 1];
      assert s == s[..|s| - 1] + [x];
      ById(s[..|s| - 1], key)[key(x) := x]
  }

  /** The entries whose id the other side does not have. */
  function Absent<T(!new)>(s: seq<T>, key: T -> string, other: map<string, T>): (r: seq<T>)
    ensures forall x :: x in r <==> x in s && key(x) !in other
  {
    if s == [] then []
    else
      var x := s[|s| - 1];
      assert s == s[..|s| - 1] + [x];
      Absent(s[..|s| - 1], key, other) + if key(x) in other then [] else [x]
  }

  /** The entries the other side also has, with their counterpart, where the two differ. */
  function ChangedPairs<T(!new)>(s: seq<T>, key: T -> string, other: map<string, T>,
                                 changed: (T, T) -> bool): (r: seq<(T, T)>)
    ensures forall p :: p in r <==> p.0 in s && key(p.0) in other && p.1 == other[key(p.0)] && changed(p.0, p.1)
  {
    if s == [] then []
    else
      var x := s[|s| - 1];
      assert s == s[..|s| - 1] + [x];
      ChangedPairs(s[..|s| - 1], key, other, changed) +
      if key(x) in other && changed(x, other[key(x)]) then [(x, other[key(x)])] else []
  }

  /** One turn of the loops that collect absent and changed entries. */
  lemma AbsentGrows<T(!new)>(s: seq<T>, i: nat, key: T -> string, other: map<string, T>)
    requires i < |s|
    ensures Absent(s[..i + 1], key, other) == Absent(s[..i], key, other) + if key(s[i]) in other then [] else [s[i]]
  {
    assert s[..i + 1][..i] == s[..i];
  }

  lemma ChangedGrows<T(!new)>(s: seq<T>, i: nat, key: T -> string, other: map<string, T>, changed: (T, T) -> bool)
    requires i < |s|
    ensures ChangedPairs(s[..i + 1], key, other, changed) == ChangedPairs(s[..i], key, other, changed) +
      if key(s[i]) in other && changed(s[i], other[key(s[i])]) then [(s[i], other[key(s[i])])] else []
  {
    assert s[..i + 1][..i] == s[..i];
  }

  lemma LoopEnds<T(!new)>(s: seq<T>, key: T -> string, other: map<string, T>, changed: (T, T) -> bool)
    ensures s[..|s|] == s && s[..0] == []
    ensures Absent(s[..0], key, other) == [] && ChangedPairs(s[..0], key, other, changed) == []
  {
  }

  lemma UniqueMeansSame<T(!new)>(s: seq<T>, key: T -> string, x: T, y: T)
    requires UniqueKeys(s, key) && x in s && y in s && key(x) == key(y)
    ensures x == y
  {
    var i :| 0 <= i < |s| && s[i] == x;
    var j :| 0 <= j < |s| && s[j] == y;
  }

  lemma ApartIsUnique<T(!new)>(s: seq<T>, key: T -> string, collate: (string, string) -> bool)
    requires TotalPreorder(collate) && Apart(s, key, collate)
    ensures UniqueKeys(s, key)
  {
    forall i, j | 0 <= i < j < |s| ensures key(s[i]) != key(s[j]) {
      assert collate(key(s[i]), key(s[i]));
    }
  }

  lemma ApartMeansSame<T(!new)>(s: seq<T>, key: T -> string, collate: (string, string) -> bool, x: T, y: T)
    requires Apart(s, key, collate) && x in s && y in s
    requires collate(key(x), key(y)) && collate(key(y), key(x))
    ensures x == y
  {
    var i :| 0 <= i < |s| && s[i] == x;
    var j :| 0 <= j < |s| && s[j] == y;
  }

  lemma ApartUnderPermutation<T(!new)>(s: seq<T>, t: seq<T>, key: T -> string, collate: (string, string) -> bool)
    requires TotalPreorder(collate) && Apart(s, key, collate) && multiset(s) == multiset(t)
    ensures Apart(t, key, collate)
  {
    ApartIsUnique(s, key, collate);
    UniqueUnderPermutation(s, t, key);
    SameElements(s, t);
    forall i, j | 0 <= i < j < |t| ensures !(collate(key(t[i]), key(t[j])) && collate(key(t[j]), key(t[i]))) {
      assert t[i] in s && t[j] in s && key(t[i]) != key(t[j]);
      if collate(key(t[i]), key(t[j])) && collate(key(t[j]), key(t[i])) {
        ApartMeansSame(s, key, collate, t[i], t[j]);
      }
    }
  }

  lemma ByIdFinds<T(!new)>(s: seq<T>, key: T -> string, x: T)
    requires UniqueKeys(s, key) && x in s
    ensures ById(s, key)[key(x)] == x
  {
    UniqueMeansSame(s, key, x, ById(s, key)[key(x)]);
  }

  lemma UniqueIsDistinct<T(!new)>(s: seq<T>, key: T -> string)
    requires UniqueKeys(s, key)
    ensures Distinct(s)
  {
  }

  /** A permutation has the same entries, so unique ids stay unique. */
  lemma UniqueUnderPermutation<T(!new)>(s: seq<T>, t: seq<T>, key: T -> string)
    requires UniqueKeys(s, key) && multiset(s) == multiset(t)
    ensures UniqueKeys(t, key)
  {
    DistinctUnderPermutation(s, t);
    SameElements(s, t);
    forall i, j | 0 <= i < j < |t| ensures key(t[i]) != key(t[j]) {
      assert t[i] in s && t[j] in s && t[i] != t[j];
      if key(t[i]) == key(t[j]) {
        UniqueMeansSame(s, key, t[i], t[j]);
      }
    }
  }

  lemma {:induction false} AbsentIsUnique<T(!new)>(s: seq<T>, key: T -> string, other: map<string, T>)
    requires UniqueKeys(s, key)
    ensures UniqueKeys(Absent(s, key, other), key)
  {
    if s != [] {
      var rest := Absent(s[..|s| - 1], key, other);
      AbsentIsUnique(s[..|s| - 1], key, other);
      assert forall i :: 0 <= i < |rest| ==> rest[i] in s[..|s| - 1];
    }
  }

  lemma {:induction false} ChangedIsUnique<T(!new)>(s: seq<T>, key: T -> string, other: map<string, T>,
                                                    changed: (T, T) -> bool)
    requires UniqueKeys(s, key)
    ensures UniqueKeys(ChangedPairs(s, key, other, changed), (p: (T, T)) => key(p.0))
  {
    if s != [] {
      var rest := ChangedPairs(s[..|s| - 1], key, other, changed);
      ChangedIsUnique(s[..|s| - 1], key, other, changed);
      assert forall i :: 0 <= i < |rest| ==> rest[i] in rest && rest[i].0 in s[..|s| - 1];
    }
  }

  function Sum<T(!new)>(s: seq<T>, weight: T -> nat): nat {
    if s == [] then 0 else Sum(s[..|s| - 1], weight) + weight(s[|s| - 1])
  }

  lemma {:induction false} SumAppend<T(!new)>(s: seq<T>, t: seq<T>, weight: T -> nat)
    ensures Sum(s + t, weight) == Sum(s, weight) + Sum(t, weight)
  {
    if t == [] {
      assert s + t == s;
    } else {
      assert (s + t)[..|s + t| - 1] == s + t[..|t| - 1];
      SumAppend(s, t[..|t| - 1], weight);
    }
  }

  lemma SumOne<T(!new)>(x: T, weight: T -> nat)
    ensures Sum([x], weight) == weight(x)
  {
    assert [x][..0] == [];
  }

  lemma SumTakeOut<T(!new)>(t: seq<T>, i: nat, weight: T -> nat)
    requires i < |t|
    ensures Sum(t, weight) == Sum(t[..i] + t[i + 1..], weight) + weight(t[i])
  {
    var a, b := t[..i], t[i + 1..];
    SumOne(t[i], weight);
    hide Sum;
    SumAppend(a, [t[i]], weight);
    SumAppend(a + [t[i]], b, weight);
    SumAppend(a, b, weight);
    assert t == a + [t[i]] + b;
  }

  /** A sum over a list does not depend on the order of the list. */
  lemma {:induction false} SumUnderPermutation<T(!new)>(s: seq<T>, t: seq<T>, weight: T -> nat)
    requires multiset(s) == multiset(t)
    ensures Sum(s, weight) == Sum(t, weight)
  {
    SameElements(s, t);
    if s != [] {
      hide Sum;
      var x := s[|s| - 1];
      assert x in t;
      var i :| 0 <= i < |t| && t[i] == x;
      var s', t' := s[..|s| - 1], t[..i] + t[i + 1..];
      assert s' + s[|s|..] == s';
      TakeOut(s, |s| - 1);
      TakeOut(t, i);
      assert multiset(s') == multiset(s) - multiset{x} == multiset(t');
      SumUnderPermutation(s', t', weight);
      SumTakeOut(s, |s| - 1, weight);
      SumTakeOut(t, i, weight);
    }
  }
}
