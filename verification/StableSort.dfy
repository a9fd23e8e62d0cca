/** The stable sort of JavaScript arrays, as a function of the sequence and of "may stand before". */
module StableSort {

  ghost predicate TotalPreorder<T(!new)>(le: (T, T) -> bool) {
    && (forall a, b :: le(a, b) || le(b, a))
    && (forall a, b, c :: le(a, b) && le(b, c) ==> le(a, c))
  }

  ghost predicate Sorted<T>(s: seq<T>, le: (T, T) -> bool) {
    forall i, j :: 0 <= i < j < |s| ==> le(s[i], s[j])
  }

  /** No two different elements of `s` compare equal. */
  ghost predicate Separated<T>(s: seq<T>, le: (T, T) -> bool) {
    forall a, b :: a in s && b in s && le(a, b) && le(b, a) ==> a == b
  }

  function Insert<T>(x: T, s: seq<T>, le: (T, T) -> bool): (r: seq<T>)
    ensures multiset(r) == multiset([x] + s) && |r| == |s| + 1
  {
    if s == [] then [x]
    else if le(x, s[0]) then [x] + s
    else
      assert s == [s[0]] + s[1..];
      [s[0]] + Insert(x, s[1..], le)
  }

  function SortBy<T>(s: seq<T>, le: (T, T) -> bool): (r: seq<T>)
    ensures multiset(r) == multiset(s) && |r| == |s|
  {
    if s == [] then []
    else
      assert s == [s[0]] + s[1..];
      Insert(s[0], SortBy(s[1..], le), le)
  }

  lemma SameElements<T>(s: seq<T>, t: seq<T>)
    requires multiset(s) == multiset(t)
    ensures |s| == |t| && forall x :: x in s <==> x in t
  {
    assert |multiset(s)| == |s| && |multiset(t)| == |t|;
    forall x ensures x in s <==> x in t {
      assert x in s <==> x in multiset(s);
      assert x in t <==> x in multiset(t);
    }
  }

  lemma {:induction false} InsertKeepsSorted<T(!new)>(x: T, s: seq<T>, le: (T, T) -> bool)
    requires TotalPreorder(le) && Sorted(s, le)
    ensures Sorted(Insert(x, s, le), le)
  {
    if s != [] && !le(x, s[0]) {
      var rest := Insert(x, s[1..], le);
      InsertKeepsSorted(x, s[1..], le);
      SameElements(rest, [x] + s[1..]);
      forall i | 0 <= i < |rest| ensures le(s[0], rest[i]) {
        assert rest[i] in rest && (rest[i] == x || rest[i] in s[1..]);
        if rest[i] in s[1..] {
          var k :| 0 <= k < |s[1..]| && s[1..][k] == rest[i];
          assert le(s[0], s[k + 1]);
        }
      }
    }
  }

  lemma {:induction false} SortByIsSorted<T(!new)>(s: seq<T>, le: (T, T) -> bool)
    requires TotalPreorder(le)
    ensures Sorted(SortBy(s, le), le)
  {
    if s != [] {
      SortByIsSorted(s[1..], le);
      InsertKeepsSorted(s[0], SortBy(s[1..], le), le);
    }
  }

  lemma DropHead<T>(s: seq<T>)
    requires s != []
    ensures multiset(s) == multiset{s[0]} + multiset(s[1..])
  {
    assert s == [s[0]] + s[1..];
  }

  lemma LeastFirst<T(!new)>(s: seq<T>, x: T, le: (T, T) -> bool)
    requires TotalPreorder(le) && Sorted(s, le) && x in s
    ensures le(s[0], x)
  {
    var i :| 0 <= i < |s| && s[i] == x;
    assert le(s[0], s[0]);
  }

  lemma SortedTail<T(!new)>(s: seq<T>, le: (T, T) -> bool)
    requires s != [] && Sorted(s, le) && Separated(s, le)
    ensures Sorted(s[1..], le) && Separated(s[1..], le)
  {
    assert forall x :: x in s[1..] ==> x in s;
  }

  lemma HeadsAgree<T(!new)>(s: seq<T>, t: seq<T>, le: (T, T) -> bool)
    requires TotalPreorder(le) && Sorted(s, le) && Sorted(t, le) && Separated(s, le)
    requires s != [] && t != [] && forall x :: x in s <==> x in t
    ensures s[0] == t[0] && Separated(t, le)
  {
    LeastFirst(s, t[0], le);
    LeastFirst(t, s[0], le);
  }

  lemma HeadAndTail<T>(s: seq<T>, t: seq<T>)
    requires s != [] && t != [] && s[0] == t[0] && s[1..] == t[1..]
    ensures s == t
  {
    assert s == [s[0]] + s[1..] && t == [t[0]] + t[1..];
  }

  /** A sorted arrangement of elements that never tie is unique. */
  lemma {:induction false} SortedIsUnique<T(!new)>(s: seq<T>, t: seq<T>, le: (T, T) -> bool)
    requires TotalPreorder(le) && Sorted(s, le) && Sorted(t, le) && Separated(s, le)
    requires multiset(s) == multiset(t)
    ensures s == t
    decreases |s|
  {
    hide Sorted, Separated, TotalPreorder;
    SameElements(s, t);
    if s != [] {
      HeadsAgree(s, t, le);
      SortedTail(s, le);
      SortedTail(t, le);
      DropHead(s);
      DropHead(t);
      assert multiset(s[1..]) == multiset(s) - multiset{s[0]};
      assert multiset(t[1..]) == multiset(t) - multiset{t[0]};
      SortedIsUnique(s[1..], t[1..], le);
      HeadAndTail(s, t);
    }
  }

  /** Sorting forgets the order it was given, as long as different elements never tie. */
  lemma SortForgetsOrder<T(!new)>(s: seq<T>, t: seq<T>, le: (T, T) -> bool)
    requires TotalPreorder(le) && multiset(s) == multiset(t) && Separated(s, le)
    ensures SortBy(s, le) == SortBy(t, le)
  {
    SortByIsSorted(s, le);
    SortByIsSorted(t, le);
    SameElements(s, SortBy(s, le));
    SortedIsUnique(SortBy(s, le), SortBy(t, le), le);
  }

  function Map<S, T>(s: seq<S>, f: S -> T): (r: seq<T>)
    ensures |r| == |s| && forall i :: 0 <= i < |s| ==> r[i] == f(s[i])
  {
    seq(|s|, i requires 0 <= i < |s| => f(s[i]))
  }

  lemma MapCons<S, T>(s: seq<S>, f: S -> T)
    requires s != []
    ensures Map(s, f) == [f(s[0])] + Map(s[1..], f)
  {
  }

  lemma TakeOut<T>(t: seq<T>, i: nat)
    requires i < |t|
    ensures multiset(t) == multiset(t[..i] + t[i + 1..]) + multiset{t[i]}
  {
    assert t == t[..i] + [t[i]] + t[i + 1..];
  }

  lemma MapTakeOut<S, T>(t: seq<S>, i: nat, f: S -> T)
    requires i < |t|
    ensures multiset(Map(t, f)) == multiset(Map(t[..i] + t[i + 1..], f)) + multiset{f(t[i])}
  {
    var u := Map(t, f);
    TakeOut(u, i);
    assert u[..i] + u[i + 1..] == Map(t[..i] + t[i + 1..], f);
  }

  lemma {:induction false} MapMultiset<S, T>(s: seq<S>, t: seq<S>, f: S -> T)
    requires multiset(s) == multiset(t)
    ensures multiset(Map(s, f)) == multiset(Map(t, f))
  {
    SameElements(s, t);
    if s != [] {
      assert s[0] in t;
      var i :| 0 <= i < |t| && t[i] == s[0];
      var t' := t[..i] + t[i + 1..];
      DropHead(s);
      TakeOut(t, i);
      assert multiset(s[1..]) == multiset(s) - multiset{s[0]} == multiset(t');
      MapMultiset(s[1..], t', f);
      MapCons(s, f);
      DropHead(Map(s, f));
      MapTakeOut(t, i, f);
    }
  }

  /** Sorting by an order that a map respects commutes with the map. */
  lemma {:induction false} SortCommutesWithMap<S(!new), T(!new)>(s: seq<S>, f: S -> T,
                                                                 le: (S, S) -> bool, le': (T, T) -> bool)
    requires forall a, b :: le(a, b) <==> le'(f(a), f(b))
    ensures SortBy(Map(s, f), le') == Map(SortBy(s, le), f)
  {
    if s != [] {
      MapCons(s, f);
      assert Map(s, f)[1..] == Map(s[1..], f);
      SortCommutesWithMap(s[1..], f, le, le');
      InsertCommutesWithMap(s[0], SortBy(s[1..], le), f, le, le');
    }
  }

  lemma {:induction false} InsertCommutesWithMap<S(!new), T(!new)>(x: S, s: seq<S>, f: S -> T,
                                                                   le: (S, S) -> bool, le': (T, T) -> bool)
    requires forall a, b :: le(a, b) <==> le'(f(a), f(b))
    ensures Insert(f(x), Map(s, f), le') == Map(Insert(x, s, le), f)
  {
    if s == [] {
      MapCons([x], f);
    } else if le(x, s[0]) {
      MapCons([x] + s, f);
      assert ([x] + s)[1..] == s;
    } else {
      InsertCommutesWithMap(x, s[1..], f, le, le');
      hide Map;
      var rest := Insert(x, s[1..], le);
      MapCons(s, f);
      assert Map(s, f)[1..] == Map(s[1..], f) && !le'(f(x), Map(s, f)[0]);
      MapCons([s[0]] + rest, f);
      assert ([s[0]] + rest)[1..] == rest;
    }
  }

  /** No element twice. */
  predicate Distinct<T(==)>(s: seq<T>) {
    forall i, j :: 0 <= i < j < |s| ==> s[i] != s[j]
  }

  lemma {:induction false} DistinctCounts<T>(s: seq<T>)
    requires Distinct(s)
    ensures forall x :: multiset(s)[x] == if x in s then 1 else 0
  {
    if s != [] {
      DropHead(s);
      DistinctCounts(s[1..]);
      assert s[0] !in s[1..];
      assert forall x :: x in s <==> x == s[0] || x in s[1..];
    }
  }

  lemma DistinctSameSet<T>(s: seq<T>, t: seq<T>)
    requires Distinct(s) && Distinct(t) && forall x :: x in s <==> x in t
    ensures multiset(s) == multiset(t)
  {
    DistinctCounts(s);
    DistinctCounts(t);
    assert forall x :: multiset(s)[x] == multiset(t)[x];
  }

  lemma DistinctUnderPermutation<T>(s: seq<T>, t: seq<T>)
    requires Distinct(s) && multiset(s) == multiset(t)
    ensures Distinct(t)
  {
    DistinctCounts(s);
    forall i, j | 0 <= i < j < |t| ensures t[i] != t[j] {
      if t[i] == t[j] {
        CountedTwice(t, i, j);
      }
    }
  }

  lemma CountedTwice<T>(t: seq<T>, i: nat, j: nat)
    requires i < j < |t| && t[i] == t[j]
    ensures multiset(t)[t[i]] >= 2
  {
    assert t == t[..i] + [t[i]] + t[i + 1..j] + [t[j]] + t[j + 1..];
  }

  function Filter<T(!new)>(s: seq<T>, p: T -> bool): (r: seq<T>)
    ensures forall x :: x in r <==> x in s && p(x)
    ensures |r| <= |s|
  {
    if s == [] then []
    else
      assert forall x :: x in s <==> x == s[0] || x in s[1..];
      (if p(s[0]) then [s[0]] else []) + Filter(s[1..], p)
  }

  lemma {:induction false} FilterCounts<T(!new)>(s: seq<T>, p: T -> bool)
    ensures forall x :: multiset(Filter(s, p))[x] == if p(x) then multiset(s)[x] else 0
  {
    if s != [] {
      DropHead(s);
      FilterCounts(s[1..], p);
    }
  }

  lemma FilterMultiset<T(!new)>(s: seq<T>, t: seq<T>, p: T -> bool)
    requires multiset(s) == multiset(t)
    ensures multiset(Filter(s, p)) == multiset(Filter(t, p))
  {
    FilterCounts(s, p);
    FilterCounts(t, p);
    var fs, ft := multiset(Filter(s, p)), multiset(Filter(t, p));
    assert forall x :: fs[x] == ft[x];
  }

  lemma {:induction false} FilterKeepsSorted<T(!new)>(s: seq<T>, p: T -> bool, le: (T, T) -> bool)
    requires Sorted(s, le)
    ensures Sorted(Filter(s, p), le)
  {
    if s != [] {
      FilterKeepsSorted(s[1..], p, le);
      var rest := Filter(s[1..], p);
      forall i | 0 <= i < |rest| ensures le(s[0], rest[i]) {
        assert rest[i] in rest;
        var k :| 0 <= k < |s[1..]| && s[1..][k] == rest[i];
        assert le(s[0], s[k + 1]);
      }
    }
  }

  lemma FilterSplits<T(!new)>(s: seq<T>, p: T -> bool, q: T -> bool)
    requires forall x :: q(x) <==> !p(x)
    ensures multiset(Filter(s, p)) + multiset(Filter(s, q)) == multiset(s)
  {
    FilterCounts(s, p);
    FilterCounts(s, q);
    var both := multiset(Filter(s, p)) + multiset(Filter(s, q));
    assert forall x :: both[x] == multiset(s)[x];
  }
}
