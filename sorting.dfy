/**
 * Stable sorting by a numeric key, standing for JavaScript's Array.prototype.sort
 * with a comparator of the form `key(a) - key(b)`.
 */
module Sorting {

  ghost predicate SortedBy<T>(s: seq<T>, key: T -> real)
  {
    forall i, j :: 0 <= i < j < |s| ==> key(s[i]) <= key(s[j])
  }

  /** Places `x` before the first element whose key is not smaller (keeps earlier elements first). */
  function Insert<T>(x: T, s: seq<T>, key: T -> real): (r: seq<T>)
    requires SortedBy(s, key)
    ensures SortedBy(r, key)
    ensures multiset(r) == multiset(s) + multiset{x}
    decreases |s|
  {
    if s == [] then [x]
    else if key(x) <= key(s[0]) then [x] + s
    else
      var rest := Insert(x, s[1..], key);
      InsertBehindHead(x, s, rest, key);
      [s[0]] + rest
  }

  /** Putting the head of a sorted `s` before a sorted arrangement of the rest of `s` and `x`, when `x` goes after the head. */
  lemma InsertBehindHead<T>(x: T, s: seq<T>, rest: seq<T>, key: T -> real)
    requires s != [] && SortedBy(s, key) && key(s[0]) < key(x)
    requires SortedBy(rest, key) && multiset(rest) == multiset(s[1..]) + multiset{x}
    ensures SortedBy([s[0]] + rest, key)
    ensures multiset([s[0]] + rest) == multiset(s) + multiset{x}
  {
    assert s == [s[0]] + s[1..];
    forall k | 0 <= k < |rest|
      ensures key(s[0]) <= key(rest[k])
    {
      assert rest[k] in multiset(rest);
      if rest[k] != x {
        assert rest[k] in multiset(s[1..]);
        var j :| 0 <= j < |s[1..]| && s[1..][j] == rest[k];
        assert s[j + 1] == rest[k];
      }
    }
    var r := [s[0]] + rest;
    forall i, j | 0 <= i < j < |r|
      ensures key(r[i]) <= key(r[j])
    {
      assert r[j] == rest[j - 1];
      if i > 0 {
        assert r[i] == rest[i - 1];
      }
    }
  }

  /** The elements of `s`, ordered by non-decreasing key. */
  function SortBy<T>(s: seq<T>, key: T -> real): (r: seq<T>)
    ensures SortedBy(r, key)
    ensures multiset(r) == multiset(s)
    ensures |r| == |s|
    decreases |s|
  {
    if s == [] then []
    else
      assert s == [s[0]] + s[1..];
      Insert(s[0], SortBy(s[1..], key), key)
  }

  /** The elements of `s` whose key is `v`, in their order in `s`. */
  ghost function KeyFilter<T>(s: seq<T>, key: T -> real, v: real): seq<T>
    decreases |s|
  {
    if s == [] then []
    else (if key(s[0]) == v then [s[0]] else []) + KeyFilter(s[1..], key, v)
  }

  /**
   * `r` is `s` sorted stably: a permutation of `s` in non-decreasing key order in which
   * the elements of each key keep the order they have in `s`.
   */
  ghost predicate StableSortOf<T>(r: seq<T>, s: seq<T>, key: T -> real)
  {
    && SortedBy(r, key)
    && multiset(r) == multiset(s)
    && forall v :: KeyFilter(r, key, v) == KeyFilter(s, key, v)
  }

  /** The filter of a sequence with a given first element. */
  lemma FilterCons<T>(a: T, rest: seq<T>, key: T -> real, v: real)
    ensures KeyFilter([a] + rest, key, v) == (if key(a) == v then [a] else []) + KeyFilter(rest, key, v)
  {
    assert ([a] + rest)[0] == a && ([a] + rest)[1..] == rest;
  }

  lemma SortedTail<T>(s: seq<T>, key: T -> real)
    requires s != [] && SortedBy(s, key)
    ensures SortedBy(s[1..], key)
  {
    forall i, j | 0 <= i < j < |s[1..]|
      ensures key(s[1..][i]) <= key(s[1..][j])
    {
      assert s[1..][i] == s[i + 1] && s[1..][j] == s[j + 1];
    }
  }

  /** Inserting `x` puts it first among the elements of its key. */
  lemma {:induction false} InsertFilter<T>(x: T, t: seq<T>, key: T -> real, v: real)
    requires SortedBy(t, key)
    ensures KeyFilter(Insert(x, t, key), key, v) == (if key(x) == v then [x] else []) + KeyFilter(t, key, v)
    decreases |t|
  {
    if t == [] {
      FilterCons(x, t, key, v);
      assert [x] + t == [x];
    } else if key(x) <= key(t[0]) {
      FilterCons(x, t, key, v);
    } else {
      var rest := Insert(x, t[1..], key);
      assert Insert(x, t, key) == [t[0]] + rest;
      SortedTail(t, key);
      InsertFilter(x, t[1..], key, v);
      FilterCons(t[0], rest, key, v);
      FilterCons(t[0], t[1..], key, v);
      assert [t[0]] + t[1..] == t;
    }
  }

  /** Sorting by insertion is stable. */
  lemma {:induction false} SortByStable<T>(s: seq<T>, key: T -> real, v: real)
    ensures KeyFilter(SortBy(s, key), key, v) == KeyFilter(s, key, v)
    decreases |s|
  {
    if s != [] {
      SortByStable(s[1..], key, v);
      InsertFilter(s[0], SortBy(s[1..], key), key, v);
    }
  }

  lemma SortByIsStableSort<T>(s: seq<T>, key: T -> real)
    ensures StableSortOf(SortBy(s, key), s, key)
  {
    forall v
      ensures KeyFilter(SortBy(s, key), key, v) == KeyFilter(s, key, v)
    {
      SortByStable(s, key, v);
    }
  }

  /** Two sorted arrangements of the same elements start with the same key. */
  lemma SortedHeadsAgree<T>(r1: seq<T>, r2: seq<T>, key: T -> real)
    requires r1 != [] && SortedBy(r1, key) && SortedBy(r2, key) && multiset(r1) == multiset(r2)
    ensures r2 != [] && key(r1[0]) == key(r2[0])
  {
    assert r1[0] in multiset(r2);
    assert r2 != [];
    assert r2[0] in multiset(r1);
    var i :| 0 <= i < |r2| && r2[i] == r1[0];
    var j :| 0 <= j < |r1| && r1[j] == r2[0];
  }

  /** Removing the same first element leaves the same multiset. */
  lemma MultisetTails<T>(r1: seq<T>, r2: seq<T>)
    requires r1 != [] && r2 != [] && r1[0] == r2[0] && multiset(r1) == multiset(r2)
    ensures multiset(r1[1..]) == multiset(r2[1..])
  {
    assert r1 == [r1[0]] + r1[1..] && r2 == [r2[0]] + r2[1..];
    assert multiset(r1[1..]) == multiset(r1) - multiset{r1[0]};
    assert multiset(r2[1..]) == multiset(r2) - multiset{r2[0]};
  }

  /** Dropping the first element drops it from the filter of its own key only. */
  lemma FilterTail<T>(s: seq<T>, key: T -> real, u: real)
    requires s != []
    ensures KeyFilter(s[1..], key, u) == if key(s[0]) == u then KeyFilter(s, key, u)[1..] else KeyFilter(s, key, u)
  {
  }

  /** Two sorted arrangements of the same elements with the same order within each key are equal. */
  lemma {:induction false} SortedArrangementUnique<T>(r1: seq<T>, r2: seq<T>, key: T -> real)
    requires SortedBy(r1, key) && SortedBy(r2, key) && multiset(r1) == multiset(r2)
    requires forall v :: KeyFilter(r1, key, v) == KeyFilter(r2, key, v)
    ensures r1 == r2
    decreases |r1|
  {
    if r1 == [] {
      assert |r2| == |multiset(r2)| == 0;
    } else {
      SortedHeadsAgree(r1, r2, key);
      var v := key(r1[0]);
      assert KeyFilter(r1, key, v)[0] == r1[0];
      assert KeyFilter(r2, key, v)[0] == r2[0];
      assert r1[0] == r2[0];
      forall u
        ensures KeyFilter(r1[1..], key, u) == KeyFilter(r2[1..], key, u)
      {
        FilterTail(r1, key, u);
        FilterTail(r2, key, u);
      }
      MultisetTails(r1, r2);
      SortedTail(r1, key);
      SortedTail(r2, key);
      SortedArrangementUnique(r1[1..], r2[1..], key);
      assert r1 == [r1[0]] + r1[1..] && r2 == [r2[0]] + r2[1..];
    }
  }

  /** The stable sort of `s` is unique. */
  lemma StableSortUnique<T>(r1: seq<T>, r2: seq<T>, s: seq<T>, key: T -> real)
    requires StableSortOf(r1, s, key) && StableSortOf(r2, s, key)
    ensures r1 == r2
  {
    SortedArrangementUnique(r1, r2, key);
  }

  /** When all keys are equal, the stable sort leaves the order as it is. */
  lemma StableSortOfEqualKeys<T>(r: seq<T>, s: seq<T>, key: T -> real, v: real)
    requires StableSortOf(r, s, key)
    requires forall i :: 0 <= i < |s| ==> key(s[i]) == v
    ensures r == s
  {
    assert StableSortOf(s, s, key);
    StableSortUnique(r, s, s, key);
  }
}
