/** Stable sorting by a descending key, as Kotlin's `sortByDescending` and Python's
    `sort(reverse=True)` promise it. */
module Sorting {

  ghost predicate Descending<T>(s: seq<T>, key: T -> real) {
    forall i, j :: 0 <= i < j < |s| ==> key(s[i]) >= key(s[j])
  }

  function Insert<T>(x: T, s: seq<T>, key: T -> real): seq<T> {
    if s == [] || key(x) >= key(s[0]) then [x] + s else [s[0]] + Insert(x, s[1..], key)
  }

  /** Best first, ties in their order. */
  function SortByDescending<T>(s: seq<T>, key: T -> real): seq<T> {
    if s == [] then [] else Insert(s[0], SortByDescending(s[1..], key), key)
  }

  function WithKey<T>(s: seq<T>, key: T -> real, w: real): seq<T> {
    if s == [] then [] else (if key(s[0]) == w then [s[0]] else []) + WithKey(s[1..], key, w)
  }

  lemma {:induction false} InsertedFrom<T>(x: T, s: seq<T>, key: T -> real, y: T)
    requires y in Insert(x, s, key)
    ensures y == x || y in s
  {
    if s != [] && key(x) < key(s[0]) && y != s[0] {
      InsertedFrom(x, s[1..], key, y);
    }
  }

  lemma {:induction false} InsertPermutes<T>(x: T, s: seq<T>, key: T -> real)
    ensures multiset(Insert(x, s, key)) == multiset(s) + multiset{x}
  {
    if s != [] && key(x) < key(s[0]) {
      InsertPermutes(x, s[1..], key);
      assert s == [s[0]] + s[1..];
    }
  }

  lemma {:induction false} InsertSorted<T>(x: T, s: seq<T>, key: T -> real)
    requires Descending(s, key)
    ensures Descending(Insert(x, s, key), key)
  {
    if s != [] && key(x) < key(s[0]) {
      InsertSorted(x, s[1..], key);
      var t := Insert(x, s[1..], key);
      forall j | 0 <= j < |t|
        ensures key(s[0]) >= key(t[j])
      {
        InsertedFrom(x, s[1..], key, t[j]);
      }
    }
  }

  lemma {:induction false} InsertStable<T>(x: T, s: seq<T>, key: T -> real, w: real)
    requires Descending(s, key)
    ensures WithKey(Insert(x, s, key), key, w) == WithKey([x] + s, key, w)
  {
    assert ([x] + s)[1..] == s;
    if s != [] && key(x) < key(s[0]) {
      InsertStable(x, s[1..], key, w);
      assert ([x] + s[1..])[1..] == s[1..];
      assert ([s[0]] + Insert(x, s[1..], key))[1..] == Insert(x, s[1..], key);
    }
  }

  /** Sorting permutes, orders best first, and keeps ties in their order. */
  lemma {:induction false} SortIsStable<T>(s: seq<T>, key: T -> real, w: real)
    ensures Descending(SortByDescending(s, key), key)
    ensures multiset(SortByDescending(s, key)) == multiset(s)
    ensures WithKey(SortByDescending(s, key), key, w) == WithKey(s, key, w)
  {
    if s != [] {
      SortIsStable(s[1..], key, w);
      InsertSorted(s[0], SortByDescending(s[1..], key), key);
      InsertPermutes(s[0], SortByDescending(s[1..], key), key);
      InsertStable(s[0], SortByDescending(s[1..], key), key, w);
      assert s == [s[0]] + s[1..];
      assert ([s[0]] + SortByDescending(s[1..], key))[1..] == SortByDescending(s[1..], key);
    }
  }

  lemma SameMembers<T>(s: seq<T>, key: T -> real)
    ensures forall x :: x in SortByDescending(s, key) <==> x in s
  {
    SortIsStable(s, key, 0.0);
    var t := SortByDescending(s, key);
    forall x
      ensures x in t <==> x in s
    {
      assert x in t <==> x in multiset(t);
      assert x in s <==> x in multiset(s);
    }
  }
}
