/**
 * `ORDER BY key DESC` as a pure function. SQLite leaves the order of rows with
 * equal keys unspecified; any result that is a permutation of the input and
 * non-increasing in the key is a possible answer, and `SortDesc` computes one.
 */
module Sorting {

  /** Every earlier element has a key at least as large as every later one. */
  predicate SortedDesc<T>(s: seq<T>, key: T -> int)
  {
    forall i, j :: 0 <= i < j < |s| ==> key(s[i]) >= key(s[j])
  }

  /** A head no smaller than the first element of a sorted tail keeps it sorted. */
  lemma SortedCons<T>(h: T, rest: seq<T>, key: T -> int)
    requires SortedDesc(rest, key)
    requires rest != [] ==> key(h) >= key(rest[0])
    ensures SortedDesc([h] + rest, key)
  {
  }

  /** Puts `x` in front of the first element whose key it reaches. */
  function Insert<T>(x: T, s: seq<T>, key: T -> int): (r: seq<T>)
    requires SortedDesc(s, key)
    ensures SortedDesc(r, key)
    ensures multiset(r) == multiset(s) + multiset{x}
    ensures |r| == |s| + 1
    ensures r[0] == x || (s != [] && r[0] == s[0])
  {
    if s == [] || key(x) >= key(s[0]) then
      SortedCons(x, s, key);
      [x] + s
    else
      var rest := Insert(x, s[1..], key);
      assert s == [s[0]] + s[1..];
      SortedCons(s[0], rest, key);
      [s[0]] + rest
  }

  function SortDesc<T>(s: seq<T>, key: T -> int): (r: seq<T>)
    ensures SortedDesc(r, key)
    ensures multiset(r) == multiset(s)
    ensures |r| == |s|
  {
    if s == [] then []
    else
      assert s == [s[0]] + s[1..];
      Insert(s[0], SortDesc(s[1..], key), key)
  }

  /** No value occurs twice. */
  ghost predicate Distinct<T>(s: seq<T>)
  {
    forall i, j :: 0 <= i < j < |s| ==> s[i] != s[j]
  }

  lemma {:induction false} InsertKeepsDistinct<T>(x: T, s: seq<T>, key: T -> int)
    requires SortedDesc(s, key) && Distinct(s) && x !in s
    ensures Distinct(Insert(x, s, key))
    decreases |s|
  {
    if s != [] && key(x) < key(s[0]) {
      var rest := Insert(x, s[1..], key);
      assert x !in s[1..];
      InsertKeepsDistinct(x, s[1..], key);
      forall k | 0 <= k < |rest|
        ensures rest[k] != s[0]
      {
        assert rest[k] in multiset(rest);
      }
    }
  }

  /** Sorting a sequence without repetitions yields one without repetitions. */
  lemma {:induction false} SortKeepsDistinct<T>(s: seq<T>, key: T -> int)
    requires Distinct(s)
    ensures Distinct(SortDesc(s, key))
    decreases |s|
  {
    if s != [] {
      var tail := SortDesc(s[1..], key);
      SortKeepsDistinct(s[1..], key);
      assert s[0] !in multiset(s[1..]);
      assert s[0] !in tail;
      InsertKeepsDistinct(s[0], tail, key);
    }
  }
}
