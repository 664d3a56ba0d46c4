/** Generic relational helpers over sequences: selection (a WHERE clause)
    and "keep one row per key" (a GROUP BY on a unique key). */
module Seqs {

  /** The elements of `s` that satisfy `p`, in their original order. */
  function Filter<T(==)>(s: seq<T>, p: T -> bool): (r: seq<T>)
    ensures |r| <= |s|
    ensures forall x :: x in r ==> x in s && p(x)
    ensures forall x :: x in s && p(x) ==> x in r
    ensures forall x | x in s :: multiset(r)[x] == if p(x) then multiset(s)[x] else 0
  {
    if |s| == 0 then []
    else
      var rest := Filter(s[1..], p);
      assert s == [s[0]] + s[1..];
      if p(s[0]) then [s[0]] + rest else rest
  }

  /** The set of keys occurring in `s`. */
  function Keys<T(==), K>(s: seq<T>, key: T -> K): set<K>
  {
    set x | x in s :: key(x)
  }

  /** No two positions of `s` carry the same key. */
  predicate DistinctKeys<T, K(==)>(s: seq<T>, key: T -> K)
  {
    forall i, j :: 0 <= i < j < |s| ==> key(s[i]) != key(s[j])
  }

  /** Walks `s` left to right keeping the first element of every key not in `seen`. */
  function UniqueByFrom<T(==), K(==)>(s: seq<T>, key: T -> K, seen: set<K>): (r: seq<T>)
    ensures |r| <= |s|
    ensures forall x :: x in r ==> x in s && key(x) !in seen
    ensures DistinctKeys(r, key)
    ensures Keys(r, key) == Keys(s, key) - seen
    decreases |s|
  {
    if |s| == 0 then []
    else if key(s[0]) in seen then
      var r := UniqueByFrom(s[1..], key, seen);
      assert Keys(s, key) == {key(s[0])} + Keys(s[1..], key) by {
        assert s == [s[0]] + s[1..];
      }
      r
    else
      var rest := UniqueByFrom(s[1..], key, seen + {key(s[0])});
      var r := [s[0]] + rest;
      assert Keys(s, key) == {key(s[0])} + Keys(s[1..], key) by {
        assert s == [s[0]] + s[1..];
      }
      assert Keys(r, key) == {key(s[0])} + Keys(rest, key) by {
        assert forall x :: x in r ==> x == s[0] || x in rest;
        assert s[0] in r && forall x :: x in rest ==> x in r;
      }
      assert forall j :: 0 <= j < |rest| ==> key(rest[j]) != key(s[0]) by {
        forall j | 0 <= j < |rest|
          ensures key(rest[j]) != key(s[0])
        {
          assert rest[j] in rest;
        }
      }
      r
  }

  /** One element per key of `s`, the first one with that key, in input order. */
  function UniqueBy<T(==), K(==)>(s: seq<T>, key: T -> K): (r: seq<T>)
    ensures |r| <= |s|
    ensures forall x :: x in r ==> x in s
    ensures DistinctKeys(r, key)
    ensures Keys(r, key) == Keys(s, key)
  {
    UniqueByFrom(s, key, {})
  }

  /** When the keys of `s` are already distinct, keeping one element per key keeps them all. */
  lemma {:induction false} UniqueByFromDistinct<T, K>(s: seq<T>, key: T -> K, seen: set<K>)
    requires DistinctKeys(s, key)
    requires forall x :: x in s ==> key(x) !in seen
    ensures UniqueByFrom(s, key, seen) == s
    decreases |s|
  {
    if |s| != 0 {
      forall x | x in s[1..]
        ensures key(x) !in seen + {key(s[0])}
      {
        var j :| 0 <= j < |s[1..]| && s[1..][j] == x;
        assert s[j + 1] == x;
      }
      UniqueByFromDistinct(s[1..], key, seen + {key(s[0])});
    }
  }

  /** Two elements with the same key in a sequence with distinct keys are one element. */
  lemma SameKeySameElement<T, K>(s: seq<T>, key: T -> K, x: T, y: T)
    requires DistinctKeys(s, key)
    requires x in s && y in s && key(x) == key(y)
    ensures x == y
  {
    var i :| 0 <= i < |s| && s[i] == x;
    var j :| 0 <= j < |s| && s[j] == y;
    assert !(i < j) && !(j < i);
  }
}
