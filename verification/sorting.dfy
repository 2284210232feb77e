/** A stable insertion sort on a numeric key, newest first: the `ORDER BY ... DESC`
    the listing queries ask the database for. The database leaves the order of equal
    keys open; this model keeps their original order. */
module Sorting {

  predicate SortedDesc<T>(s: seq<T>, key: T -> int)
  {
    forall i, j :: 0 <= i < j < |s| ==> key(s[i]) >= key(s[j])
  }

  function InsertDesc<T(==)>(x: T, s: seq<T>, key: T -> int): (r: seq<T>)
    requires SortedDesc(s, key)
    ensures SortedDesc(r, key)
    ensures multiset(r) == multiset(s) + multiset{x}
    ensures |r| == |s| + 1 && (r[0] == x || (s != [] && r[0] == s[0]))
  {
    if s == [] then [x]
    else if key(x) > key(s[0]) then
      SortedCons(x, s, key);
      [x] + s
    else
      SortedTail(s, key);
      var rest := InsertDesc(x, s[1..], key);
      assert s == [s[0]] + s[1..];
      assert multiset([s[0]] + rest) == multiset{s[0]} + multiset(s[1..]) + multiset{x};
      SortedCons(s[0], rest, key);
      [s[0]] + rest
  }

  lemma SortedTail<T>(s: seq<T>, key: T -> int)
    requires SortedDesc(s, key) && s != []
    ensures SortedDesc(s[1..], key)
  {
    forall i, j | 0 <= i < j < |s[1..]|
      ensures key(s[1..][i]) >= key(s[1..][j])
    {
      assert s[1..][i] == s[i + 1] && s[1..][j] == s[j + 1];
    }
  }

  /** A head no smaller than the first key of a sorted sequence keeps it sorted. */
  lemma SortedCons<T>(h: T, rest: seq<T>, key: T -> int)
    requires SortedDesc(rest, key) && (rest == [] || key(h) >= key(rest[0]))
    ensures SortedDesc([h] + rest, key)
  {
    var r := [h] + rest;
    forall i, j | 0 <= i < j < |r|
      ensures key(r[i]) >= key(r[j])
    {
      assert r[j] == rest[j - 1];
      if i == 0 {
        assert key(rest[0]) >= key(rest[j - 1]) || j - 1 == 0;
      } else {
        assert r[i] == rest[i - 1];
      }
    }
  }

  /** A permutation of `s` whose keys never increase. */
  function SortDesc<T(==)>(s: seq<T>, key: T -> int): (r: seq<T>)
    ensures SortedDesc(r, key)
    ensures multiset(r) == multiset(s)
  {
    if s == [] then []
    else
      assert s == [s[0]] + s[1..];
      InsertDesc(s[0], SortDesc(s[1..], key), key)
  }

  /** Two sequences with the same multiset of elements have the same members. */
  lemma SameMembers<T>(a: seq<T>, b: seq<T>)
    requires multiset(a) == multiset(b)
    ensures forall i :: 0 <= i < |a| ==> a[i] in b
    ensures forall i :: 0 <= i < |b| ==> b[i] in a
  {
    forall i | 0 <= i < |a|
      ensures a[i] in b
    {
      assert a[i] in multiset(a);
    }
    forall i | 0 <= i < |b|
      ensures b[i] in a
    {
      assert b[i] in multiset(b);
    }
  }
}
