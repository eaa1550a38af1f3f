/** The database's `sort({field: 1})` and `limit(n)`, as functions on sequences.
    Descending order on a field is ascending order on its negation. */
module Sorting {

  predicate SortedBy<T>(s: seq<T>, key: T -> int)
  {
    forall i, j :: 0 <= i < j < |s| ==> key(s[i]) <= key(s[j])
  }

  function Insert<T>(x: T, s: seq<T>, key: T -> int): (r: seq<T>)
    requires SortedBy(s, key)
    ensures SortedBy(r, key)
    ensures multiset(r) == multiset(s) + multiset{x}
    ensures |r| == |s| + 1
  {
    if s == [] then [x]
    else if key(x) <= key(s[0]) then [x] + s
    else
      var rest := Insert(x, s[1..], key);
      assert s == [s[0]] + s[1..];
      assert forall j :: 0 <= j < |s[1..]| ==> key(s[0]) <= key(s[1..][j]);
      LowerBoundKept(rest, s[1..], x, key, key(s[0]));
      [s[0]] + rest
  }

  /** Every element of a sequence holding the elements of `t` and `x` is at least a bound
      that all of them reach. */
  lemma LowerBoundKept<T>(r: seq<T>, t: seq<T>, x: T, key: T -> int, b: int)
    requires multiset(r) == multiset(t) + multiset{x}
    requires b <= key(x) && forall j :: 0 <= j < |t| ==> b <= key(t[j])
    ensures forall k :: 0 <= k < |r| ==> b <= key(r[k])
  {
    forall k | 0 <= k < |r| ensures b <= key(r[k]) {
      assert r[k] in multiset(r);
      if r[k] != x {
        assert r[k] in multiset(t);
        var j :| 0 <= j < |t| && t[j] == r[k];
      }
    }
  }

  /** A stable insertion sort: the order the store returns documents in, by `key`. */
  function SortBy<T>(s: seq<T>, key: T -> int): (r: seq<T>)
    ensures SortedBy(r, key)
    ensures multiset(r) == multiset(s)
    ensures |r| == |s|
  {
    if s == [] then []
    else
      assert s == [s[0]] + s[1..];
      Insert(s[0], SortBy(s[1..], key), key)
  }

  /** `limit(n)`: the first |n| elements. A limit of 0 returns everything, and a negative
      limit is taken by its absolute value, as MongoDB does. */
  function Limit<T>(s: seq<T>, n: int): (r: seq<T>)
    ensures n == 0 ==> r == s
    ensures n != 0 ==> |r| == if Abs(n) < |s| then Abs(n) else |s|
    ensures |r| <= |s| && r == s[..|r|]
  {
    var m := Abs(n);
    if m == 0 || m >= |s| then s else s[..m]
  }

  function Abs(n: int): nat
  {
    if n < 0 then -n else n
  }

  lemma PrefixKeepsOrder<T>(s: seq<T>, k: nat, key: T -> int)
    requires SortedBy(s, key) && k <= |s|
    ensures SortedBy(s[..k], key)
  {
  }
}
