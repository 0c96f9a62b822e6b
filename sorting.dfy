/**
 * The comparator sorts of the source (`Array.prototype.sort` with a numeric
 * key), as an insertion sort on sequences. The source relies only on the
 * result being ordered by the key and being a permutation of the input; the
 * relative order of equal keys is not part of the model.
 */
module Sorting {

  ghost predicate SortedBy<T>(s: seq<T>, key: T -> int) {
    forall i, j :: 0 <= i < j < |s| ==> key(s[i]) <= key(s[j])
  }

  /** How many leading elements of `s` have a key not larger than `x`'s. */
  function InsertPos<T>(s: seq<T>, x: T, key: T -> int): (k: nat)
    ensures k <= |s|
    ensures forall i :: 0 <= i < k ==> key(s[i]) <= key(x)
    ensures k < |s| ==> key(x) < key(s[k])
  {
    if s == [] || key(x) < key(s[0]) then 0 else 1 + InsertPos(s[1..], x, key)
  }

  /** Inserts `x` after every leading element whose key is not larger than its own. */
  function Insert<T>(s: seq<T>, x: T, key: T -> int): (r: seq<T>)
    requires SortedBy(s, key)
    ensures SortedBy(r, key)
    ensures multiset(r) == multiset(s) + multiset{x}
  {
    var k := InsertPos(s, x, key);
    InsertKeepsOrder(s, x, key, k);
    InsertAddsOne(s, x, k);
    s[..k] + [x] + s[k..]
  }

  lemma InsertKeepsOrder<T>(s: seq<T>, x: T, key: T -> int, k: nat)
    requires SortedBy(s, key) && k <= |s|
    requires forall i :: 0 <= i < k ==> key(s[i]) <= key(x)
    requires k < |s| ==> key(x) < key(s[k])
    ensures SortedBy(s[..k] + [x] + s[k..], key)
  {
    var r := s[..k] + [x] + s[k..];
    forall i, j | 0 <= i < j < |r| ensures key(r[i]) <= key(r[j]) {
      var a := if i < k then s[i] else if i == k then x else s[i - 1];
      var b := if j < k then s[j] else if j == k then x else s[j - 1];
      assert r[i] == a && r[j] == b;
      if i < k && j > k {
        assert key(s[i]) <= key(x);
        if k < j - 1 { assert key(s[k]) <= key(s[j - 1]); }
      } else if i == k && k < j - 1 {
        assert key(s[k]) <= key(s[j - 1]);
      }
    }
  }

  lemma InsertAddsOne<T>(s: seq<T>, x: T, k: nat)
    requires k <= |s|
    ensures multiset(s[..k] + [x] + s[k..]) == multiset(s) + multiset{x}
  {
    assert s == s[..k] + s[k..];
  }

  method SortBy<T>(s: seq<T>, key: T -> int) returns (r: seq<T>)
    ensures SortedBy(r, key)
    ensures multiset(r) == multiset(s)
  {
    r := [];
    var i := 0;
    while i < |s|
      invariant 0 <= i <= |s|
      invariant SortedBy(r, key)
      invariant multiset(r) == multiset(s[..i])
    {
      assert s[..i + 1] == s[..i] + [s[i]];
      r := Insert(r, s[i], key);
      i := i + 1;
    }
    assert s[..|s|] == s;
  }
}
