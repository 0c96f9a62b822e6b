/** The array helpers the source calls (`filter`, `map`, concatenation), as functions on sequences. */
module Seqs {

  /** `Array.prototype.filter`: the elements that satisfy `keep`, in order. */
  function Filter<T>(s: seq<T>, keep: T -> bool): (r: seq<T>)
    ensures |r| <= |s|
    ensures forall i :: 0 <= i < |r| ==> r[i] in s && keep(r[i])
    ensures forall i :: 0 <= i < |s| && keep(s[i]) ==> s[i] in r
  {
    if s == [] then []
    else Filter(s[..|s| - 1], keep) + (if keep(s[|s| - 1]) then [s[|s| - 1]] else [])
  }

  /** `Array.prototype.map`. */
  function MapSeq<T, U>(s: seq<T>, f: T -> U): (r: seq<U>)
    ensures |r| == |s|
    ensures forall i :: 0 <= i < |s| ==> r[i] == f(s[i])
  {
    if s == [] then [] else MapSeq(s[..|s| - 1], f) + [f(s[|s| - 1])]
  }

  /** The text of a sequence of chunks read one after another. */
  function Concat(chunks: seq<string>): (r: string)
    ensures |r| == if chunks == [] then 0 else |Concat(chunks[..|chunks| - 1])| + |chunks[|chunks| - 1]|
  {
    if chunks == [] then "" else Concat(chunks[..|chunks| - 1]) + chunks[|chunks| - 1]
  }

  lemma MapLast<T, U>(s: seq<T>, f: T -> U)
    requires s != []
    ensures MapSeq(s, f) == MapSeq(s[..|s| - 1], f) + [f(s[|s| - 1])]
  {
  }

  /** One more chunk read. */
  lemma ConcatStep(chunks: seq<string>, i: int)
    requires 0 <= i < |chunks|
    ensures Concat(chunks[..i + 1]) == Concat(chunks[..i]) + chunks[i]
  {
    assert chunks[..i + 1][..i] == chunks[..i];
  }

  lemma {:induction false} FilterAppend<T>(a: seq<T>, b: seq<T>, keep: T -> bool)
    ensures Filter(a + b, keep) == Filter(a, keep) + Filter(b, keep)
    decreases |b|
  {
    if b == [] {
      assert a + b == a;
    } else {
      assert (a + b)[..|a + b| - 1] == a + b[..|b| - 1];
      FilterAppend(a, b[..|b| - 1], keep);
    }
  }

  /** Splitting a sequence by a predicate and its negation loses and duplicates nothing. */
  lemma {:induction false} FilterComplement<T>(s: seq<T>, keep: T -> bool, drop: T -> bool)
    requires forall x :: drop(x) <==> !keep(x)
    ensures multiset(Filter(s, keep)) + multiset(Filter(s, drop)) == multiset(s)
  {
    if s != [] {
      var init := s[..|s| - 1];
      var x := s[|s| - 1];
      FilterComplement(init, keep, drop);
      FilterLast(s, keep);
      FilterLast(s, drop);
      InitLast(s);
      if keep(x) {
        assert !drop(x);
        AddOne(Filter(init, keep), Filter(init, drop), init, x);
      } else {
        assert drop(x);
        AddOne(Filter(init, drop), Filter(init, keep), init, x);
      }
    }
  }

  lemma InitLast<T>(s: seq<T>)
    requires s != []
    ensures s == s[..|s| - 1] + [s[|s| - 1]]
  {
  }

  lemma AddOne<T>(a: seq<T>, b: seq<T>, s: seq<T>, x: T)
    requires multiset(a) + multiset(b) == multiset(s)
    ensures multiset(a + [x]) + multiset(b) == multiset(s + [x])
    ensures multiset(b) + multiset(a + [x]) == multiset(s + [x])
  {
  }

  lemma FilterLast<T>(s: seq<T>, keep: T -> bool)
    requires s != []
    ensures Filter(s, keep) == Filter(s[..|s| - 1], keep) + (if keep(s[|s| - 1]) then [s[|s| - 1]] else [])
  {
  }

  lemma {:induction false} MapAppend<T, U>(a: seq<T>, b: seq<T>, f: T -> U)
    ensures MapSeq(a + b, f) == MapSeq(a, f) + MapSeq(b, f)
  {
    assert forall i :: 0 <= i < |a + b| ==> MapSeq(a + b, f)[i] == (MapSeq(a, f) + MapSeq(b, f))[i];
  }

  lemma {:induction false} RemoveAt<T>(t: seq<T>, i: int)
    requires 0 <= i < |t|
    ensures multiset(t) == multiset(t[..i] + t[i + 1..]) + multiset{t[i]}
  {
    assert t == t[..i] + [t[i]] + t[i + 1..];
  }

  lemma {:induction false} MapRemoveAt<T, U>(t: seq<T>, i: int, f: T -> U)
    requires 0 <= i < |t|
    ensures MapSeq(t, f) == MapSeq(t[..i], f) + [f(t[i])] + MapSeq(t[i + 1..], f)
    ensures MapSeq(t[..i] + t[i + 1..], f) == MapSeq(t[..i], f) + MapSeq(t[i + 1..], f)
  {
    MapAppend(t[..i], t[i + 1..], f);
    var r := MapSeq(t[..i], f) + [f(t[i])] + MapSeq(t[i + 1..], f);
    assert forall k :: 0 <= k < |t| ==> MapSeq(t, f)[k] == r[k];
  }

  lemma {:induction false} Occurs<T>(t: seq<T>, x: T) returns (i: int)
    requires x in multiset(t)
    ensures 0 <= i < |t| && t[i] == x
  {
    assert x in t;
    i :| 0 <= i < |t| && t[i] == x;
  }

  /** Mapping two sequences with the same elements gives sequences with the same elements. */
  lemma {:induction false} MapPermutation<T, U>(s: seq<T>, t: seq<T>, f: T -> U)
    requires multiset(s) == multiset(t)
    ensures multiset(MapSeq(s, f)) == multiset(MapSeq(t, f))
    decreases |s|
  {
    if s != [] {
      var x := s[|s| - 1];
      var init := s[..|s| - 1];
      InitLast(s);
      var i := Occurs(t, x);
      var rest := t[..i] + t[i + 1..];
      RemoveAt(t, i);
      TakeOut(init, rest, s, t, x);
      MapPermutation(init, rest, f);
      MapLast(s, f);
      MapRemoveAt(t, i, f);
      PutBack(MapSeq(t[..i], f), f(x), MapSeq(t[i + 1..], f), MapSeq(init, f));
    }
  }

  lemma TakeOut<T>(init: seq<T>, rest: seq<T>, s: seq<T>, t: seq<T>, x: T)
    requires s == init + [x]
    requires multiset(t) == multiset(rest) + multiset{x}
    requires multiset(s) == multiset(t)
    ensures multiset(init) == multiset(rest)
  {
    assert multiset(s) == multiset(init) + multiset{x};
    assert multiset(init) == multiset(s) - multiset{x};
    assert multiset(rest) == multiset(t) - multiset{x};
  }

  lemma PutBack<U>(a: seq<U>, y: U, b: seq<U>, m: seq<U>)
    requires multiset(m) == multiset(a + b)
    ensures multiset(m + [y]) == multiset(a + [y] + b)
  {
  }
}
