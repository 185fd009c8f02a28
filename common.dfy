/** Sequence and option utilities shared by the training and serving models. */
module Common {

  datatype Option<+T> = None | Some(value: T) {
    /** The value, or `default` when absent (Python's `dict.get(key, default)`). */
    function GetOr(default: T): T {
      match this
      case Some(v) => v
      case None => default
    }
  }

  function Min(a: int, b: int): int { if a <= b then a else b }

  function Max(a: int, b: int): int { if a >= b then a else b }

  /** Python's `s[:n]`, which is also pandas' `head(n)`: the first `n` elements,
      or every element but the last `-n` when `n` is negative. */
  function Head<T>(s: seq<T>, n: int): (r: seq<T>)
    ensures r <= s
    ensures n >= 0 ==> |r| == Min(n, |s|)
    ensures n < 0 ==> |r| == Max(0, |s| + n)
  {
    if n >= 0 then s[..Min(n, |s|)] else s[..Max(0, |s| + n)]
  }

  predicate Distinct<T(==)>(s: seq<T>) {
    forall i, j :: 0 <= i < j < |s| ==> s[i] != s[j]
  }

  /** The distinct elements of `s` in order of first appearance: pandas'
      `Series.unique()`, and the key order of a dict filled from `s`. */
  function Unique<T(==,!new)>(s: seq<T>): (r: seq<T>)
    ensures Distinct(r)
    ensures forall x :: x in r <==> x in s
    ensures |r| <= |s|
  {
    if s == [] then []
    else
      var x := s[|s| - 1];
      var d := Unique(s[..|s| - 1]);
      assert s == s[..|s| - 1] + [x];
      if x in d then d else d + [x]
  }

  lemma SeqAssoc<T>(a: seq<T>, b: seq<T>, c: seq<T>)
    ensures a + (b + c) == (a + b) + c
  {
  }

  /** Appending an element keeps the distinct elements seen so far and adds
      the new one at the end unless it was already there. */
  lemma UniqueSnoc<T(!new)>(s: seq<T>, x: T)
    ensures Unique(s + [x]) == if x in Unique(s) then Unique(s) else Unique(s) + [x]
  {
    assert (s + [x])[..|s|] == s;
  }

  /** The position of the first occurrence of `x` in `s`. */
  function FirstIndex<T(==)>(s: seq<T>, x: T): (k: nat)
    requires x in s
    ensures k < |s| && s[k] == x && x !in s[..k]
  {
    if s[0] == x then 0
    else
      var k := FirstIndex(s[1..], x);
      assert s[..k + 1] == [s[0]] + s[1..][..k];
      k + 1
  }

  lemma FirstIndexIsFirst<T>(s: seq<T>, x: T, k: nat)
    requires k < |s| && s[k] == x && x !in s[..k]
    ensures FirstIndex(s, x) == k
  {
  }

  /** Positions of first occurrence do not change when elements are appended. */
  lemma FirstIndexPrefix<T>(s: seq<T>, p: nat, x: T)
    requires p <= |s| && x in s[..p]
    ensures FirstIndex(s, x) == FirstIndex(s[..p], x)
  {
    var k := FirstIndex(s[..p], x);
    assert s[..k] == s[..p][..k];
    FirstIndexIsFirst(s, x, k);
  }

  /** `Unique` lists elements in the order in which they are first seen. */
  lemma {:induction false} UniqueFirstSeen<T(!new)>(s: seq<T>, i: nat, j: nat)
    requires i < j < |Unique(s)|
    ensures Unique(s)[i] in s && Unique(s)[j] in s
    ensures FirstIndex(s, Unique(s)[i]) < FirstIndex(s, Unique(s)[j])
  {
    var init := s[..|s| - 1];
    var x := s[|s| - 1];
    var d := Unique(init);
    assert s == init + [x];
    assert init == s[..|s| - 1];
    if x in d {
      UniqueFirstSeen(init, i, j);
      FirstIndexPrefix(s, |s| - 1, d[i]);
      FirstIndexPrefix(s, |s| - 1, d[j]);
    } else if j < |d| {
      UniqueFirstSeen(init, i, j);
      FirstIndexPrefix(s, |s| - 1, d[i]);
      FirstIndexPrefix(s, |s| - 1, d[j]);
    } else {
      assert Unique(s)[j] == x && x !in init;
      FirstIndexIsFirst(s, x, |s| - 1);
      FirstIndexPrefix(s, |s| - 1, d[i]);
    }
  }

  /** A sequence without repetitions has as many elements as its set. */
  lemma {:induction false} DistinctCardinality<T>(s: seq<T>)
    requires Distinct(s)
    ensures |set x | x in s| == |s|
  {
    if s != [] {
      var init := s[..|s| - 1];
      var x := s[|s| - 1];
      assert s == init + [x];
      DistinctCardinality(init);
      assert (set y | y in s) == (set y | y in init) + {x};
      assert x !in (set y | y in init);
    }
  }
}
