/** Ranking by score: the stable descending sort that Python's
    `sorted(..., key=score, reverse=True)` performs, and what a top-n cut of
    its result guarantees. */
module Ranking {
  import opened Common

  /** An index paired with its score: an item index with its aggregated
      score, or a user index with its similarity. */
  datatype Ranked = Ranked(key: nat, score: real)

  predicate NonIncreasing(s: seq<Ranked>) {
    forall i, j :: 0 <= i < j < |s| ==> s[i].score >= s[j].score
  }

  predicate DistinctKeys(s: seq<Ranked>) {
    forall i, j :: 0 <= i < j < |s| ==> s[i].key != s[j].key
  }

  function Keys(s: seq<Ranked>): seq<nat> {
    seq(|s|, j requires 0 <= j < |s| => s[j].key)
  }

  /** Where `x` goes in a descending sequence: after every element scoring
      strictly higher, before the first one scoring the same or lower. */
  function InsertPos(x: Ranked, t: seq<Ranked>): (k: nat)
    ensures k <= |t|
    ensures forall j :: 0 <= j < k ==> t[j].score > x.score
    ensures k < |t| ==> t[k].score <= x.score
  {
    if t == [] || t[0].score <= x.score then 0 else 1 + InsertPos(x, t[1..])
  }

  function Insert(x: Ranked, t: seq<Ranked>): seq<Ranked> {
    var k := InsertPos(x, t);
    t[..k] + [x] + t[k..]
  }

  /** Element `i` of `Insert(x, t)`, read off `t`. */
  lemma InsertAt(x: Ranked, t: seq<Ranked>, i: nat)
    requires i <= |t|
    ensures |Insert(x, t)| == |t| + 1
    ensures Insert(x, t)[i] ==
      (if i < InsertPos(x, t) then t[i] else if i == InsertPos(x, t) then x else t[i - 1])
  {
  }

  lemma InsertKeepsOrder(x: Ranked, t: seq<Ranked>)
    requires NonIncreasing(t)
    ensures NonIncreasing(Insert(x, t))
  {
    var k := InsertPos(x, t);
    var r := Insert(x, t);
    forall i, j | 0 <= i < j < |r|
      ensures r[i].score >= r[j].score
    {
      InsertAt(x, t, i);
      InsertAt(x, t, j);
      if k < |t| && j > k {
        assert t[k].score >= t[j - 1].score;
      }
    }
  }

  /** Python's `sorted(s, key=lambda e: e.score, reverse=True)`: a stable sort
      by descending score. */
  function SortDesc(s: seq<Ranked>): (r: seq<Ranked>)
    ensures |r| == |s|
    ensures NonIncreasing(r)
  {
    if s == [] then []
    else
      var t := SortDesc(s[1..]);
      InsertKeepsOrder(s[0], t);
      Insert(s[0], t)
  }

  lemma InsertPermutes(x: Ranked, t: seq<Ranked>)
    ensures multiset(Insert(x, t)) == multiset(t) + multiset{x}
  {
    var k := InsertPos(x, t);
    assert t == t[..k] + t[k..];
  }

  /** Sorting permutes its input. */
  lemma {:induction false} SortDescPermutes(s: seq<Ranked>)
    ensures multiset(SortDesc(s)) == multiset(s)
  {
    if s != [] {
      SortDescPermutes(s[1..]);
      InsertPermutes(s[0], SortDesc(s[1..]));
      assert s == [s[0]] + s[1..];
    }
  }

  /** Sorting keeps every element and adds none. */
  lemma SortDescMembers(s: seq<Ranked>, x: Ranked)
    ensures x in SortDesc(s) <==> x in s
  {
    SortDescPermutes(s);
    assert x in multiset(SortDesc(s)) <==> x in multiset(s);
  }

  /** A sequence whose keys are distinct still has distinct keys once sorted. */
  lemma {:induction false} SortDescDistinctKeys(s: seq<Ranked>)
    requires DistinctKeys(s)
    ensures DistinctKeys(SortDesc(s))
  {
    if s != [] {
      var t := SortDesc(s[1..]);
      SortDescDistinctKeys(s[1..]);
      var k := InsertPos(s[0], t);
      var r := Insert(s[0], t);
      forall j | 0 <= j < |t|
        ensures t[j].key != s[0].key
      {
        SortDescMembers(s[1..], t[j]);
        var p :| 0 <= p < |s[1..]| && s[1..][p] == t[j];
        assert s[p + 1] == t[j];
      }
      forall i, j | 0 <= i < j < |r|
        ensures r[i].key != r[j].key
      {
        if j < k {
          assert r[i] == t[i] && r[j] == t[j];
        } else if j == k {
          assert r[i] == t[i];
        } else if i < k {
          assert r[i] == t[i] && r[j] == t[j - 1];
        } else if i == k {
          assert r[j] == t[j - 1];
        } else {
          assert r[i] == t[i - 1] && r[j] == t[j - 1];
        }
      }
    }
  }

  lemma DistinctTail<T>(s: seq<T>)
    requires Distinct(s) && s != []
    ensures Distinct(s[1..]) && s[0] !in s[1..]
  {
    forall a, b | 0 <= a < b < |s[1..]|
      ensures s[1..][a] != s[1..][b]
    {
      assert s[1..][a] == s[a + 1] && s[1..][b] == s[b + 1];
    }
  }

  /** An element inserted in front of its ties precedes each of them. */
  lemma InsertBeforeTies(x: Ranked, t: seq<Ranked>, p: nat, q: nat)
    requires x !in t
    requires p < |t| + 1 && q < |t| + 1
    requires Insert(x, t)[p] == x && Insert(x, t)[q] != x
    requires Insert(x, t)[q].score == x.score
    ensures p < q
  {
    InsertAt(x, t, p);
    InsertAt(x, t, q);
  }

  /** Insertion keeps the relative order of the elements already there. */
  lemma InsertKeepsRelativeOrder(x: Ranked, t: seq<Ranked>, p: nat, q: nat)
    requires p < |t| + 1 && q < |t| + 1
    requires Insert(x, t)[p] != x && Insert(x, t)[q] != x
    ensures var k := InsertPos(x, t);
      var p', q' := (if p < k then p else p - 1), (if q < k then q else q - 1);
      p' < |t| && q' < |t| && t[p'] == Insert(x, t)[p] && t[q'] == Insert(x, t)[q]
      && (p' < q' ==> p < q)
  {
    InsertAt(x, t, p);
    InsertAt(x, t, q);
  }

  /** Stability: two distinct entries with equal scores come out in the order
      they went in (Python's sort keeps ties in input order even with
      `reverse=True`). */
  lemma {:induction false} SortDescStable(s: seq<Ranked>, i: nat, j: nat, p: nat, q: nat)
    requires Distinct(s)
    requires i < j < |s| && s[i].score == s[j].score
    requires p < |SortDesc(s)| && q < |SortDesc(s)|
    requires SortDesc(s)[p] == s[i] && SortDesc(s)[q] == s[j]
    ensures p < q
  {
    var x, rest := s[0], s[1..];
    var t := SortDesc(rest);
    assert SortDesc(s) == Insert(x, t);
    DistinctTail(s);
    if i == 0 {
      SortDescMembers(rest, x);
      InsertBeforeTies(x, t, p, q);
    } else {
      assert s[i] == rest[i - 1] && s[j] == rest[j - 1];
      assert s[i] != x && s[j] != x;
      InsertKeepsRelativeOrder(x, t, p, q);
      var k := InsertPos(x, t);
      SortDescStable(rest, i - 1, j - 1, if p < k then p else p - 1, if q < k then q else q - 1);
    }
  }

  /** What a top-n cut of a descending sort keeps beats what it drops: every
      element left out scores no higher than any element kept. */
  lemma TopCut(s: seq<Ranked>, n: int, kept: Ranked, dropped: Ranked)
    requires kept in Head(SortDesc(s), n)
    requires dropped in s && dropped !in Head(SortDesc(s), n)
    ensures dropped.score <= kept.score
  {
    var r := SortDesc(s);
    var h := Head(r, n);
    SortDescMembers(s, dropped);
    var p :| 0 <= p < |h| && h[p] == kept;
    var q :| 0 <= q < |r| && r[q] == dropped;
    assert r[p] == kept;
  }
}
