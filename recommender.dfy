/** Neighbour-based recommendation and popularity ranking over a user-item
    matrix. The trainer and the serving API run the same computation; it is
    defined once here and used by both. Similarities are inputs: the cosine
    similarity over latent features is not part of this model. */
module Recommender {
  import opened Common
  import opened Ranking
  import opened Interactions

  /** One entry of a response: `{'product_id': ..., 'score': ...}`. */
  datatype Scored = Scored(productId: int, score: real)

  /** The number of neighbours kept after the first position is dropped. */
  const NEIGHBOURS: nat := 10

  function Enumerate(sims: seq<real>): seq<Ranked> {
    seq(|sims|, k requires 0 <= k < |sims| => Ranked(k, sims[k]))
  }

  lemma ArgsortFacts(sims: seq<real>)
    ensures DistinctKeys(SortDesc(Enumerate(sims)))
    ensures forall j :: 0 <= j < |sims| ==>
      var e := SortDesc(Enumerate(sims))[j]; e.key < |sims| && e.score == sims[e.key]
    ensures forall k :: 0 <= k < |sims| ==> k in Keys(SortDesc(Enumerate(sims)))
  {
    var e := Enumerate(sims);
    var r := SortDesc(e);
    SortDescDistinctKeys(e);
    forall j | 0 <= j < |r|
      ensures r[j].key < |sims| && r[j].score == sims[r[j].key]
    {
      SortDescMembers(e, r[j]);
    }
    forall k | 0 <= k < |sims|
      ensures k in Keys(r)
    {
      SortDescMembers(e, e[k]);
      var j :| 0 <= j < |r| && r[j] == e[k];
      assert Keys(r)[j] == k;
    }
  }

  /** `np.argsort(similarities)[::-1]`: every user index, ordered by
      descending similarity. The library leaves the order of ties open; here
      ties come in ascending index order. */
  function ArgsortDesc(sims: seq<real>): (order: seq<nat>)
    ensures |order| == |sims| && Distinct(order)
    ensures forall j :: 0 <= j < |order| ==> order[j] < |sims|
    ensures forall k :: 0 <= k < |sims| ==> k in order
    ensures forall a, b :: 0 <= a < b < |order| ==> sims[order[a]] >= sims[order[b]]
  {
    ArgsortFacts(sims);
    Keys(SortDesc(Enumerate(sims)))
  }

  /** Dropping the first position of a descending order and keeping up to
      position `hi`: the kept indices are distinct, in range, in descending
      order, never the dropped one, and at least as similar as any index
      past `hi`. */
  lemma DropFirstFacts(sims: seq<real>, order: seq<nat>, hi: nat)
    requires |order| == |sims| && Distinct(order) && 1 <= hi <= |order|
    requires forall j :: 0 <= j < |order| ==> order[j] < |sims|
    requires forall k :: 0 <= k < |sims| ==> k in order
    requires forall a, b :: 0 <= a < b < |order| ==> sims[order[a]] >= sims[order[b]]
    ensures Distinct(order[1..hi])
    ensures forall a :: 0 <= a < hi - 1 ==> order[1..hi][a] < |sims|
    ensures order[0] !in order[1..hi]
    ensures forall a, b :: 0 <= a < b < hi - 1 ==> sims[order[1..hi][a]] >= sims[order[1..hi][b]]
    ensures forall a, j :: 0 <= a < hi - 1 && 0 <= j < |sims| && j !in order[..hi] ==>
      sims[order[1..hi][a]] >= sims[j]
  {
    var nbrs := order[1..hi];
    assert forall a :: 0 <= a < |nbrs| ==> nbrs[a] == order[a + 1];
    assert forall a :: 0 <= a < |nbrs| ==> nbrs[a] != order[0];
    forall a, j | 0 <= a < |nbrs| && 0 <= j < |sims| && j !in order[..hi]
      ensures sims[nbrs[a]] >= sims[j]
    {
      assert j in order;
      var p :| 0 <= p < |order| && order[p] == j;
      assert p >= hi by {
        assert forall t :: 0 <= t < hi ==> order[..hi][t] == order[t];
      }
    }
  }

  /** `np.argsort(similarities)[::-1][1:11]`: the first position is dropped,
      whoever holds it, and the next ten are kept. */
  function Neighbours(sims: seq<real>): (nbrs: seq<nat>)
    ensures |nbrs| == Max(0, Min(NEIGHBOURS + 1, |sims|) - 1)
    ensures Distinct(nbrs)
    ensures forall a :: 0 <= a < |nbrs| ==> nbrs[a] < |sims|
    ensures |sims| > 0 ==> ArgsortDesc(sims)[0] !in nbrs
    ensures forall a, b :: 0 <= a < b < |nbrs| ==> sims[nbrs[a]] >= sims[nbrs[b]]
    ensures forall a, j :: 0 <= a < |nbrs| && 0 <= j < |sims| && j !in ArgsortDesc(sims)[..Min(NEIGHBOURS + 1, |sims|)] ==>
      sims[nbrs[a]] >= sims[j]
  {
    var order := ArgsortDesc(sims);
    if |order| == 0 then []
    else
      DropFirstFacts(sims, order, Min(NEIGHBOURS + 1, |order|));
      order[1..Min(NEIGHBOURS + 1, |order|)]
  }

  /** When a user is strictly more similar to itself than to anyone else, it
      holds the dropped first position and is not its own neighbour. */
  lemma SelfNotNeighbourWhenStrictMax(sims: seq<real>, u: nat)
    requires u < |sims|
    requires forall j :: 0 <= j < |sims| && j != u ==> sims[j] < sims[u]
    ensures u !in Neighbours(sims)
  {
    var order := ArgsortDesc(sims);
    assert u in order;
    var p :| 0 <= p < |order| && order[p] == u;
    assert p == 0 by {
      assert order[0] < |sims| && sims[order[0]] >= sims[order[p]];
    }
    var nbrs := Neighbours(sims);
    assert forall a :: 0 <= a < |nbrs| ==> nbrs[a] == order[a + 1];
  }

  /** Nothing checks that the dropped first position is the user: when
      another user ties with it, the user itself becomes a neighbour. */
  lemma SelfNeighbourOnTie()
    ensures Neighbours([1.0, 1.0]) == [1]
  {
    var e := Enumerate([1.0, 1.0]);
    assert e == [Ranked(0, 1.0), Ranked(1, 1.0)];
    assert e[1..] == [Ranked(1, 1.0)];
    assert e[1..][1..] == [];
    assert SortDesc(e[1..]) == Insert(Ranked(1, 1.0), []) == [Ranked(1, 1.0)];
    assert InsertPos(Ranked(0, 1.0), [Ranked(1, 1.0)]) == 0;
    assert SortDesc(e) == [Ranked(0, 1.0), Ranked(1, 1.0)];
    assert ArgsortDesc([1.0, 1.0]) == [0, 1];
  }

  predicate InRows(m: Matrix, ks: seq<nat>) {
    forall a :: 0 <= a < |ks| ==> ks[a] < |m.cells|
  }

  predicate Scorable(m: Matrix, sims: seq<real>, nbrs: seq<nat>) {
    InRows(m, nbrs) && forall a :: 0 <= a < |nbrs| ==> nbrs[a] < |sims|
  }

  /** Column indices holding a positive entry, in column order
      (`row[row > 0].index`). */
  function Purchased(row: seq<real>): seq<nat> {
    if row == [] then []
    else Purchased(row[..|row| - 1]) + (if row[|row| - 1] > 0.0 then [|row| - 1] else [])
  }

  lemma {:induction false} PurchasedMembers(row: seq<real>, i: int)
    ensures i in Purchased(row) <==> 0 <= i < |row| && row[i] > 0.0
  {
    if row != [] {
      var init := row[..|row| - 1];
      PurchasedMembers(init, i);
      if 0 <= i < |init| {
        assert init[i] == row[i];
      }
    }
  }

  /** Items bought by the neighbours, neighbour by neighbour and each
      neighbour's items in column order: the order in which the scoring loop
      meets them. */
  function Hits(m: Matrix, nbrs: seq<nat>): seq<nat>
    requires InRows(m, nbrs)
  {
    if nbrs == [] then []
    else Hits(m, nbrs[..|nbrs| - 1]) + Purchased(m.cells[nbrs[|nbrs| - 1]])
  }

  /** Some neighbour bought item `i` (has a positive score for it). */
  predicate BoughtByNeighbour(m: Matrix, nbrs: seq<nat>, i: int)
    requires InRows(m, nbrs)
  {
    0 <= i < m.cols && exists a :: 0 <= a < |nbrs| && m.cells[nbrs[a]][i] > 0.0
  }

  lemma {:induction false} HitsMembers(m: Matrix, nbrs: seq<nat>, i: int)
    requires InRows(m, nbrs)
    ensures i in Hits(m, nbrs) <==> BoughtByNeighbour(m, nbrs, i)
  {
    if nbrs != [] {
      var init := nbrs[..|nbrs| - 1];
      var k := nbrs[|nbrs| - 1];
      HitsMembers(m, init, i);
      PurchasedMembers(m.cells[k], i);
      if BoughtByNeighbour(m, nbrs, i) {
        var a :| 0 <= a < |nbrs| && m.cells[nbrs[a]][i] > 0.0;
        if a < |init| {
          assert init[a] == nbrs[a];
        }
      }
      if BoughtByNeighbour(m, init, i) {
        var a :| 0 <= a < |init| && m.cells[init[a]][i] > 0.0;
        assert nbrs[a] == init[a];
      }
    }
  }

  /** What one neighbour, similar by `w`, adds to item `x`'s score:
      `matrix[k][x] * similarity`, counted only for a positive entry. */
  function RowShare(row: seq<real>, w: real, x: int): real {
    if 0 <= x < |row| && row[x] > 0.0 then Contribution(row[x], w) else 0.0
  }

  function Contribution(entry: real, w: real): real {
    entry * w
  }

  /** Σ of `matrix[k][i] * sims[k]` over the neighbours `k` with a positive
      entry for item `i`. */
  function NeighbourScore(m: Matrix, sims: seq<real>, nbrs: seq<nat>, i: int): real
    requires Scorable(m, sims, nbrs)
  {
    if nbrs == [] then 0.0
    else
      var k := nbrs[|nbrs| - 1];
      NeighbourScore(m, sims, nbrs[..|nbrs| - 1], i)
        + RowShare(m.cells[k], sims[k], i)
  }

  lemma {:induction false} NeighbourScoreOffHits(m: Matrix, sims: seq<real>, nbrs: seq<nat>, i: int)
    requires Scorable(m, sims, nbrs) && i !in Hits(m, nbrs)
    ensures NeighbourScore(m, sims, nbrs, i) == 0.0
  {
    if nbrs != [] {
      NeighbourScoreOffHits(m, sims, nbrs[..|nbrs| - 1], i);
      PurchasedMembers(m.cells[nbrs[|nbrs| - 1]], i);
    }
  }

  /** `dict.pop(i, None)` on the key order: removes `i` if present. */
  function Pop(keys: seq<nat>, i: nat): seq<nat> {
    if keys == [] then []
    else
      var last := keys[|keys| - 1];
      Pop(keys[..|keys| - 1], i) + (if last == i then [] else [last])
  }

  lemma {:induction false} PopMembers(keys: seq<nat>, i: nat)
    ensures forall x :: x in Pop(keys, i) <==> x in keys && x != i
  {
    if keys != [] {
      var init := keys[..|keys| - 1];
      PopMembers(init, i);
      assert keys == init + [keys[|keys| - 1]];
    }
  }

  lemma {:induction false} PopDistinct(keys: seq<nat>, i: nat)
    requires Distinct(keys)
    ensures Distinct(Pop(keys, i))
  {
    if keys != [] {
      var init := keys[..|keys| - 1];
      assert Distinct(init);
      PopDistinct(init, i);
      PopMembers(init, i);
      assert keys[|keys| - 1] !in init;
    }
  }

  /** `keys` after popping, in column order, every item that has a positive
      entry in `row`. */
  function Unbought(keys: seq<nat>, row: seq<real>): seq<nat> {
    if row == [] then keys
    else
      var k := |row| - 1;
      var rest := Unbought(keys, row[..k]);
      if row[k] > 0.0 then Pop(rest, k) else rest
  }

  /** What survives the pops: the keys the user has no positive entry for. */
  lemma {:induction false} UnboughtMembers(keys: seq<nat>, row: seq<real>)
    ensures forall x :: x in Unbought(keys, row) <==> x in keys && !(x < |row| && row[x] > 0.0)
  {
    if row != [] {
      var k := |row| - 1;
      UnboughtMembers(keys, row[..k]);
      PopMembers(Unbought(keys, row[..k]), k);
      assert forall x :: 0 <= x < k ==> row[..k][x] == row[x];
    }
  }

  lemma {:induction false} UnboughtDistinct(keys: seq<nat>, row: seq<real>)
    requires Distinct(keys)
    ensures Distinct(Unbought(keys, row))
  {
    if row != [] {
      UnboughtDistinct(keys, row[..|row| - 1]);
      PopDistinct(Unbought(keys, row[..|row| - 1]), |row| - 1);
    }
  }

  /** The surviving items (the dict after the pops), with their scores, in the
      dict's insertion order. */
  function Candidates(m: Matrix, sims: seq<real>, nbrs: seq<nat>, u: nat): seq<Ranked>
    requires Scorable(m, sims, nbrs) && u < |m.cells|
  {
    var keys := Unbought(Unique(Hits(m, nbrs)), m.cells[u]);
    seq(|keys|, j requires 0 <= j < |keys| => Ranked(keys[j], NeighbourScore(m, sims, nbrs, keys[j])))
  }

  /** An item is worth recommending to user `u`: a neighbour bought it and
      `u` did not. */
  predicate Eligible(m: Matrix, nbrs: seq<nat>, u: nat, i: int)
    requires InRows(m, nbrs) && u < |m.cells|
  {
    BoughtByNeighbour(m, nbrs, i) && !(m.cells[u][i] > 0.0)
  }

  /** The candidates are exactly the eligible items, each once, each scored by
      its neighbour sum. */
  lemma CandidatesSpec(m: Matrix, sims: seq<real>, nbrs: seq<nat>, u: nat)
    requires Scorable(m, sims, nbrs) && u < |m.cells|
    ensures DistinctKeys(Candidates(m, sims, nbrs, u))
    ensures forall i :: i in Keys(Candidates(m, sims, nbrs, u)) <==> Eligible(m, nbrs, u, i)
    ensures forall j :: 0 <= j < |Candidates(m, sims, nbrs, u)| ==>
      var c := Candidates(m, sims, nbrs, u)[j];
      Eligible(m, nbrs, u, c.key) && c.score == NeighbourScore(m, sims, nbrs, c.key)
  {
    var keys := Unbought(Unique(Hits(m, nbrs)), m.cells[u]);
    var c := Candidates(m, sims, nbrs, u);
    UnboughtDistinct(Unique(Hits(m, nbrs)), m.cells[u]);
    UnboughtMembers(Unique(Hits(m, nbrs)), m.cells[u]);
    assert Keys(c) == keys;
    forall i
      ensures i in keys <==> Eligible(m, nbrs, u, i)
    {
      HitsMembers(m, nbrs, i);
    }
    forall j | 0 <= j < |c|
      ensures Eligible(m, nbrs, u, c[j].key)
    {
      assert c[j].key == keys[j];
    }
  }

  lemma NeighbourScoreStep(m: Matrix, sims: seq<real>, nbrs: seq<nat>, a: nat, x: int)
    requires Scorable(m, sims, nbrs) && a < |nbrs|
    ensures NeighbourScore(m, sims, nbrs[..a + 1], x) ==
      NeighbourScore(m, sims, nbrs[..a], x) + RowShare(m.cells[nbrs[a]], sims[nbrs[a]], x)
  {
    assert nbrs[..a + 1][..a] == nbrs[..a];
  }

  lemma HitsStep(m: Matrix, nbrs: seq<nat>, a: nat)
    requires InRows(m, nbrs) && a < |nbrs|
    ensures Hits(m, nbrs[..a + 1]) == Hits(m, nbrs[..a]) + Purchased(m.cells[nbrs[a]])
  {
    assert nbrs[..a + 1][..a] == nbrs[..a];
  }

  /** The dict's key order after one neighbour's row: each column with a
      positive entry is appended the first time it is met. */
  function WithPurchases(keys: seq<nat>, row: seq<real>): seq<nat> {
    if row == [] then keys
    else
      var k := |row| - 1;
      var rest := WithPurchases(keys, row[..k]);
      if row[k] > 0.0 && k !in rest then rest + [k] else rest
  }

  /** Appending first-seen columns to the distinct elements of `seen` gives
      the distinct elements of `seen` followed by the row's purchases. */
  lemma {:induction false} WithPurchasesUnique(seen: seq<nat>, row: seq<real>)
    ensures WithPurchases(Unique(seen), row) == Unique(seen + Purchased(row))
  {
    if row == [] {
      assert seen + Purchased(row) == seen;
    } else {
      var k := |row| - 1;
      var s := seen + Purchased(row[..k]);
      WithPurchasesUnique(seen, row[..k]);
      if row[k] > 0.0 {
        assert Purchased(row) == Purchased(row[..k]) + [k];
        assert seen + Purchased(row) == s + [k] by {
          SeqAssoc(seen, Purchased(row[..k]), [k]);
        }
        UniqueSnoc(s, k);
      } else {
        assert Purchased(row) == Purchased(row[..k]);
      }
    }
  }

  /** The inner loop over one neighbour's row: every positive entry adds
      `entry * w` to its item in the dict, a new item going in last. */
  method AddRow(keys: seq<nat>, totals: map<nat, real>, row: seq<real>, w: real)
    returns (keys': seq<nat>, totals': map<nat, real>)
    requires forall x :: x in totals <==> x in keys
    ensures keys' == WithPurchases(keys, row)
    ensures forall x :: x in totals' <==> x in keys'
    ensures forall x :: x in totals' ==>
      totals'[x] == (if x in totals then totals[x] else 0.0) + RowShare(row, w, x)
  {
    keys', totals' := keys, totals;
    assert row[..0] == [];
    var i := 0;
    while i < |row|
      invariant 0 <= i <= |row|
      invariant keys' == WithPurchases(keys, row[..i])
      invariant forall x :: x in totals' <==> x in keys'
      invariant forall x :: x in totals ==> x in totals'
      invariant forall x :: x in totals' ==>
        totals'[x] == (if x in totals then totals[x] else 0.0) + (if x < i && row[x] > 0.0 then Contribution(row[x], w) else 0.0)
    {
      ghost var prev := totals';
      if row[i] > 0.0 {
        if i !in totals' {
          keys' := keys' + [i];
          totals' := totals'[i := 0.0];
        }
        totals' := totals'[i := totals'[i] + Contribution(row[i], w)];
      }
      forall x | x in totals'
        ensures totals'[x] == (if x in totals then totals[x] else 0.0)
          + (if x < i + 1 && row[x] > 0.0 then Contribution(row[x], w) else 0.0)
      {
        if x != i {
          assert x in prev && totals'[x] == prev[x];
        }
      }
      assert row[..i + 1][..i] == row[..i];
      i := i + 1;
    }
    assert row[..i] == row;
  }

  /** The pop loop: `recommendations.pop(i, None)` for every item the user
      bought. */
  method DropPurchased(keys: seq<nat>, totals: map<nat, real>, own: seq<real>)
    returns (keys': seq<nat>, totals': map<nat, real>)
    requires forall x :: x in totals <==> x in keys
    ensures keys' == Unbought(keys, own)
    ensures forall x :: x in totals' <==> x in keys'
    ensures forall x :: x in totals' ==> x in totals && totals'[x] == totals[x]
  {
    keys', totals' := keys, totals;
    assert own[..0] == [];
    var i := 0;
    while i < |own|
      invariant 0 <= i <= |own|
      invariant keys' == Unbought(keys, own[..i])
      invariant forall x :: x in totals' <==> x in keys'
      invariant forall x :: x in totals' ==> x in totals && totals'[x] == totals[x]
    {
      if own[i] > 0.0 {
        PopMembers(keys', i);
        keys' := Pop(keys', i);
        totals' := totals' - {i};
      }
      assert own[..i + 1][..i] == own[..i];
      i := i + 1;
    }
    assert own[..i] == own;
  }

  /** The dict after the neighbours `ns` were scored: its keys are the items
      they bought in first-seen order, its values their neighbour sums. */
  ghost predicate Tallied(m: Matrix, sims: seq<real>, ns: seq<nat>, keys: seq<nat>, totals: map<nat, real>)
    requires Scorable(m, sims, ns)
  {
    && keys == Unique(Hits(m, ns))
    && (forall x :: x in totals <==> x in keys)
    && (forall x :: x in totals ==> totals[x] == NeighbourScore(m, sims, ns, x))
  }

  /** Adding neighbour `nbrs[a]`'s row to the dict of `nbrs[..a]` gives the
      dict of `nbrs[..a + 1]`. */
  lemma TalliedStep(m: Matrix, sims: seq<real>, nbrs: seq<nat>, a: nat,
                    keys: seq<nat>, totals: map<nat, real>, keys': seq<nat>, totals': map<nat, real>)
    requires Scorable(m, sims, nbrs) && a < |nbrs|
    requires Scorable(m, sims, nbrs[..a]) && Tallied(m, sims, nbrs[..a], keys, totals)
    requires keys' == WithPurchases(keys, m.cells[nbrs[a]])
    requires forall x :: x in totals' <==> x in keys'
    requires forall x :: x in totals' ==>
      totals'[x] == (if x in totals then totals[x] else 0.0) + RowShare(m.cells[nbrs[a]], sims[nbrs[a]], x)
    ensures Scorable(m, sims, nbrs[..a + 1]) && Tallied(m, sims, nbrs[..a + 1], keys', totals')
  {
    assert keys' == Unique(Hits(m, nbrs[..a + 1])) by {
      WithPurchasesUnique(Hits(m, nbrs[..a]), m.cells[nbrs[a]]);
      HitsStep(m, nbrs, a);
    }
    forall x | x in totals'
      ensures totals'[x] == NeighbourScore(m, sims, nbrs[..a + 1], x)
    {
      NeighbourScoreStep(m, sims, nbrs, a, x);
      if x !in totals {
        NeighbourScoreOffHits(m, sims, nbrs[..a], x);
      }
    }
  }

  /** The scoring loops of the source: accumulate `score * similarity` per
      item over the neighbours' purchases into an insertion-ordered dict, then
      pop every item the user bought. */
  method CollectCandidates(m: Matrix, sims: seq<real>, nbrs: seq<nat>, u: nat) returns (recs: seq<Ranked>)
    requires Scorable(m, sims, nbrs) && u < |m.cells|
    ensures recs == Candidates(m, sims, nbrs, u)
  {
    // the dict `recommendations`: its keys in insertion order, and its values
    var keys: seq<nat> := [];
    var totals: map<nat, real> := map[];
    var a := 0;
    while a < |nbrs|
      invariant 0 <= a <= |nbrs|
      invariant Scorable(m, sims, nbrs[..a]) && Tallied(m, sims, nbrs[..a], keys, totals)
    {
      var k := nbrs[a];
      var keys', totals' := AddRow(keys, totals, m.cells[k], sims[k]);
      TalliedStep(m, sims, nbrs, a, keys, totals, keys', totals');
      keys, totals := keys', totals';
      a := a + 1;
    }
    assert nbrs[..|nbrs|] == nbrs;
    keys, totals := DropPurchased(keys, totals, m.cells[u]);
    recs := seq(|keys|, j requires 0 <= j < |keys| => Ranked(keys[j], totals[keys[j]]));
  }

  /** `sorted(recommendations.items(), key=score, reverse=True)[:n]`. */
  function RankedFor(m: Matrix, sims: seq<real>, u: nat, n: int): seq<Ranked>
    requires u < |m.cells| && InRows(m, Neighbours(sims))
  {
    Head(SortDesc(Candidates(m, sims, Neighbours(sims), u)), n)
  }

  /** What a known user is recommended: at most n items, never one the user
      bought, each bought by a neighbour and scored by its neighbour sum,
      without repetition and in non-increasing score order; fewer than n only
      when fewer items are eligible. */
  lemma RankedForSpec(m: Matrix, sims: seq<real>, u: nat, n: int)
    requires u < |m.cells| && InRows(m, Neighbours(sims))
    ensures n >= 0 ==> |RankedFor(m, sims, u, n)| == Min(n, |Candidates(m, sims, Neighbours(sims), u)|)
    ensures NonIncreasing(RankedFor(m, sims, u, n))
    ensures DistinctKeys(RankedFor(m, sims, u, n))
    ensures forall j :: 0 <= j < |RankedFor(m, sims, u, n)| ==>
      var e := RankedFor(m, sims, u, n)[j];
      Eligible(m, Neighbours(sims), u, e.key) && e.score == NeighbourScore(m, sims, Neighbours(sims), e.key)
  {
    var c := Candidates(m, sims, Neighbours(sims), u);
    var r := RankedFor(m, sims, u, n);
    CandidatesSpec(m, sims, Neighbours(sims), u);
    SortDescDistinctKeys(c);
    forall j | 0 <= j < |r|
      ensures Eligible(m, Neighbours(sims), u, r[j].key)
      ensures r[j].score == NeighbourScore(m, sims, Neighbours(sims), r[j].key)
    {
      SortDescMembers(c, r[j]);
      var p :| 0 <= p < |c| && c[p] == r[j];
    }
  }

  /** An eligible item left out of the first n scores no higher than any item
      kept. */
  lemma RankedForKeepsBest(m: Matrix, sims: seq<real>, u: nat, n: int, i: nat, j: nat)
    requires u < |m.cells| && InRows(m, Neighbours(sims))
    requires Eligible(m, Neighbours(sims), u, i) && i !in Keys(RankedFor(m, sims, u, n))
    requires j < |RankedFor(m, sims, u, n)|
    ensures NeighbourScore(m, sims, Neighbours(sims), i) <= RankedFor(m, sims, u, n)[j].score
  {
    var nbrs := Neighbours(sims);
    var c := Candidates(m, sims, nbrs, u);
    var r := RankedFor(m, sims, u, n);
    CandidatesSpec(m, sims, nbrs, u);
    var p :| 0 <= p < |c| && Keys(c)[p] == i;
    assert c[p] !in r by {
      assert forall q :: 0 <= q < |r| ==> Keys(r)[q] == r[q].key;
    }
    TopCut(c, n, r[j], c[p]);
  }

  /** Ties keep the dict's insertion order, since Python's sort is stable. */
  lemma RankedForKeepsTieOrder(m: Matrix, sims: seq<real>, u: nat, n: int, i: nat, j: nat, p: nat, q: nat)
    requires u < |m.cells| && InRows(m, Neighbours(sims))
    requires i < j < |Candidates(m, sims, Neighbours(sims), u)|
    requires p < |RankedFor(m, sims, u, n)| && q < |RankedFor(m, sims, u, n)|
    requires RankedFor(m, sims, u, n)[p] == Candidates(m, sims, Neighbours(sims), u)[i]
    requires RankedFor(m, sims, u, n)[q] == Candidates(m, sims, Neighbours(sims), u)[j]
    requires Candidates(m, sims, Neighbours(sims), u)[i].score == Candidates(m, sims, Neighbours(sims), u)[j].score
    ensures p < q
  {
    var c := Candidates(m, sims, Neighbours(sims), u);
    CandidatesSpec(m, sims, Neighbours(sims), u);
    assert Distinct(c) by {
      forall a, b | 0 <= a < b < |c| ensures c[a] != c[b] {
        assert c[a].key != c[b].key;
      }
    }
    SortDescStable(c, i, j, p, q);
  }

  /** The loop that turns ranked indices into response entries through the
      reverse item map; an index missing from the map raises `KeyError`. */
  function ToProducts(ranked: seq<Ranked>, rev: map<nat, int>): (r: Option<seq<Scored>>)
    ensures r.Some? <==> forall j :: 0 <= j < |ranked| ==> ranked[j].key in rev
    ensures r.Some? ==> |r.value| == |ranked|
    ensures r.Some? ==> forall j :: 0 <= j < |ranked| ==> r.value[j] == Scored(rev[ranked[j].key], ranked[j].score)
  {
    if ranked == [] then Some([])
    else
      var init := ranked[..|ranked| - 1];
      var last := ranked[|ranked| - 1];
      assert forall j :: 0 <= j < |init| ==> init[j] == ranked[j];
      match ToProducts(init, rev)
      case None => None
      case Some(entries) =>
        if last.key in rev then Some(entries + [Scored(rev[last.key], last.score)]) else None
  }

  method ProductEntries(ranked: seq<Ranked>, rev: map<nat, int>) returns (r: Option<seq<Scored>>)
    ensures r == ToProducts(ranked, rev)
  {
    var result: seq<Scored> := [];
    var j := 0;
    while j < |ranked|
      invariant 0 <= j <= |ranked|
      invariant ToProducts(ranked[..j], rev) == Some(result)
    {
      var e := ranked[j];
      if e.key !in rev {
        return None;
      }
      result := result + [Scored(rev[e.key], e.score)];
      assert ranked[..j + 1][..j] == ranked[..j];
      j := j + 1;
    }
    assert ranked[..j] == ranked;
    r := Some(result);
  }

  ghost predicate Injective(rev: map<nat, int>) {
    forall a, b :: a in rev && b in rev && a != b ==> rev[a] != rev[b]
  }

  lemma BijectionInjective(fwd: map<int, nat>, rev: map<nat, int>, n: nat)
    requires Bijection(fwd, rev, n)
    ensures Injective(rev)
  {
    forall a, b | a in rev && b in rev && a != b
      ensures rev[a] != rev[b]
    {
      assert fwd[rev[a]] == a && fwd[rev[b]] == b;
    }
  }

  /** Distinct indices under an injective reverse map give distinct product ids. */
  lemma ProductsDistinct(ranked: seq<Ranked>, rev: map<nat, int>)
    requires DistinctKeys(ranked) && Injective(rev) && ToProducts(ranked, rev).Some?
    ensures forall p, q :: 0 <= p < q < |ranked| ==>
      ToProducts(ranked, rev).value[p].productId != ToProducts(ranked, rev).value[q].productId
  {
  }

  /** The personalised path of `get_recommendations` once the user's index
      and similarity vector are known. */
  function Recommendations(m: Matrix, sims: seq<real>, u: nat, rev: map<nat, int>, n: int): Option<seq<Scored>>
    requires u < |m.cells| && InRows(m, Neighbours(sims))
  {
    ToProducts(RankedFor(m, sims, u, n), rev)
  }

  method RecommendKnown(m: Matrix, sims: seq<real>, u: nat, rev: map<nat, int>, n: int) returns (r: Option<seq<Scored>>)
    requires u < |m.cells| && InRows(m, Neighbours(sims))
    ensures r == Recommendations(m, sims, u, rev, n)
  {
    var nbrs := Neighbours(sims);
    var recs := CollectCandidates(m, sims, nbrs, u);
    var ranked := Head(SortDesc(recs), n);
    r := ProductEntries(ranked, rev);
  }

  /** With a reverse map covering every column the personalised path cannot
      fail, and its product ids are distinct when that map is injective. */
  lemma RecommendationsSucceed(m: Matrix, sims: seq<real>, u: nat, rev: map<nat, int>, n: int)
    requires u < |m.cells| && InRows(m, Neighbours(sims))
    requires forall i: nat :: i < m.cols ==> i in rev
    ensures Recommendations(m, sims, u, rev, n).Some?
    ensures Injective(rev) ==> forall p, q :: 0 <= p < q < |Recommendations(m, sims, u, rev, n).value| ==>
      Recommendations(m, sims, u, rev, n).value[p].productId != Recommendations(m, sims, u, rev, n).value[q].productId
  {
    RankedForSpec(m, sims, u, n);
    var r := RankedFor(m, sims, u, n);
    assert forall j :: 0 <= j < |r| ==> r[j].key < m.cols;
    if Injective(rev) {
      ProductsDistinct(r, rev);
    }
  }

  /** The personalised path returns at most `n` products. */
  lemma RecommendationsAtMostN(m: Matrix, sims: seq<real>, u: nat, rev: map<nat, int>, n: int)
    requires u < |m.cells| && InRows(m, Neighbours(sims)) && n >= 0
    ensures Recommendations(m, sims, u, rev, n).Some? ==> |Recommendations(m, sims, u, rev, n).value| <= n
  {
    RankedForSpec(m, sims, u, n);
  }

  /** Σ over the rows of column `i`: `matrix.sum(axis=0)[i]`. */
  function ColumnSum(rows: seq<seq<real>>, i: nat): real
    requires forall u :: 0 <= u < |rows| ==> i < |rows[u]|
  {
    if rows == [] then 0.0 else ColumnSum(rows[..|rows| - 1], i) + rows[|rows| - 1][i]
  }

  function ColumnTotals(m: Matrix): seq<Ranked> {
    seq(m.cols, i requires 0 <= i < m.cols => Ranked(i, ColumnSum(m.cells, i)))
  }

  /** `matrix.sum(axis=0).sort_values(ascending=False).head(n)`. The library
      sort leaves the order of ties open; here ties come in column order. */
  function PopularRanked(m: Matrix, n: int): seq<Ranked> {
    Head(SortDesc(ColumnTotals(m)), n)
  }

  /** Popularity: min(n, #items) items, each with its column sum, no item
      twice, in non-increasing order. */
  lemma PopularRankedSpec(m: Matrix, n: int)
    ensures n >= 0 ==> |PopularRanked(m, n)| == Min(n, m.cols)
    ensures NonIncreasing(PopularRanked(m, n)) && DistinctKeys(PopularRanked(m, n))
    ensures forall j :: 0 <= j < |PopularRanked(m, n)| ==>
      PopularRanked(m, n)[j].key < m.cols &&
      PopularRanked(m, n)[j].score == ColumnSum(m.cells, PopularRanked(m, n)[j].key)
  {
    var t := ColumnTotals(m);
    var r := PopularRanked(m, n);
    SortDescDistinctKeys(t);
    forall j | 0 <= j < |r|
      ensures r[j].key < m.cols && r[j].score == ColumnSum(m.cells, r[j].key)
    {
      SortDescMembers(t, r[j]);
    }
  }

  /** An item left out of the first n has a column sum no higher than any
      item kept. */
  lemma PopularRankedKeepsBest(m: Matrix, n: int, i: nat, j: nat)
    requires i < m.cols && i !in Keys(PopularRanked(m, n))
    requires j < |PopularRanked(m, n)|
    ensures ColumnSum(m.cells, i) <= PopularRanked(m, n)[j].score
  {
    var t := ColumnTotals(m);
    var r := PopularRanked(m, n);
    assert t[i] !in r by {
      assert forall q :: 0 <= q < |r| ==> Keys(r)[q] == r[q].key;
    }
    TopCut(t, n, r[j], t[i]);
  }

  function PopularItems(m: Matrix, rev: map<nat, int>, n: int): Option<seq<Scored>> {
    ToProducts(PopularRanked(m, n), rev)
  }

  method Popular(m: Matrix, rev: map<nat, int>, n: int) returns (r: Option<seq<Scored>>)
    ensures r == PopularItems(m, rev, n)
  {
    var ranked := Head(SortDesc(ColumnTotals(m)), n);
    r := ProductEntries(ranked, rev);
  }

  /** With a reverse map covering every column the popularity ranking cannot
      fail, and its product ids are distinct when that map is injective. */
  lemma PopularItemsSucceed(m: Matrix, rev: map<nat, int>, n: int)
    requires forall i: nat :: i < m.cols ==> i in rev
    ensures PopularItems(m, rev, n).Some?
    ensures n >= 0 ==> |PopularItems(m, rev, n).value| == Min(n, m.cols)
    ensures Injective(rev) ==> forall p, q :: 0 <= p < q < |PopularItems(m, rev, n).value| ==>
      PopularItems(m, rev, n).value[p].productId != PopularItems(m, rev, n).value[q].productId
  {
    PopularRankedSpec(m, n);
    if Injective(rev) {
      ProductsDistinct(PopularRanked(m, n), rev);
    }
  }
}
