/** The user-item interaction matrix of the trainer: dense indices for user
    and product ids in first-seen order, and a pivot of one scored cell per
    record with absent cells filled with 0. */
module Interactions {
  import opened Common

  /** One row of the training query: a (user, product) pair with its
      quantities aggregated over the query window. */
  datatype Record = Record(
    userId: int,
    productId: int,
    totalQuantity: real,
    avgPrice: real,
    purchaseCount: int)

  /** A pandas DataFrame of reals: `cols` columns labelled 0..cols-1 and one
      sequence per row. */
  datatype Frame = Frame(cols: nat, cells: seq<seq<real>>)

  predicate Rectangular(f: Frame) {
    forall u :: 0 <= u < |f.cells| ==> |f.cells[u]| == f.cols
  }

  /** A DataFrame always has the same number of entries in every row. */
  type Matrix = f: Frame | Rectangular(f) witness Frame(0, [])

  function UserIds(rs: seq<Record>): seq<int> {
    seq(|rs|, k requires 0 <= k < |rs| => rs[k].userId)
  }

  function ItemIds(rs: seq<Record>): seq<int> {
    seq(|rs|, k requires 0 <= k < |rs| => rs[k].productId)
  }

  /** `{id: idx for idx, id in enumerate(ids)}` */
  function IndexMap(ids: seq<int>): map<int, nat>
    requires Distinct(ids)
  {
    map k | 0 <= k < |ids| :: ids[k] := k as nat
  }

  /** `{idx: id for id, idx in mapping.items()}`, read off the same enumeration. */
  function ReverseMap(ids: seq<int>): map<nat, int> {
    map k: nat | k < |ids| :: ids[k]
  }

  /** `fwd` and `rev` are mutually inverse and `rev` covers exactly 0..n-1. */
  ghost predicate Bijection(fwd: map<int, nat>, rev: map<nat, int>, n: nat) {
    && (forall k: nat :: k in rev <==> k < n)
    && (forall x :: x in fwd ==> fwd[x] in rev && rev[fwd[x]] == x)
    && (forall k :: k in rev ==> rev[k] in fwd && fwd[rev[k]] == k)
  }

  /** Distinct ids receive contiguous indices 0..|ids|-1, and the reverse map
      is the exact inverse of the forward one. */
  lemma IndexMapBijection(ids: seq<int>)
    requires Distinct(ids)
    ensures Bijection(IndexMap(ids), ReverseMap(ids), |ids|)
    ensures forall x :: x in IndexMap(ids) <==> x in ids
  {
    var fwd, rev := IndexMap(ids), ReverseMap(ids);
    forall x | x in ids
      ensures x in fwd
    {
      var k :| 0 <= k < |ids| && ids[k] == x;
      assert fwd[ids[k]] == k;
    }
    forall x | x in fwd
      ensures fwd[x] in rev && rev[fwd[x]] == x
    {
      var k :| 0 <= k < |ids| && ids[k] == x;
      assert fwd[x] == k;
    }
    forall k | k in rev
      ensures rev[k] in fwd && fwd[rev[k]] == k
    {
      assert fwd[ids[k]] == k;
    }
  }

  /** Indices follow the order in which the ids first occur in the input. */
  lemma IndexFollowsFirstSeen(s: seq<int>, x: int, y: int)
    requires x in s && y in s
    ensures x in IndexMap(Unique(s)) && y in IndexMap(Unique(s))
    ensures IndexMap(Unique(s))[x] < IndexMap(Unique(s))[y] <==> FirstIndex(s, x) < FirstIndex(s, y)
  {
    var u := Unique(s);
    IndexMapBijection(u);
    var fwd := IndexMap(u);
    var ix, iy := fwd[x], fwd[y];
    assert u[ix] == x && u[iy] == y by {
      assert ReverseMap(u)[ix] == x && ReverseMap(u)[iy] == y;
    }
    if ix < iy {
      UniqueFirstSeen(s, ix, iy);
    } else if iy < ix {
      UniqueFirstSeen(s, iy, ix);
    }
  }

  /** One entry of `matrix_data`: (user index, item index, score). */
  datatype Cell = Cell(user: nat, item: nat, score: real)

  predicate At(c: Cell, u: nat, i: nat) {
    c.user == u && c.item == i
  }

  function CellSum(cells: seq<Cell>, u: nat, i: nat): real {
    if cells == [] then 0.0
    else
      var last := cells[|cells| - 1];
      CellSum(cells[..|cells| - 1], u, i) + (if At(last, u, i) then last.score else 0.0)
  }

  function CellCount(cells: seq<Cell>, u: nat, i: nat): nat {
    if cells == [] then 0
    else CellCount(cells[..|cells| - 1], u, i) + (if At(cells[|cells| - 1], u, i) then 1 else 0)
  }

  /** pandas' `pivot_table` aggregates the entries of a cell with `mean` and
      fills a cell without entries with `fill_value=0`. */
  function CellMean(cells: seq<Cell>, u: nat, i: nat): real {
    var c := CellCount(cells, u, i);
    if c == 0 then 0.0 else CellSum(cells, u, i) / c as real
  }

  function Pivot(cells: seq<Cell>, rows: nat, cols: nat): (m: Matrix)
    ensures |m.cells| == rows && m.cols == cols
  {
    Frame(cols, seq(rows, u requires 0 <= u < rows =>
      seq(cols, i requires 0 <= i < cols => CellMean(cells, u, i))))
  }

  lemma {:induction false} CellTotalsAbsent(cells: seq<Cell>, u: nat, i: nat)
    requires forall k :: 0 <= k < |cells| ==> !At(cells[k], u, i)
    ensures CellCount(cells, u, i) == 0
  {
    if cells != [] {
      CellTotalsAbsent(cells[..|cells| - 1], u, i);
    }
  }

  lemma {:induction false} CellTotalsSingle(cells: seq<Cell>, u: nat, i: nat, k: nat)
    requires k < |cells| && At(cells[k], u, i)
    requires forall j :: 0 <= j < |cells| && j != k ==> !At(cells[j], u, i)
    ensures CellCount(cells, u, i) == 1 && CellSum(cells, u, i) == cells[k].score
  {
    var init := cells[..|cells| - 1];
    if k == |cells| - 1 {
      CellTotalsAbsent(init, u, i);
      CellSumAbsent(init, u, i);
    } else {
      CellTotalsSingle(init, u, i, k);
    }
  }

  lemma {:induction false} CellSumAbsent(cells: seq<Cell>, u: nat, i: nat)
    requires forall k :: 0 <= k < |cells| ==> !At(cells[k], u, i)
    ensures CellSum(cells, u, i) == 0.0
  {
    if cells != [] {
      CellSumAbsent(cells[..|cells| - 1], u, i);
    }
  }

  lemma {:induction false} CellSumNonNegative(cells: seq<Cell>, u: nat, i: nat)
    requires forall k :: 0 <= k < |cells| ==> cells[k].score >= 0.0
    ensures CellSum(cells, u, i) >= 0.0
  {
    if cells != [] {
      CellSumNonNegative(cells[..|cells| - 1], u, i);
    }
  }

  /** `purchase_count * log1p(avg_price)` with `log1p` left abstract. */
  function Score(r: Record, log1p: real -> real): real {
    r.purchaseCount as real * log1p(r.avgPrice)
  }

  predicate Mapped(rs: seq<Record>, um: map<int, nat>, im: map<int, nat>) {
    forall k :: 0 <= k < |rs| ==> rs[k].userId in um && rs[k].productId in im
  }

  /** `matrix_data`: one (user index, item index, score) entry per record. */
  function MatrixData(rs: seq<Record>, um: map<int, nat>, im: map<int, nat>, log1p: real -> real): (cells: seq<Cell>)
    requires Mapped(rs, um, im)
    ensures |cells| == |rs|
  {
    seq(|rs|, k requires 0 <= k < |rs| =>
      Cell(um[rs[k].userId], im[rs[k].productId], Score(rs[k], log1p)))
  }

  function Users(rs: seq<Record>): seq<int> { Unique(UserIds(rs)) }

  function Items(rs: seq<Record>): seq<int> { Unique(ItemIds(rs)) }

  lemma RecordsMapped(rs: seq<Record>)
    ensures Mapped(rs, IndexMap(Users(rs)), IndexMap(Items(rs)))
    ensures forall k :: 0 <= k < |rs| ==>
      IndexMap(Users(rs))[rs[k].userId] < |Users(rs)| && IndexMap(Items(rs))[rs[k].productId] < |Items(rs)|
  {
    IndexMapBijection(Users(rs));
    IndexMapBijection(Items(rs));
    forall k | 0 <= k < |rs|
      ensures rs[k].userId in UserIds(rs) && rs[k].productId in ItemIds(rs)
    {
      assert UserIds(rs)[k] == rs[k].userId && ItemIds(rs)[k] == rs[k].productId;
    }
  }

  /** The user-item matrix of `prepare_data`: rows are user indices, columns
      item indices. */
  function BuildMatrix(rs: seq<Record>, log1p: real -> real): Matrix {
    RecordsMapped(rs);
    Pivot(MatrixData(rs, IndexMap(Users(rs)), IndexMap(Items(rs)), log1p), |Users(rs)|, |Items(rs)|)
  }

  /** The matrix has one row per distinct user id and one column per distinct
      product id. */
  lemma MatrixShape(rs: seq<Record>, log1p: real -> real)
    ensures |BuildMatrix(rs, log1p).cells| == |set k | 0 <= k < |rs| :: rs[k].userId|
    ensures BuildMatrix(rs, log1p).cols == |set k | 0 <= k < |rs| :: rs[k].productId|
  {
    DistinctCardinality(Users(rs));
    DistinctCardinality(Items(rs));
    assert (set x | x in Users(rs)) == set k | 0 <= k < |rs| :: rs[k].userId by {
      forall x | x in Users(rs) ensures exists k :: 0 <= k < |rs| && rs[k].userId == x {
        var k :| 0 <= k < |rs| && UserIds(rs)[k] == x;
      }
      forall k | 0 <= k < |rs| ensures rs[k].userId in Users(rs) {
        assert UserIds(rs)[k] == rs[k].userId;
      }
    }
    assert (set x | x in Items(rs)) == set k | 0 <= k < |rs| :: rs[k].productId by {
      forall x | x in Items(rs) ensures exists k :: 0 <= k < |rs| && rs[k].productId == x {
        var k :| 0 <= k < |rs| && ItemIds(rs)[k] == x;
      }
      forall k | 0 <= k < |rs| ensures rs[k].productId in Items(rs) {
        assert ItemIds(rs)[k] == rs[k].productId;
      }
    }
  }

  /** No two records share a (user, product) pair: what the query's
      `GROUP BY user_id, product_id` delivers. */
  predicate UniquePairs(rs: seq<Record>) {
    forall j, k :: 0 <= j < k < |rs| ==>
      !(rs[j].userId == rs[k].userId && rs[j].productId == rs[k].productId)
  }

  /** An entry of `matrix_data` lies in the cell of its record's ids, and in
      no other. */
  lemma CellOfRecord(rs: seq<Record>, log1p: real -> real, j: nat, x: int, y: int)
    requires j < |rs| && x in Users(rs) && y in Items(rs)
    ensures
      (RecordsMapped(rs);
      var um, im := IndexMap(Users(rs)), IndexMap(Items(rs));
      At(MatrixData(rs, um, im, log1p)[j], um[x], im[y]) <==> rs[j].userId == x && rs[j].productId == y)
  {
    RecordsMapped(rs);
    IndexMapBijection(Users(rs));
    IndexMapBijection(Items(rs));
    var um, rum := IndexMap(Users(rs)), ReverseMap(Users(rs));
    var im, rim := IndexMap(Items(rs)), ReverseMap(Items(rs));
    if um[rs[j].userId] == um[x] {
      assert rum[um[x]] == x && rum[um[rs[j].userId]] == rs[j].userId;
    }
    if im[rs[j].productId] == im[y] {
      assert rim[im[y]] == y && rim[im[rs[j].productId]] == rs[j].productId;
    }
  }

  /** With one record per (user, product), that record's cell holds its score
      `purchase_count * log1p(avg_price)`. */
  lemma MatrixCellIsScore(rs: seq<Record>, log1p: real -> real, k: nat)
    requires UniquePairs(rs) && k < |rs|
    ensures
      (RecordsMapped(rs);
      var um, im := IndexMap(Users(rs)), IndexMap(Items(rs));
      var m := BuildMatrix(rs, log1p);
      um[rs[k].userId] < |m.cells| && im[rs[k].productId] < m.cols &&
      m.cells[um[rs[k].userId]][im[rs[k].productId]] == Score(rs[k], log1p))
  {
    RecordsMapped(rs);
    var um, im := IndexMap(Users(rs)), IndexMap(Items(rs));
    var x, y := rs[k].userId, rs[k].productId;
    assert x in Users(rs) && y in Items(rs) by {
      assert UserIds(rs)[k] == x && ItemIds(rs)[k] == y;
    }
    var cells := MatrixData(rs, um, im, log1p);
    var u, i := um[x], im[y];
    assert u < |Users(rs)| && i < |Items(rs)| by {
      IndexMapBijection(Users(rs));
      IndexMapBijection(Items(rs));
    }
    assert CellMean(cells, u, i) == Score(rs[k], log1p) by {
      forall j | 0 <= j < |cells| && j != k
        ensures !At(cells[j], u, i)
      {
        CellOfRecord(rs, log1p, j, x, y);
      }
      CellOfRecord(rs, log1p, k, x, y);
      CellTotalsSingle(cells, u, i, k);
    }
    assert BuildMatrix(rs, log1p) == Pivot(cells, |Users(rs)|, |Items(rs)|);
  }

  /** The summed score of the records for user `x` and product `y`. */
  function PairSum(rs: seq<Record>, log1p: real -> real, x: int, y: int): real {
    if rs == [] then 0.0
    else
      var last := rs[|rs| - 1];
      PairSum(rs[..|rs| - 1], log1p, x, y)
        + (if last.userId == x && last.productId == y then Score(last, log1p) else 0.0)
  }

  /** The number of records for user `x` and product `y`. */
  function PairCount(rs: seq<Record>, x: int, y: int): nat {
    if rs == [] then 0
    else
      var last := rs[|rs| - 1];
      PairCount(rs[..|rs| - 1], x, y) + (if last.userId == x && last.productId == y then 1 else 0)
  }

  /** An id's index is in range and belongs to no other id. */
  lemma IndexSeparates(ids: seq<int>, x: int)
    requires Distinct(ids) && x in ids
    ensures x in IndexMap(ids) && IndexMap(ids)[x] < |ids|
    ensures forall a :: a in IndexMap(ids) && IndexMap(ids)[a] == IndexMap(ids)[x] ==> a == x
  {
    IndexMapBijection(ids);
    var fwd, rev := IndexMap(ids), ReverseMap(ids);
    forall a | a in fwd && fwd[a] == fwd[x] ensures a == x {
      assert rev[fwd[a]] == a && rev[fwd[x]] == x;
    }
  }

  /** While the index maps tell `x` and `y` apart from every other id, the
      entries of `matrix_data` in their cell total exactly the records for
      (x, y). */
  lemma {:induction false} CellTotalsArePairTotals(rs: seq<Record>, um: map<int, nat>, im: map<int, nat>,
                                                   log1p: real -> real, x: int, y: int)
    requires Mapped(rs, um, im) && x in um && y in im
    requires forall a :: a in um && um[a] == um[x] ==> a == x
    requires forall b :: b in im && im[b] == im[y] ==> b == y
    ensures CellSum(MatrixData(rs, um, im, log1p), um[x], im[y]) == PairSum(rs, log1p, x, y)
    ensures CellCount(MatrixData(rs, um, im, log1p), um[x], im[y]) == PairCount(rs, x, y)
  {
    if rs != [] {
      var init := rs[..|rs| - 1];
      var cells := MatrixData(rs, um, im, log1p);
      assert Mapped(init, um, im) by {
        assert forall k :: 0 <= k < |init| ==> init[k] == rs[k];
      }
      assert MatrixData(init, um, im, log1p) == cells[..|cells| - 1];
      CellTotalsArePairTotals(init, um, im, log1p, x, y);
      var last := rs[|rs| - 1];
      assert At(cells[|cells| - 1], um[x], im[y]) <==> last.userId == x && last.productId == y;
    }
  }

  /** Every cell of a (user, product) pair is the mean score of that pair's
      records, as `pivot_table(aggfunc='mean')` gives when the sample data
      repeats a pair, and 0 when the pair has no record. */
  lemma MatrixCellIsMean(rs: seq<Record>, log1p: real -> real, x: int, y: int)
    requires x in Users(rs) && y in Items(rs)
    ensures
      (IndexSeparates(Users(rs), x);
      IndexSeparates(Items(rs), y);
      var um, im := IndexMap(Users(rs)), IndexMap(Items(rs));
      var m := BuildMatrix(rs, log1p);
      var c := PairCount(rs, x, y);
      um[x] < |m.cells| && im[y] < m.cols &&
      m.cells[um[x]][im[y]] == (if c == 0 then 0.0 else PairSum(rs, log1p, x, y) / c as real))
  {
    RecordsMapped(rs);
    IndexSeparates(Users(rs), x);
    IndexSeparates(Items(rs), y);
    var um, im := IndexMap(Users(rs)), IndexMap(Items(rs));
    var cells := MatrixData(rs, um, im, log1p);
    CellTotalsArePairTotals(rs, um, im, log1p, x, y);
    assert BuildMatrix(rs, log1p) == Pivot(cells, |Users(rs)|, |Items(rs)|);
  }

  /** A (user, product) pair with no record holds 0. */
  lemma MatrixAbsentPairIsZero(rs: seq<Record>, log1p: real -> real, x: int, y: int)
    requires x in Users(rs) && y in Items(rs)
    requires forall k :: 0 <= k < |rs| ==> !(rs[k].userId == x && rs[k].productId == y)
    ensures
      (RecordsMapped(rs);
      var um, im := IndexMap(Users(rs)), IndexMap(Items(rs));
      var m := BuildMatrix(rs, log1p);
      um[x] < |m.cells| && im[y] < m.cols && m.cells[um[x]][im[y]] == 0.0)
  {
    RecordsMapped(rs);
    var um, im := IndexMap(Users(rs)), IndexMap(Items(rs));
    assert um[x] < |Users(rs)| && im[y] < |Items(rs)| by {
      IndexMapBijection(Users(rs));
      IndexMapBijection(Items(rs));
    }
    var cells := MatrixData(rs, um, im, log1p);
    assert CellCount(cells, um[x], im[y]) == 0 by {
      forall j | 0 <= j < |cells|
        ensures !At(cells[j], um[x], im[y])
      {
        CellOfRecord(rs, log1p, j, x, y);
      }
      CellTotalsAbsent(cells, um[x], im[y]);
    }
    assert BuildMatrix(rs, log1p) == Pivot(cells, |Users(rs)|, |Items(rs)|);
  }

  /** Non-negative prices and counts give a matrix without negative cells,
      duplicates or not. */
  lemma MatrixNonNegative(rs: seq<Record>, log1p: real -> real, u: nat, i: nat)
    requires forall p: real :: p >= 0.0 ==> log1p(p) >= 0.0
    requires forall k :: 0 <= k < |rs| ==> rs[k].avgPrice >= 0.0 && rs[k].purchaseCount >= 0
    requires u < |BuildMatrix(rs, log1p).cells| && i < BuildMatrix(rs, log1p).cols
    ensures BuildMatrix(rs, log1p).cells[u][i] >= 0.0
  {
    RecordsMapped(rs);
    var cells := MatrixData(rs, IndexMap(Users(rs)), IndexMap(Items(rs)), log1p);
    assert CellSum(cells, u, i) >= 0.0 by {
      forall k | 0 <= k < |cells|
        ensures cells[k].score >= 0.0
      {
        assert log1p(rs[k].avgPrice) >= 0.0;
      }
      CellSumNonNegative(cells, u, i);
    }
    assert BuildMatrix(rs, log1p) == Pivot(cells, |Users(rs)|, |Items(rs)|);
  }
}
