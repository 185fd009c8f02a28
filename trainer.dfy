/** The training job's `RecommendationModel`: it prepares the user-item
    matrix from the queried purchase records, fixes the SVD rank, and serves
    neighbour and popularity recommendations from its fields; `save_model`
    and `load_model` copy those fields to and from a stored artifact. */
module Trainer {
  import opened Common
  import opened Ranking
  import opened Interactions
  import opened Recommender

  /** The cap on the number of latent components. */
  const MAX_COMPONENTS: int := 50

  /** `min(50, min(matrix.shape) - 1)`: the largest rank that is at most 50
      and strictly below both matrix dimensions. */
  function Rank(rows: nat, cols: nat): (k: int)
    ensures k <= MAX_COMPONENTS && k < rows && k < cols
    ensures k == MAX_COMPONENTS || k == rows - 1 || k == cols - 1
  {
    Min(MAX_COMPONENTS, Min(rows, cols) - 1)
  }

  /** The rank is a valid number of components (at least 1) exactly when the
      matrix has at least two rows and two columns. */
  lemma RankValid(rows: nat, cols: nat)
    ensures Rank(rows, cols) >= 1 <==> rows >= 2 && cols >= 2
  {
  }

  /** A `StandardScaler`; only the number of features of the matrix it is
      fitted on is kept, not its statistics. */
  datatype Scaler = Scaler(features: nat)

  /** A `TruncatedSVD` configured with its number of components. */
  datatype Svd = Svd(nComponents: int)

  /** The eight fields that `save_model` writes. `userFeatures` is `None`
      while the attribute has never been assigned. */
  datatype Artifact = Artifact(
    svdModel: Option<Svd>,
    scaler: Option<Scaler>,
    userFeatures: Option<seq<seq<real>>>,
    userMapping: map<int, nat>,
    itemMapping: map<int, nat>,
    reverseUserMapping: map<nat, int>,
    reverseItemMapping: map<nat, int>,
    userItemMatrix: Option<Matrix>)

  /** The stored dictionary: the artifact plus its `trained_at` stamp, which
      a dictionary from elsewhere may lack. */
  datatype SavedModel = SavedModel(artifact: Artifact, trainedAt: Option<string>)

  /** How `train` ends: normally, with the error the scaler raises on a
      matrix without rows, or with the error the SVD raises for a rank below
      1. */
  datatype TrainOutcome = Trained | EmptyMatrix | InvalidComponents(k: int)

  /** `cosine_similarity(user_vector, user_features)[0]`. */
  type Similarity = (seq<real>, seq<seq<real>>) -> seq<real>

  /** A similarity yields one value per row it is compared against. */
  ghost predicate OnePerRow(similarity: Similarity) {
    forall v: seq<real>, rows: seq<seq<real>> :: |similarity(v, rows)| == |rows|
  }

  /** The records `prepare_data` works on: the query result, or the sample
      data when the query returns nothing. */
  function TrainingRecords(queried: seq<Record>, sample: seq<Record>): seq<Record> {
    if |queried| == 0 then sample else queried
  }

  /** The state `prepare_data` leaves behind for the records `rs`. */
  function Prepared(before: Artifact, rs: seq<Record>, log1p: real -> real): Artifact {
    Artifact(before.svdModel, before.scaler, before.userFeatures,
             IndexMap(Users(rs)), IndexMap(Items(rs)), ReverseMap(Users(rs)), ReverseMap(Items(rs)),
             Some(BuildMatrix(rs, log1p)))
  }

  /** A trained model: mappings that are exact inverses covering the matrix
      rows and columns, and one feature row per matrix row. */
  ghost predicate Fitted(a: Artifact) {
    && a.userItemMatrix.Some? && a.userFeatures.Some?
    && |a.userFeatures.value| == |a.userItemMatrix.value.cells|
    && Bijection(a.userMapping, a.reverseUserMapping, |a.userItemMatrix.value.cells|)
    && Bijection(a.itemMapping, a.reverseItemMapping, a.userItemMatrix.value.cols)
  }

  /** Preparing the data and then fitting one feature row per user yields a
      fitted model, whatever the other fields held before. */
  lemma PreparedFitted(a: Artifact, rs: seq<Record>, log1p: real -> real, features: seq<seq<real>>)
    requires |features| == |BuildMatrix(rs, log1p).cells|
    ensures Fitted(Prepared(a, rs, log1p).(userFeatures := Some(features)))
  {
    IndexMapBijection(Users(rs));
    IndexMapBijection(Items(rs));
  }

  /** `get_popular_items`: `AttributeError` (here `None`) before any matrix
      exists. */
  function PopularFrom(a: Artifact, n: int): Option<seq<Scored>> {
    match a.userItemMatrix
    case None => None
    case Some(m) => PopularItems(m, a.reverseItemMapping, n)
  }

  /** The personalised path of `get_recommendations` for a known user id;
      `None` stands for the exception raised when the features or the
      matrix are missing or an index falls outside them. */
  function Personalised(a: Artifact, userId: int, n: int, similarity: Similarity): Option<seq<Scored>>
    requires userId in a.userMapping
  {
    var u := a.userMapping[userId];
    match (a.userFeatures, a.userItemMatrix)
    case (Some(features), Some(m)) =>
      if u < |features| then
        var sims := similarity(features[u], features);
        if InRows(m, Neighbours(sims)) && u < |m.cells| then Recommendations(m, sims, u, a.reverseItemMapping, n)
        else None
      else None
    case _ => None
  }

  /** `get_recommendations`: popularity for an unknown user id, the
      neighbour path otherwise. */
  function Recommend(a: Artifact, userId: int, n: int, similarity: Similarity): Option<seq<Scored>> {
    if userId !in a.userMapping then PopularFrom(a, n) else Personalised(a, userId, n, similarity)
  }

  /** The personalised path returns at most `n` products. */
  lemma PersonalisedAtMostN(a: Artifact, userId: int, n: int, similarity: Similarity)
    requires userId in a.userMapping && n >= 0
    ensures Personalised(a, userId, n, similarity).Some? ==> |Personalised(a, userId, n, similarity).value| <= n
  {
    var u := a.userMapping[userId];
    if a.userFeatures.Some? && a.userItemMatrix.Some? && u < |a.userFeatures.value| {
      var m := a.userItemMatrix.value;
      var sims := similarity(a.userFeatures.value[u], a.userFeatures.value);
      if InRows(m, Neighbours(sims)) && u < |m.cells| {
        RecommendationsAtMostN(m, sims, u, a.reverseItemMapping, n);
      }
    }
  }

  /** Ranked item indices below the column count all map back to product
      ids, in the same order and with the same scores; distinct indices give
      distinct product ids. */
  lemma MappedBack(ranked: seq<Ranked>, fwd: map<int, nat>, rev: map<nat, int>, cols: nat)
    requires Bijection(fwd, rev, cols)
    requires forall j :: 0 <= j < |ranked| ==> ranked[j].key < cols
    ensures ToProducts(ranked, rev).Some?
    ensures var r := ToProducts(ranked, rev).value;
      && |r| == |ranked|
      && (forall j :: 0 <= j < |r| ==>
            r[j].productId in fwd && fwd[r[j].productId] == ranked[j].key && r[j].score == ranked[j].score)
      && (DistinctKeys(ranked) ==> forall p, q :: 0 <= p < q < |r| ==> r[p].productId != r[q].productId)
  {
    var r := ToProducts(ranked, rev).value;
    forall j | 0 <= j < |r|
      ensures r[j].productId in fwd && fwd[r[j].productId] == ranked[j].key
    {
      assert ranked[j].key in rev;
    }
  }

  /** On a fitted model an unknown user id gets exactly the popular items:
      min(n, #items) of them, each scored by its column sum, without
      repeated product ids and in non-increasing score order. */
  lemma UnknownUserGetsPopular(a: Artifact, userId: int, n: int, similarity: Similarity)
    requires Fitted(a) && userId !in a.userMapping
    ensures Recommend(a, userId, n, similarity) == PopularFrom(a, n)
    ensures PopularFrom(a, n).Some?
    ensures var r := PopularFrom(a, n).value;
      var m := a.userItemMatrix.value;
      && (n >= 0 ==> |r| == Min(n, m.cols))
      && (forall p, q :: 0 <= p < q < |r| ==> r[p].productId != r[q].productId && r[p].score >= r[q].score)
      && (forall j :: 0 <= j < |r| ==>
            r[j].productId in a.itemMapping && a.itemMapping[r[j].productId] < m.cols
            && r[j].score == ColumnSum(m.cells, a.itemMapping[r[j].productId]))
  {
    var m := a.userItemMatrix.value;
    PopularRankedSpec(m, n);
    MappedBack(PopularRanked(m, n), a.itemMapping, a.reverseItemMapping, m.cols);
  }

  /** On a fitted model a known user gets at most n items, none of which the
      user bought, each bought by one of the selected neighbours and scored
      by the neighbour sum, without repeated product ids and in
      non-increasing score order. */
  lemma KnownUserRecommendations(a: Artifact, userId: int, n: int, similarity: Similarity)
    requires Fitted(a) && OnePerRow(similarity) && userId in a.userMapping
    ensures Recommend(a, userId, n, similarity).Some?
    ensures var r := Recommend(a, userId, n, similarity).value;
      var m := a.userItemMatrix.value;
      var f := a.userFeatures.value;
      var u := a.userMapping[userId];
      var sims := similarity(f[u], f);
      && u < |m.cells| && InRows(m, Neighbours(sims))
      && (n >= 0 ==> |r| <= n)
      && (forall p, q :: 0 <= p < q < |r| ==> r[p].productId != r[q].productId && r[p].score >= r[q].score)
      && (forall j :: 0 <= j < |r| ==>
            r[j].productId in a.itemMapping
            && Eligible(m, Neighbours(sims), u, a.itemMapping[r[j].productId])
            && r[j].score == NeighbourScore(m, sims, Neighbours(sims), a.itemMapping[r[j].productId]))
  {
    var m := a.userItemMatrix.value;
    var f := a.userFeatures.value;
    var u := a.userMapping[userId];
    assert u < |m.cells| by {
      assert u in a.reverseUserMapping;
    }
    var sims := similarity(f[u], f);
    assert InRows(m, Neighbours(sims));
    RankedForSpec(m, sims, u, n);
    var ranked := RankedFor(m, sims, u, n);
    MappedBack(ranked, a.itemMapping, a.reverseItemMapping, m.cols);
    assert Recommend(a, userId, n, similarity) == ToProducts(ranked, a.reverseItemMapping);
  }

  /** The loop that fills `matrix_data`: one (user index, item index,
      score) entry per record, in record order. */
  method MatrixEntries(rs: seq<Record>, um: map<int, nat>, im: map<int, nat>, log1p: real -> real)
    returns (cells: seq<Cell>)
    requires Mapped(rs, um, im)
    ensures cells == MatrixData(rs, um, im, log1p)
  {
    cells := [];
    for k := 0 to |rs|
      invariant |cells| == k
      invariant forall j :: 0 <= j < k ==> cells[j] == Cell(um[rs[j].userId], im[rs[j].productId], Score(rs[j], log1p))
    {
      var userIdx := um[rs[k].userId];
      var itemIdx := im[rs[k].productId];
      var score := rs[k].purchaseCount as real * log1p(rs[k].avgPrice);
      cells := cells + [Cell(userIdx, itemIdx, score)];
    }
  }

  class RecommendationModel {
    var userItemMatrix: Option<Matrix>
    var svdModel: Option<Svd>
    var scaler: Option<Scaler>
    var userFeatures: Option<seq<seq<real>>>
    var userMapping: map<int, nat>
    var itemMapping: map<int, nat>
    var reverseUserMapping: map<nat, int>
    var reverseItemMapping: map<nat, int>

    /** The fields as one value. */
    function State(): Artifact
      reads this
    {
      Artifact(svdModel, scaler, userFeatures, userMapping, itemMapping,
               reverseUserMapping, reverseItemMapping, userItemMatrix)
    }

    constructor()
      ensures State() == Artifact(None, None, None, map[], map[], map[], map[], None)
    {
      userItemMatrix := None;
      svdModel := None;
      scaler := None;
      userFeatures := None;
      userMapping := map[];
      itemMapping := map[];
      reverseUserMapping := map[];
      reverseItemMapping := map[];
    }

    /** `prepare_data`, with the query result and the sample data as inputs
        and `log1p` as a parameter: it sets the mappings and the matrix and
        nothing else. */
    method PrepareData(queried: seq<Record>, sample: seq<Record>, log1p: real -> real) returns (matrix: Matrix)
      modifies this
      ensures var rs := TrainingRecords(queried, sample);
        matrix == BuildMatrix(rs, log1p) && State() == Prepared(old(State()), rs, log1p)
    {
      var rs := TrainingRecords(queried, sample);
      var users := Users(rs);
      var items := Items(rs);
      userMapping := IndexMap(users);
      itemMapping := IndexMap(items);
      reverseUserMapping := ReverseMap(users);
      reverseItemMapping := ReverseMap(items);
      RecordsMapped(rs);
      var cells := MatrixEntries(rs, userMapping, itemMapping, log1p);
      matrix := Pivot(cells, |users|, |items|);
      userItemMatrix := Some(matrix);
    }

    /** `train`: prepares the data, fits the scaler, configures the SVD with
        the rank of `Rank`, and stores the reduced features. The scaling and
        the reduction are the parameter `reduce`. A matrix without rows makes
        the scaler's fit raise after the scaler was assigned and before the
        SVD object is; a rank below 1 makes the SVD raise after both were
        assigned. Either way the features stay as they were. */
    method Train(queried: seq<Record>, sample: seq<Record>, log1p: real -> real,
                 reduce: (Matrix, int) -> seq<seq<real>>) returns (outcome: TrainOutcome)
      modifies this
      ensures var rs := TrainingRecords(queried, sample);
        var m := BuildMatrix(rs, log1p);
        var k := Rank(|m.cells|, m.cols);
        var scaled := Prepared(old(State()), rs, log1p).(scaler := Some(Scaler(m.cols)));
        var prepared := scaled.(svdModel := Some(Svd(k)));
        && (|m.cells| == 0 ==> outcome == EmptyMatrix && State() == scaled)
        && (|m.cells| > 0 && k >= 1 ==> outcome == Trained && State() == prepared.(userFeatures := Some(reduce(m, k))))
        && (|m.cells| > 0 && k < 1 ==> outcome == InvalidComponents(k) && State() == prepared)
    {
      var matrix := PrepareData(queried, sample, log1p);
      scaler := Some(Scaler(matrix.cols));
      if |matrix.cells| == 0 {
        return EmptyMatrix;
      }
      var k := Rank(|matrix.cells|, matrix.cols);
      svdModel := Some(Svd(k));
      if k < 1 {
        return InvalidComponents(k);
      }
      userFeatures := Some(reduce(matrix, k));
      outcome := Trained;
    }

    /** `get_recommendations`; `None` stands for an exception. */
    method GetRecommendations(userId: int, n: int, similarity: Similarity) returns (r: Option<seq<Scored>>)
      ensures r == Recommend(State(), userId, n, similarity)
    {
      if userId !in userMapping {
        r := GetPopularItems(n);
        return;
      }
      var u := userMapping[userId];
      if userFeatures.None? || userItemMatrix.None? {
        return None;
      }
      var features := userFeatures.value;
      var m := userItemMatrix.value;
      if u >= |features| {
        return None;
      }
      var sims := similarity(features[u], features);
      if !(InRows(m, Neighbours(sims)) && u < |m.cells|) {
        return None;
      }
      r := RecommendKnown(m, sims, u, reverseItemMapping, n);
    }

    /** `get_popular_items`; `None` stands for an exception. */
    method GetPopularItems(n: int) returns (r: Option<seq<Scored>>)
      ensures r == PopularFrom(State(), n)
    {
      if userItemMatrix.None? {
        return None;
      }
      r := Popular(userItemMatrix.value, reverseItemMapping, n);
    }

    /** `save_model` at time `now`: every field plus the time stamp; `None`
        when the features were never assigned (`AttributeError`). */
    method SaveModel(now: string) returns (saved: Option<SavedModel>)
      ensures saved.Some? <==> userFeatures.Some?
      ensures saved.Some? ==> saved.value.artifact == State() && saved.value.trainedAt == Some(now)
    {
      if userFeatures.None? {
        return None;
      }
      saved := Some(SavedModel(State(), Some(now)));
    }

    /** `load_model`: restores the eight fields and drops the time stamp. */
    method LoadModel(saved: SavedModel)
      modifies this
      ensures State() == saved.artifact
    {
      svdModel := saved.artifact.svdModel;
      scaler := saved.artifact.scaler;
      userFeatures := saved.artifact.userFeatures;
      userMapping := saved.artifact.userMapping;
      itemMapping := saved.artifact.itemMapping;
      reverseUserMapping := saved.artifact.reverseUserMapping;
      reverseItemMapping := saved.artifact.reverseItemMapping;
      userItemMatrix := saved.artifact.userItemMatrix;
    }
  }

  /** Saving one model and loading the result into another makes the second
      recommend exactly as the first. */
  method SaveLoadRoundTrip(source: RecommendationModel, target: RecommendationModel, now: string,
                           userId: int, n: int, similarity: Similarity)
    returns (before: Option<seq<Scored>>, after: Option<seq<Scored>>)
    requires source.userFeatures.Some?
    modifies target
    ensures before == after
  {
    before := source.GetRecommendations(userId, n, similarity);
    var saved := source.SaveModel(now);
    target.LoadModel(saved.value);
    after := target.GetRecommendations(userId, n, similarity);
  }
}
