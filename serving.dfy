/** The serving API's `RecommendationAPI`: a model slot filled once, on first
    use, with the stored artifact or with a dummy model, and the
    recommendation and popularity answers computed from it, each with its
    fallback. The request handlers' parameter checks sit on top. */
module Serving {
  import opened Common
  import opened Interactions
  import opened Recommender
  import opened Trainer

  /** The dummy model's popular product ids. */
  const DUMMY_POPULAR: seq<int> := [2001, 2002, 2003, 2004, 2005]

  /** The first product id of the fallback popularity list. */
  const FALLBACK_FIRST_ID: int := 2001

  /** What the slot holds once loaded: the dummy model (its popular ids and
      creation time) or the stored artifact with its `trained_at`. */
  datatype ServedModel =
    | Dummy(popularItems: seq<int>, trainedAt: string)
    | Real(artifact: Artifact, trainedAt: string)

  /** The model blob in storage: absent, present but not loadable (download,
      unpickling or a missing key raised), or loadable. */
  datatype Blob = Missing | Unreadable | Stored(saved: SavedModel)

  /** The score given to position `i` of the dummy and fallback lists. */
  function PositionScore(i: nat): real {
    1.0 - i as real * 0.1
  }

  /** The dummy answer: the first n popular ids, scored by position. */
  function DummyRanking(items: seq<int>, n: int): (r: seq<Scored>)
    ensures |r| == |Head(items, n)|
    ensures forall i :: 0 <= i < |r| ==> r[i].productId == items[i] && r[i].score == PositionScore(i)
    ensures forall p, q :: 0 <= p < q < |r| ==> r[p].score > r[q].score
  {
    var shown := Head(items, n);
    seq(|shown|, i requires 0 <= i < |shown| => Scored(shown[i], PositionScore(i)))
  }

  /** The answer when the real popularity computation raises: ids 2001,
      2002, ... for every one of the n positions. */
  function FallbackRanking(n: int): (r: seq<Scored>)
    ensures |r| == Max(0, n)
    ensures forall i :: 0 <= i < |r| ==> r[i].productId == FALLBACK_FIRST_ID + i && r[i].score == PositionScore(i)
    ensures forall p, q :: 0 <= p < q < |r| ==> r[p].score > r[q].score
  {
    seq(Max(0, n), i requires 0 <= i < Max(0, n) => Scored(FALLBACK_FIRST_ID + i, PositionScore(i)))
  }

  /** Up to five positions the fallback list is the dummy model's list;
      beyond five it keeps going where the dummy list stops. */
  lemma FallbackExtendsDummy(n: int)
    ensures 0 <= n <= |DUMMY_POPULAR| ==> FallbackRanking(n) == DummyRanking(DUMMY_POPULAR, n)
    ensures n > |DUMMY_POPULAR| ==> DummyRanking(DUMMY_POPULAR, n) == FallbackRanking(|DUMMY_POPULAR|)
    ensures n > |DUMMY_POPULAR| ==> FallbackRanking(|DUMMY_POPULAR|) < FallbackRanking(n)
  {
    if n >= 0 {
      var k := Min(n, |DUMMY_POPULAR|);
      var f := FallbackRanking(k);
      var d := DummyRanking(DUMMY_POPULAR, n);
      assert forall i :: 0 <= i < |DUMMY_POPULAR| ==> DUMMY_POPULAR[i] == FALLBACK_FIRST_ID + i;
      assert forall i :: 0 <= i < k ==> d[i] == f[i];
      if n > |DUMMY_POPULAR| {
        var g := FallbackRanking(n);
        assert forall i :: 0 <= i < k ==> g[i] == f[i];
      }
    }
  }

  /** The model `load_model` settles on when the slot is empty. */
  function Loaded(blob: Blob, now: string): ServedModel {
    match blob
    case Stored(saved) => Real(saved.artifact, saved.trainedAt.GetOr("unknown"))
    case _ => Dummy(DUMMY_POPULAR, now)
  }

  /** `get_popular_items` on the loaded model. */
  function PopularFor(model: ServedModel, n: int): (r: seq<Scored>)
    ensures model.Dummy? ==> r == DummyRanking(model.popularItems, n)
    ensures model.Real? && PopularFrom(model.artifact, n).None? ==> r == FallbackRanking(n)
    ensures model.Real? && PopularFrom(model.artifact, n).Some? ==> r == PopularFrom(model.artifact, n).value
  {
    match model
    case Dummy(items, _) => DummyRanking(items, n)
    case Real(a, _) =>
      match PopularFrom(a, n)
      case Some(r) => r
      case None => FallbackRanking(n)
  }

  /** `get_recommendations` on the loaded model: the dummy list, popularity
      for an unknown user id, and popularity again when the neighbour path
      raises. */
  function RecommendFor(model: ServedModel, userId: int, n: int, similarity: Similarity): seq<Scored> {
    match model
    case Dummy(items, _) => DummyRanking(items, n)
    case Real(a, _) =>
      if userId !in a.userMapping then PopularFor(model, n)
      else
        match Personalised(a, userId, n, similarity)
        case Some(r) => r
        case None => PopularFor(model, n)
  }

  /** Whatever the model, the popularity answer has at most n entries, and
      exactly n when the real computation raised. */
  lemma PopularForAtMostN(model: ServedModel, n: int)
    requires n >= 0
    ensures |PopularFor(model, n)| <= n
    ensures model.Real? && PopularFrom(model.artifact, n).None? ==> |PopularFor(model, n)| == n
  {
    if model.Real? && model.artifact.userItemMatrix.Some? {
      PopularRankedSpec(model.artifact.userItemMatrix.value, n);
    }
  }

  /** Whatever the model, user and similarity, a recommendation answer has
      at most n entries. */
  lemma RecommendForAtMostN(model: ServedModel, userId: int, n: int, similarity: Similarity)
    requires n >= 0
    ensures |RecommendFor(model, userId, n, similarity)| <= n
  {
    PopularForAtMostN(model, n);
    if model.Real? && userId in model.artifact.userMapping {
      PersonalisedAtMostN(model.artifact, userId, n, similarity);
    }
  }

  /** On the dummy model every user gets the popularity answer: the first
      min(n, 5) of the ids 2001..2005, scored 1.0, 0.9, ... by position. */
  lemma DummyAnswers(trainedAt: string, userId: int, n: int, similarity: Similarity)
    requires n >= 0
    ensures var model := Dummy(DUMMY_POPULAR, trainedAt);
      var r := RecommendFor(model, userId, n, similarity);
      && r == PopularFor(model, n)
      && |r| == Min(n, |DUMMY_POPULAR|)
      && forall i :: 0 <= i < |r| ==> r[i] == Scored(FALLBACK_FIRST_ID + i, PositionScore(i))
  {
    var r := DummyRanking(DUMMY_POPULAR, n);
    FallbackExtendsDummy(n);
    assert forall i :: 0 <= i < |r| ==> r[i] == FallbackRanking(Min(n, |DUMMY_POPULAR|))[i];
  }

  /** On a fitted artifact no fallback fires: the API answers exactly as the
      trainer's `get_recommendations` does. */
  lemma RealAnswersAsTrainer(a: Artifact, trainedAt: string, userId: int, n: int, similarity: Similarity)
    requires Fitted(a) && OnePerRow(similarity)
    ensures Recommend(a, userId, n, similarity).Some?
    ensures RecommendFor(Real(a, trainedAt), userId, n, similarity) == Recommend(a, userId, n, similarity).value
  {
    if userId in a.userMapping {
      KnownUserRecommendations(a, userId, n, similarity);
    } else {
      UnknownUserGetsPopular(a, userId, n, similarity);
    }
  }

  /** `/model-info`'s answer; `InfoError` stands for the exception raised
      when the artifact lacks its matrix or its SVD. */
  datatype ModelInfo =
    | DummyInfo(trainedAt: string)
    | RealInfo(trainedAt: string, nUsers: nat, nItems: nat, rows: nat, cols: nat, nComponents: int)
    | InfoError

  function Describe(model: ServedModel): (info: ModelInfo)
    ensures info.DummyInfo? <==> model.Dummy?
    ensures info.RealInfo? <==> model.Real? && model.artifact.userItemMatrix.Some? && model.artifact.svdModel.Some?
    ensures info.RealInfo? ==>
      var a := model.artifact;
      && info.trainedAt == model.trainedAt
      && info.nUsers == |a.userMapping| && info.nItems == |a.itemMapping|
      && info.rows == |a.userItemMatrix.value.cells| && info.cols == a.userItemMatrix.value.cols
      && info.nComponents == a.svdModel.value.nComponents
  {
    match model
    case Dummy(_, trainedAt) => DummyInfo(trainedAt)
    case Real(a, trainedAt) =>
      match (a.userItemMatrix, a.svdModel)
      case (Some(m), Some(svd)) =>
        RealInfo(trainedAt, |a.userMapping|, |a.itemMapping|, |m.cells|, m.cols, svd.nComponents)
      case _ => InfoError
  }

  const DEFAULT_RECOMMENDATIONS: int := 5
  const MAX_RECOMMENDATIONS: int := 20
  const DEFAULT_POPULAR: int := 10
  const MAX_POPULAR: int := 50

  /** Why a request is answered with status 400. */
  datatype Rejection = UserIdRequired | CountOutOfRange

  /** A query parameter read with `type=int`: `None` when it is absent or not
      an integer, in which case the default applies. */
  type IntArg = Option<int>

  datatype Checked = Accepted(userId: int, n: int) | Rejected(reason: Rejection)

  /** `/recommend`'s checks: a present, non-zero `user_id` and a count
      (default 5) in 1..20. */
  function RecommendParams(userArg: IntArg, nArg: IntArg): (c: Checked)
    ensures c.Accepted? <==>
      userArg.Some? && userArg.value != 0 && 1 <= nArg.GetOr(DEFAULT_RECOMMENDATIONS) <= MAX_RECOMMENDATIONS
    ensures c.Accepted? ==> c.userId == userArg.value && c.n == nArg.GetOr(DEFAULT_RECOMMENDATIONS)
    ensures c == Rejected(UserIdRequired) <==> userArg.None? || userArg.value == 0
  {
    var n := nArg.GetOr(DEFAULT_RECOMMENDATIONS);
    if userArg.None? || userArg.value == 0 then Rejected(UserIdRequired)
    else if n <= 0 || n > MAX_RECOMMENDATIONS then Rejected(CountOutOfRange)
    else Accepted(userArg.value, n)
  }

  /** `/popular`'s check: a count (default 10) in 1..50. */
  function PopularParams(nArg: IntArg): (c: Option<int>)
    ensures c.Some? <==> 1 <= nArg.GetOr(DEFAULT_POPULAR) <= MAX_POPULAR
    ensures c.Some? ==> c.value == nArg.GetOr(DEFAULT_POPULAR)
  {
    var n := nArg.GetOr(DEFAULT_POPULAR);
    if n <= 0 || n > MAX_POPULAR then None else Some(n)
  }

  /** A response body, apart from product details and time stamps. */
  datatype Response =
    | RecommendBody(userId: int, recommendations: seq<Scored>, count: nat)
    | PopularItemsBody(popularItems: seq<Scored>, count: nat)
    | Info(info: ModelInfo)
    | BadRequest(reason: Rejection)

  class RecommendationAPI {
    var model: Option<ServedModel>

    constructor()
      ensures model == None
    {
      model := None;
    }

    /** `load_model`: a filled slot is returned as it is; otherwise the slot
        is filled from storage, or with the dummy when the blob is missing or
        cannot be loaded. */
    method LoadModel(blob: Blob, now: string) returns (served: ServedModel)
      modifies this
      ensures old(model).Some? ==> served == old(model).value && model == old(model)
      ensures old(model).None? ==> served == Loaded(blob, now) && model == Some(served)
    {
      if model.Some? {
        return model.value;
      }
      match blob
      case Missing =>
        served := CreateDummyModel(now);
      case Unreadable =>
        served := CreateDummyModel(now);
      case Stored(saved) =>
        served := Real(saved.artifact, saved.trainedAt.GetOr("unknown"));
        model := Some(served);
    }

    /** `create_dummy_model` at time `now`. */
    method CreateDummyModel(now: string) returns (served: ServedModel)
      modifies this
      ensures served == Dummy(DUMMY_POPULAR, now) && model == Some(served)
    {
      served := Dummy(DUMMY_POPULAR, now);
      model := Some(served);
    }

    /** `get_popular_items`. */
    method GetPopularItems(n: int, blob: Blob, now: string) returns (r: seq<Scored>)
      modifies this
      ensures model == (if old(model).Some? then old(model) else Some(Loaded(blob, now)))
      ensures r == PopularFor(model.value, n)
    {
      var served := LoadModel(blob, now);
      match served
      case Dummy(items, _) =>
        r := DummyRanking(items, n);
      case Real(a, _) =>
        var ranked: Option<seq<Scored>> := None;
        if a.userItemMatrix.Some? {
          ranked := Popular(a.userItemMatrix.value, a.reverseItemMapping, n);
        }
        if ranked.None? {
          r := FallbackRanking(n);
        } else {
          r := ranked.value;
        }
    }

    /** `get_recommendations`. */
    method GetRecommendations(userId: int, n: int, blob: Blob, now: string, similarity: Similarity)
      returns (r: seq<Scored>)
      modifies this
      ensures model == (if old(model).Some? then old(model) else Some(Loaded(blob, now)))
      ensures r == RecommendFor(model.value, userId, n, similarity)
    {
      var served := LoadModel(blob, now);
      match served
      case Dummy(items, _) =>
        r := DummyRanking(items, n);
      case Real(a, _) =>
        if userId !in a.userMapping {
          r := GetPopularItems(n, blob, now);
          return;
        }
        var u := a.userMapping[userId];
        if a.userFeatures.None? || a.userItemMatrix.None? || u >= |a.userFeatures.value| {
          r := GetPopularItems(n, blob, now);
          return;
        }
        var features := a.userFeatures.value;
        var m := a.userItemMatrix.value;
        var sims := similarity(features[u], features);
        if !(InRows(m, Neighbours(sims)) && u < |m.cells|) {
          r := GetPopularItems(n, blob, now);
          return;
        }
        var found := RecommendKnown(m, sims, u, a.reverseItemMapping, n);
        assert found == Personalised(a, userId, n, similarity);
        if found.None? {
          r := GetPopularItems(n, blob, now);
        } else {
          r := found.value;
        }
    }
  }

  /** The `/recommend` handler: the parameter checks, then the
      recommendations and their count. */
  method HandleRecommend(api: RecommendationAPI, userArg: IntArg, nArg: IntArg, blob: Blob, now: string,
                         similarity: Similarity) returns (resp: Response)
    modifies api
    ensures RecommendParams(userArg, nArg).Rejected? ==>
      resp == BadRequest(RecommendParams(userArg, nArg).reason) && api.model == old(api.model)
    ensures RecommendParams(userArg, nArg).Accepted? ==>
      api.model == (if old(api.model).Some? then old(api.model) else Some(Loaded(blob, now)))
    ensures RecommendParams(userArg, nArg).Accepted? ==>
      api.model.Some? && resp.RecommendBody? && resp.userId == userArg.value
      && resp.recommendations == RecommendFor(api.model.value, userArg.value, nArg.GetOr(DEFAULT_RECOMMENDATIONS), similarity)
      && resp.count == |resp.recommendations| <= MAX_RECOMMENDATIONS
  {
    var checked := RecommendParams(userArg, nArg);
    if checked.Rejected? {
      return BadRequest(checked.reason);
    }
    var recs := api.GetRecommendations(checked.userId, checked.n, blob, now, similarity);
    RecommendForAtMostN(api.model.value, checked.userId, checked.n, similarity);
    resp := RecommendBody(checked.userId, recs, |recs|);
  }

  /** The `/popular` handler: the range check, then the popular items and
      their count. */
  method HandlePopular(api: RecommendationAPI, nArg: IntArg, blob: Blob, now: string) returns (resp: Response)
    modifies api
    ensures PopularParams(nArg).None? ==> resp == BadRequest(CountOutOfRange) && api.model == old(api.model)
    ensures PopularParams(nArg).Some? ==>
      api.model == (if old(api.model).Some? then old(api.model) else Some(Loaded(blob, now)))
    ensures PopularParams(nArg).Some? ==>
      api.model.Some? && resp.PopularItemsBody?
      && resp.popularItems == PopularFor(api.model.value, nArg.GetOr(DEFAULT_POPULAR))
      && resp.count == |resp.popularItems| <= MAX_POPULAR
  {
    var checked := PopularParams(nArg);
    if checked.None? {
      return BadRequest(CountOutOfRange);
    }
    var items := api.GetPopularItems(checked.value, blob, now);
    PopularForAtMostN(api.model.value, checked.value);
    resp := PopularItemsBody(items, |items|);
  }

  /** The `/model-info` handler. */
  method HandleModelInfo(api: RecommendationAPI, blob: Blob, now: string) returns (resp: Response)
    modifies api
    ensures api.model == (if old(api.model).Some? then old(api.model) else Some(Loaded(blob, now)))
    ensures api.model.Some? && resp == Info(Describe(api.model.value))
    ensures resp.info.DummyInfo? <==> api.model.value.Dummy?
  {
    var served := api.LoadModel(blob, now);
    resp := Info(Describe(served));
  }
}
