# Recommendation engine pipeline — a Dafny model

This project models the core of a small recommendation engine. The engine has three parts.

- **The trainer** (`RecommendationModel`) builds the training data from purchase records:
  - dense user and item indices with reverse maps;
  - a user × item score matrix, where each score is `purchase_count × log1p(avg_price)`.

  It then picks the SVD rank and recommends products. A known user gets products bought by up to ten neighbours: the users at positions 1–10 of the similarity order, after the first position is dropped, which is usually, but not always, the user themselves. Each product's score is weighted by similarity. Anything the user already bought is excluded, and the list is sorted by score and cut to `n`. An unknown user gets the most popular products, ranked by column sum. The trainer also saves and loads its eight fields.
- **The serving API** (`RecommendationAPI`) has a one-slot model cache, filled on first use. It holds the stored model or a dummy model with products 2001–2005. The API repeats the trainer's recommendation and popularity logic, and adds:
  - the dummy scores `1.0 − 0.1·i`;
  - the fallbacks when the computation raises;
  - the query-parameter checks of `/recommend`, `/popular` and `/model-info`.
- **The streaming pipeline** has two functions:
  - `ParseTransactionFn` turns a CSV line into a row, or into nothing. It models Java's `trim` and `split(",")` exactly, and `Integer.parseInt` for ASCII digits.
  - `AnalyzeUserBehaviorFn` tags a row in place with a value category.

Modules:

- `Common`: Option, Python's `[:n]` slicing, and pandas' `unique`.
- `Ranking`: a stable descending sort with its order, permutation, stability and top-k lemmas.
- `Interactions`: id maps and the pivoted matrix.
- `Recommender`: the neighbour and popularity rankings, shared by the trainer and the API.
- `Trainer`: the `RecommendationModel` class.
- `Serving`: the `RecommendationAPI` class and the handlers.
- `Pipeline`: the two pipeline steps and the `TableRow` class.

Numerics such as cosine similarity, SVD, `log1p` and `Double.parseDouble` are function parameters, and the clock is a parameter too. Scores are `real`.

## Model

| member | source | states |
|---|---|---|
| Common.Head | vertex-ai/training/trainer.py:188 | `s[:n]` / `head(n)` is a prefix of `s` of length `min(n, |s|)`, or `max(0, |s|+n)` for negative `n` |
| Common.Unique | vertex-ai/training/trainer.py:68-69 | `unique()` holds no duplicates and exactly the values of its input |
| Common.UniqueFirstSeen | vertex-ai/training/trainer.py:68-69 | `unique()` lists values in order of first appearance |
| Interactions.IndexMapBijection | vertex-ai/training/trainer.py:71-74 | the id maps and reverse maps are mutually inverse bijections onto `0..k-1`, and the map's keys are exactly the ids |
| Interactions.IndexFollowsFirstSeen | vertex-ai/training/trainer.py:68-72 | index `x` < index `y` exactly when `x` first appears before `y` |
| Interactions.IndexMap | vertex-ai/training/trainer.py:71-72 | defined by its body; specified by `IndexMapBijection` and `IndexFollowsFirstSeen` |
| Interactions.ReverseMap | vertex-ai/training/trainer.py:73-74 | defined by its body; specified by `IndexMapBijection` |
| Interactions.Pivot | vertex-ai/training/trainer.py:88-93 | the pivot has the given number of rows and columns; its cell values are stated by `MatrixCellIsMean` |
| Interactions.CellTotalsSingle | vertex-ai/training/trainer.py:88-93 | a cell hit by exactly one record holds that record's score |
| Interactions.CellSumAbsent | vertex-ai/training/trainer.py:92 | a cell hit by no record sums to 0 (`fill_value=0`) |
| Interactions.MatrixData | vertex-ai/training/trainer.py:77-83 | one matrix entry per record |
| Interactions.RecordsMapped | vertex-ai/training/trainer.py:78-80 | every record's user and product id is a key of its map, with an index below the number of distinct users or products |
| Interactions.MatrixShape | vertex-ai/training/trainer.py:88-93 | one row per distinct user, one column per distinct product |
| Interactions.BuildMatrix | vertex-ai/training/trainer.py:67-93 | defined by its body; specified by `MatrixShape`, `MatrixCellIsMean`, `MatrixCellIsScore`, `MatrixAbsentPairIsZero` and `MatrixNonNegative` |
| Interactions.CellOfRecord | vertex-ai/training/trainer.py:78-83 | entry `j` lands on cell `(um[x], im[y])` exactly when record `j` is for user `x` and product `y` |
| Interactions.IndexSeparates | vertex-ai/training/trainer.py:71-72 | an id's index is below the number of ids and no other id has it |
| Interactions.CellTotalsArePairTotals | vertex-ai/training/trainer.py:77-93 | the `matrix_data` entries in the cell of (x, y) sum to the scores of the records for (x, y), and there are as many of them as records |
| Interactions.MatrixCellIsMean | vertex-ai/training/trainer.py:77-93 | the cell of every (user, product) pair is the mean `purchase_count × log1p(avg_price)` of that pair's records, duplicates included, and 0 when there is none |
| Interactions.MatrixCellIsScore | vertex-ai/training/trainer.py:78-93 | with one record per (user, product), its cell equals `purchase_count × log1p(avg_price)` |
| Interactions.MatrixAbsentPairIsZero | vertex-ai/training/trainer.py:92 | a (user, product) pair with no record holds 0 |
| Interactions.MatrixNonNegative | vertex-ai/training/trainer.py:82 | with non-negative counts, prices and `log1p`, every cell is non-negative |
| Ranking.SortDesc | vertex-ai/training/trainer.py:184-188 | the sort keeps the length and is non-increasing |
| Ranking.SortDescPermutes | vertex-ai/training/trainer.py:184-188 | the sort is a permutation of its input |
| Ranking.SortDescMembers | vertex-ai/training/trainer.py:184-188 | an element is in the sorted list exactly when it is in the input |
| Ranking.SortDescDistinctKeys | vertex-ai/training/trainer.py:184-188 | sorting keeps keys distinct |
| Ranking.SortDescStable | vertex-ai/training/trainer.py:184-188 | equal scores keep their input order (Python's `sorted` is stable) |
| Ranking.TopCut | vertex-ai/training/trainer.py:184-188 | every element cut off by `[:n]` scores no more than every element kept |
| Recommender.ArgsortDesc | vertex-ai/training/trainer.py:166 | `argsort(...)[::-1]` is a permutation of the user indices in non-increasing similarity |
| Recommender.Neighbours | vertex-ai/training/trainer.py:166 | `[1:11]` keeps `min(11, #users) − 1` distinct in-range users in descending similarity, never the first position of the order, each at least as similar as any user outside the first 11 |
| Recommender.DropFirstFacts | vertex-ai/training/trainer.py:166 | dropping position 0 of a descending order and keeping up to position `hi` gives distinct, in-range, descending indices other than the dropped one, none less similar than an index past `hi` |
| Recommender.SelfNotNeighbourWhenStrictMax | vertex-ai/training/trainer.py:166 | a user strictly more similar to themselves than to anyone else is skipped |
| Recommender.SelfNeighbourOnTie | vertex-ai/training/trainer.py:166 | on a tie, position 0 can be another user and the user themselves is kept as a neighbour |
| Recommender.PurchasedMembers | vertex-ai/training/trainer.py:173-180 | a product is purchased exactly when its score in the row is > 0 |
| Recommender.HitsMembers | vertex-ai/training/trainer.py:170-175 | a product is a candidate key exactly when some neighbour bought it |
| Recommender.NeighbourScoreOffHits | vertex-ai/training/trainer.py:173-176 | a product no neighbour bought gets no score |
| Recommender.PopMembers | vertex-ai/training/trainer.py:181 | `pop` removes exactly the given key |
| Recommender.UnboughtMembers | vertex-ai/training/trainer.py:179-181 | after the removal loop, exactly the keys the user did not buy remain |
| Recommender.Candidates | vertex-ai/training/trainer.py:169-181 | defined by its body; specified by `CandidatesSpec` and computed by `CollectCandidates` |
| Recommender.CandidatesSpec | vertex-ai/training/trainer.py:169-181 | candidates are distinct, are exactly the products a neighbour bought and the user did not, and each scores Σ score × similarity over the neighbours |
| Recommender.AddRow | vertex-ai/training/trainer.py:171-176 | one neighbour's row adds its purchases to the keys in dict order and adds score × similarity to their totals |
| Recommender.DropPurchased | vertex-ai/training/trainer.py:179-181 | the removal loop drops the user's purchases and keeps the other totals |
| Recommender.TalliedStep | vertex-ai/training/trainer.py:170-176 | each outer iteration keeps the keys and totals equal to those of the neighbours seen so far |
| Recommender.CollectCandidates | vertex-ai/training/trainer.py:169-181 | the dict loops compute exactly the candidate list |
| Recommender.RankedFor | vertex-ai/training/trainer.py:184-188 | defined by its body; specified by `RankedForSpec`, `RankedForKeepsBest` and `RankedForKeepsTieOrder` |
| Recommender.RankedForSpec | vertex-ai/training/trainer.py:184-188 | the top-n has length `min(n, #candidates)`, is non-increasing, has distinct keys, and each entry is eligible with its neighbour score |
| Recommender.RankedForKeepsBest | vertex-ai/training/trainer.py:184-188 | an eligible product left out scores no more than any returned one |
| Recommender.RankedForKeepsTieOrder | vertex-ai/training/trainer.py:184-188 | tied candidates keep their dict-insertion order |
| Recommender.ToProducts | vertex-ai/training/trainer.py:191-197 | mapping back succeeds exactly when every index is in the reverse map, and keeps length, order and scores |
| Recommender.ProductEntries | vertex-ai/training/trainer.py:191-197 | the result loop computes that mapping, raising at a missing index |
| Recommender.BijectionInjective | vertex-ai/training/trainer.py:74 | the reverse item map is injective |
| Recommender.ProductsDistinct | vertex-ai/training/trainer.py:191-197 | distinct indices map to distinct product ids |
| Recommender.Recommendations | vertex-ai/training/trainer.py:159-199 | defined by its body; specified by `RecommendationsSucceed`, `RecommendationsAtMostN` and `Trainer.KnownUserRecommendations` |
| Recommender.RecommendKnown | vertex-ai/training/trainer.py:159-199 | the known-user path computes the specified recommendation |
| Recommender.RecommendationsSucceed | vertex-ai/training/trainer.py:191-197 | with a reverse map covering every column, the known-user path cannot fail, and its ids are distinct when the map is injective |
| Recommender.RecommendationsAtMostN | vertex-ai/training/trainer.py:184-188 | the known-user path returns at most `n` products |
| Recommender.PopularRanked | vertex-ai/training/trainer.py:204-207 | defined by its body; specified by `PopularRankedSpec` and `PopularRankedKeepsBest` |
| Recommender.PopularItems | vertex-ai/training/trainer.py:201-214 | defined by its body; specified by `PopularItemsSucceed` and computed by `Popular` |
| Recommender.PopularRankedSpec | vertex-ai/training/trainer.py:204 | popularity has length `min(n, #items)`, is non-increasing, has distinct columns, and each score is its column sum |
| Recommender.PopularRankedKeepsBest | vertex-ai/training/trainer.py:204-207 | an item left out sums to no more than any returned one |
| Recommender.Popular | vertex-ai/training/trainer.py:201-214 | the popularity loop computes the specified list |
| Recommender.PopularItemsSucceed | vertex-ai/training/trainer.py:204-214 | with a covering reverse map, popularity succeeds with `min(n, #items)` entries and distinct ids |
| Trainer.Rank | vertex-ai/training/trainer.py:139 | `n_components` is at most 50 and below both dimensions, and equals one of 50, rows−1 or cols−1 |
| Trainer.RankValid | vertex-ai/training/trainer.py:139-141 | the rank is at least 1 exactly when both dimensions are at least 2 |
| Trainer.TrainingRecords | vertex-ai/training/trainer.py:60-65 | defined by its body: the query result, or the sample when the query returns no rows |
| Trainer.Prepared | vertex-ai/training/trainer.py:67-93 | defined by its body; specified by `PreparedFitted` and the matrix lemmas of `BuildMatrix` |
| Trainer.PopularFrom | vertex-ai/training/trainer.py:201-214 | defined by its body; specified by `UnknownUserGetsPopular` |
| Trainer.Personalised | vertex-ai/training/trainer.py:159-199 | defined by its body; specified by `PersonalisedAtMostN` and `KnownUserRecommendations` |
| Trainer.Recommend | vertex-ai/training/trainer.py:153-199 | defined by its body; specified by `UnknownUserGetsPopular` and `KnownUserRecommendations` |
| Trainer.PreparedFitted | vertex-ai/training/trainer.py:67-144 | after preparation and training, both id maps are bijections onto the matrix dimensions |
| Trainer.PersonalisedAtMostN | vertex-ai/training/trainer.py:184-188 | the known-user path returns at most `n` products |
| Trainer.MappedBack | vertex-ai/training/trainer.py:191-197 | under the bijective maps, each returned id maps back to its index with its score, and distinct indices give distinct ids |
| Trainer.UnknownUserGetsPopular | vertex-ai/training/trainer.py:155-157 | an unknown user gets exactly the popular items: `min(n, #items)` distinct ids, non-increasing, each scored by its column sum |
| Trainer.KnownUserRecommendations | vertex-ai/training/trainer.py:153-199 | a known user gets at most `n` distinct ids with non-increasing scores; each was bought by a neighbour, not by the user, and scores Σ score × similarity |
| Trainer.MatrixEntries | vertex-ai/training/trainer.py:77-83 | the `matrix_data` loop yields one scored entry per record |
| Trainer.RecommendationModel.constructor | vertex-ai/training/trainer.py:30-37 | every field starts empty |
| Trainer.RecommendationModel.PrepareData | vertex-ai/training/trainer.py:39-96 | uses the sample when the query is empty, sets the four maps and the matrix, and returns the matrix |
| Trainer.RecommendationModel.Train | vertex-ai/training/trainer.py:127-151 | prepares the data and sets the scaler; a matrix without rows raises before the SVD is set; otherwise it sets the SVD, and sets the features when the rank is at least 1 or raises with the features untouched |
| Trainer.RecommendationModel.GetRecommendations | vertex-ai/training/trainer.py:153-199 | returns the specified recommendation for the current fields |
| Trainer.RecommendationModel.GetPopularItems | vertex-ai/training/trainer.py:201-214 | returns the specified popularity list for the current fields |
| Trainer.RecommendationModel.SaveModel | vertex-ai/training/trainer.py:216-232 | saves the eight fields plus the time stamp; it fails when `user_features` was never set |
| Trainer.RecommendationModel.LoadModel | vertex-ai/training/trainer.py:234-246 | restores exactly the eight saved fields |
| Trainer.SaveLoadRoundTrip | vertex-ai/training/trainer.py:216-246 | a model loaded from a save recommends exactly what the saved model did |
| Serving.DummyRanking | app-engine/main.py:99-102 | the dummy list is the first `n` popular ids in order; position `i` scores `1.0 − 0.1·i`, strictly decreasing |
| Serving.FallbackRanking | app-engine/main.py:186-189 | the fallback has exactly `max(0, n)` entries; position `i` has id `2001+i` and score `1.0 − 0.1·i`, strictly decreasing |
| Serving.FallbackExtendsDummy | app-engine/main.py:186-189 | the dummy list and the fallback agree up to 5 entries, and beyond that the fallback extends it |
| Serving.Loaded | app-engine/main.py:45-80 | defined by its body: the stored artifact with its `trained_at` (or `unknown`), else the dummy; specified through `RecommendationAPI.LoadModel` |
| Serving.PopularFor | app-engine/main.py:159-189 | dummy list on the dummy model; on the real model, the popularity list or the fallback when it raises |
| Serving.RecommendFor | app-engine/main.py:93-157 | defined by its body; specified by `RecommendForAtMostN`, `DummyAnswers` and `RealAnswersAsTrainer` |
| Serving.PopularForAtMostN | app-engine/main.py:159-189 | popularity never exceeds `n`, and the fallback has exactly `n` entries |
| Serving.RecommendForAtMostN | app-engine/main.py:93-157 | recommendations never exceed `n` |
| Serving.DummyAnswers | app-engine/main.py:97-102 | on the dummy model both answers are the same `min(n, 5)` ids `2001+i` with score `1.0 − 0.1·i` |
| Serving.RealAnswersAsTrainer | app-engine/main.py:104-153 | on a fitted real model the API never falls back and answers exactly as the trainer does |
| Serving.Describe | app-engine/main.py:265-291 | reports `dummy` exactly for the dummy model; otherwise the user and item counts, matrix shape and components, or an error when a field is missing |
| Serving.RecommendParams | app-engine/main.py:298-311 | accepts exactly a non-zero `user_id` with `1 ≤ n ≤ 20` (default 5), and says why it rejects |
| Serving.PopularParams | app-engine/main.py:343-349 | accepts exactly `1 ≤ n ≤ 50` (default 10) |
| Serving.RecommendationAPI.constructor | app-engine/main.py:35-36 | the model slot starts empty |
| Serving.RecommendationAPI.LoadModel | app-engine/main.py:40-80 | a filled slot is returned unchanged; an empty one is filled with the stored model, or with the dummy when the blob is missing or unreadable |
| Serving.RecommendationAPI.CreateDummyModel | app-engine/main.py:82-91 | fills the slot with products 2001–2005 and the creation time |
| Serving.RecommendationAPI.GetPopularItems | app-engine/main.py:159-189 | loads the model once and answers with the specified popularity |
| Serving.RecommendationAPI.GetRecommendations | app-engine/main.py:93-157 | loads the model once and answers with the specified recommendation, falling back to popularity |
| Serving.HandleRecommend | app-engine/main.py:293-327 | a rejected request leaves the slot alone; an accepted one keeps a filled slot or loads an empty one, and answers with at most 20 recommendations and their count |
| Serving.HandlePopular | app-engine/main.py:338-364 | a rejected request leaves the slot alone; an accepted one keeps a filled slot or loads an empty one, and answers with at most 50 items and their count |
| Serving.HandleModelInfo | app-engine/main.py:265-285 | keeps a filled slot or loads an empty one, and describes the model, with type `dummy` exactly for the dummy |
| Pipeline.TrimStart | dataflow/src/main/java/com/example/RecommendPipeline.java:65 | the first character not ≤ ' ', scanning from the front |
| Pipeline.TrimEnd | dataflow/src/main/java/com/example/RecommendPipeline.java:65 | the last character not ≤ ' ', scanning from the back |
| Pipeline.Trim | dataflow/src/main/java/com/example/RecommendPipeline.java:65 | defined by its body; specified by `TrimFixed`, `TrimIdempotent` and `TrimKeepsNonBlank` |
| Pipeline.TrimFixed | dataflow/src/main/java/com/example/RecommendPipeline.java:65-78 | `trim` leaves a string alone exactly when it is empty or neither end is blank |
| Pipeline.TrimIdempotent | dataflow/src/main/java/com/example/RecommendPipeline.java:72-78 | trimming twice equals trimming once |
| Pipeline.TrimKeepsNonBlank | dataflow/src/main/java/com/example/RecommendPipeline.java:65 | a line with a non-blank character is not empty after `trim` |
| Pipeline.SplitAll | dataflow/src/main/java/com/example/RecommendPipeline.java:70 | splitting gives comma-free pieces that join back to the line |
| Pipeline.SplitJoin | dataflow/src/main/java/com/example/RecommendPipeline.java:70 | splitting a join of comma-free pieces gives the pieces back |
| Pipeline.DropTrailingEmpty | dataflow/src/main/java/com/example/RecommendPipeline.java:70 | `split` drops exactly the trailing empty pieces |
| Pipeline.JavaSplit | dataflow/src/main/java/com/example/RecommendPipeline.java:70 | defined by its body; specified by `SplitKeepsFields` and `EmptyLastFieldDropped` |
| Pipeline.SplitKeepsFields | dataflow/src/main/java/com/example/RecommendPipeline.java:70-71 | fields up to a non-empty one survive `split` unchanged |
| Pipeline.EmptyLastFieldDropped | dataflow/src/main/java/com/example/RecommendPipeline.java:70-71 | six fields with an empty last one split into fewer than six |
| Pipeline.ParseInt | dataflow/src/main/java/com/example/RecommendPipeline.java:74-76 | `parseInt` yields only 32-bit values |
| Pipeline.ParseShowInt | dataflow/src/main/java/com/example/RecommendPipeline.java:74-76 | a decimal numeral parses back to its value exactly when it fits in 32 bits |
| Pipeline.ParseFields | dataflow/src/main/java/com/example/RecommendPipeline.java:72-80 | a row exists exactly when the three ints and the double parse; id and timestamp are the trimmed fields 0 and 5, the ints and price are the parses of trimmed fields 1–4, the ints are 32-bit, `total_amount = quantity × price`, and `processed_time` is the clock |
| Pipeline.ParseTransaction | dataflow/src/main/java/com/example/RecommendPipeline.java:62-87 | nothing is emitted for the header, a blank line or fewer than six fields; for any other line the result is exactly the parse of its split fields |
| Pipeline.RowFields | dataflow/src/main/java/com/example/RecommendPipeline.java:72-81 | the row has exactly the eight parsed columns, each holding the parsed value |
| Pipeline.SplitWrittenLine | dataflow/src/main/java/com/example/RecommendPipeline.java:70-71 | a written line splits back into its six fields, whatever follows them |
| Pipeline.WrittenLineIsData | dataflow/src/main/java/com/example/RecommendPipeline.java:65-67 | a written line whose id is not the header is neither skipped as header nor blank |
| Pipeline.ParseWrittenLine | dataflow/src/main/java/com/example/RecommendPipeline.java:62-87 | a written transaction, with any extra fields, parses back to itself with `total_amount = quantity × price` |
| Pipeline.EmptyTimestampDropped | dataflow/src/main/java/com/example/RecommendPipeline.java:70-71 | a line whose timestamp is empty is dropped |
| Pipeline.Category | dataflow/src/main/java/com/example/RecommendPipeline.java:103-109 | `high_value` exactly above 10000, `medium_value` exactly in (5000, 10000], `low_value` exactly at or below 5000 |
| Pipeline.Analyzed | dataflow/src/main/java/com/example/RecommendPipeline.java:98-118 | defined by its body; specified by `RowCategorised` and `AnalyzeUserBehavior` |
| Pipeline.RowCategorised | dataflow/src/main/java/com/example/RecommendPipeline.java:98-112 | a parsed row is tagged with its total's category and the analysis time, and keeps every parsed column |
| Pipeline.ParsedRowsAreCategorised | dataflow/src/main/java/com/example/RecommendPipeline.java:79-112 | every emitted row is tagged with the category of quantity × price |
| Pipeline.TableRow.Get | dataflow/src/main/java/com/example/RecommendPipeline.java:98 | `get` yields the value stored under the key, or null |
| Pipeline.TableRow.constructor | dataflow/src/main/java/com/example/RecommendPipeline.java:72-80 | a new row holds exactly the given columns |
| Pipeline.TableRow.Set | dataflow/src/main/java/com/example/RecommendPipeline.java:111-112 | `set` changes only that key |
| Pipeline.AnalyzeUserBehavior | dataflow/src/main/java/com/example/RecommendPipeline.java:92-119 | the same row is emitted once: tagged when `total_amount` is a double, unchanged when the analysis throws |

## Left out

- `StandardScaler`, `TruncatedSVD` and the reconstruction MSE are floating-point library numerics. The scaler keeps only its feature count and the SVD only its component count. The user features come from a `reduce` parameter of `Train`.
- `cosine_similarity` is the `similarity` parameter, `np.log1p` is the `log1p` parameter, and `Double.parseDouble` is the `parseDouble` parameter. An exception raised inside them is not modelled. An exception on the neighbour path is modelled by the `Option` results (a missing index, or a similarity vector too short).
- Scores are exact `real`s, not IEEE doubles. Rounding and NaN are not modelled, and neither is the NaN comparison in the value category.
- Tie order: `np.argsort` and `sort_values` promise no order among equal values. The model uses the same stable sort as Python's `sorted`, so ties come in index order.
- `generate_sample_data` draws from a seeded RNG. The sample is a parameter of `PrepareData`.
- All I/O is left out:
  - BigQuery queries: the query result is a parameter;
  - GCS download and upload, `joblib`, `tempfile`: the stored blob is a parameter;
  - `upload_to_gcs` and the trainer's `main`;
  - `get_product_info` with its cache, and `include_product_info`;
  - the `/`, `/health` and `/user-profile` routes.
- `datetime.now()` and `Instant.now()` are parameters (`now`).
- Flask routing, JSON shaping and the 500 responses are left out. A query parameter is an `Option<int>`, where `None` stands for a missing value or one that is not an integer, which Flask replaces by the default.
- Concurrent requests on the shared API instance are left out.
- Pipeline.ParseInt: only ASCII digits are accepted. Java's `Character.digit` also accepts other Unicode decimal digits.
- The pipeline's `main` is left out: Beam construction, windowing, the BigQuery write and the options. cloud-functions/data-ingestion/main.py is not part of this model.
- The `processed_time` and `analysis_timestamp` values are the `now` parameters, not real clock readings.
- A pivot of no records is modelled as a 0×0 matrix.
- Interactions.Pivot follows the code for duplicate (user, product) records: `pivot_table` averages them. The query's `GROUP BY` yields one record per pair, but the sample data of `generate_sample_data` repeats pairs; `MatrixCellIsMean` states the mean for both, and `MatrixCellIsScore` is its one-record case.
