# Local restaurant recommendation, modelled in Dafny

The repository backtests restaurant recommenders on the Yelp open data set.
A preprocessor turns raw business and review records into numbered
restaurants ("feature ids": restaurants with the same feature vector share
one), numbered users and a de-duplicated reviews table. It also builds the
city maps: feature id to city, and user to cities. A `LocalRecommendar`
then replays each user's history. For a horizon `n` it takes the user's
`n` earliest ratings and uses the `n`-th timestamp as the cutoff. It infers
the user's cities from those ratings. It fits a strategy on every earlier
rating of a restaurant in those cities. Finally it scores the top-10
recommendations against the user's later ratings, by precision@k, recall@k
and the repository's own average precision@k. The strategies are:

- a popularity baseline;
- a collaborative-filtering back-end (ALS);
- a "naive hybrid" that multiplies every rating by its restaurant's review count;
- a "time-biased hybrid" that does the same on the last week of reviews only.

`evaluate_models.py` runs this for several models, rounds and seeds.

The model has one Dafny module per core file or per group of functions of
`main/preprocessor.py`:

- `Evaluation`, `ModelUtils`, `BaselineModel`, `NaiveHybrid`,
  `TimeBiasedHybrid`, `Recommendar`, `DataLoader` and `EvaluateModels`;
- `BusinessPreprocessor`, `FeaturePreprocessor`, `IdAssignment`,
  `ReviewDedup`, `CityMaps` and `MappingOutput`;
- the shared modules `Wrappers`, `Collections`, `Strings`, `Json` and `Types`.

Modelling conventions:

- **Exceptions.** A Python exception is a `Result` error whose kind
  (`KeyError`, `ValueError`, `IndexError`, ...) is the exception's class.
- **Dictionaries.** A Python `dict` is a `Dict`: a key sequence in
  insertion order plus a map, so "first-seen" orders are part of the
  contracts.
- **Frames.** A pandas frame is a sequence of rows. A prediction frame
  keeps each row's index label, because the metric loop reads that label.
- **Loops.** Each loop of the source is a `method` with a `while` loop,
  proved equal to a specification function. The properties the source
  promises are then proved as lemmas about that function.
- **Stateful objects.** The popularity baseline's `Model` object, whose
  `train` updates a field, is a `class`.

## Model

| member | source | states |
|---|---|---|
| Evaluation.Relevant | main/evaluation.py:30-31 | The relevant rows are exactly the truth rows rated at or above the threshold, in both directions. |
| Evaluation.RelevantMultiplicity | main/evaluation.py:30-31 | Each relevant truth row is kept as many times as it occurs, so duplicates count in recall's denominator. |
| Evaluation.ScoredLength | main/evaluation.py:35-37 | The loop scores the rows before the first row labelled `k`; every scored row has a different label, and the row at the stopping point carries label `k`. |
| Evaluation.EvaluateTopKForUser | main/evaluation.py:30-56 | Returns precision, recall and average precision as the metric specification defines them; it fails exactly when `k == 0` (the division by `k`). |
| Evaluation.ScoredLengthPositional | main/evaluation.py:35-37 | With positional labels the loop scores exactly the first min(k, n) rows. |
| Evaluation.ScanBounds | main/evaluation.py:39-42 | Hits are at most the rows scored; the precision sum lies between 0 and the hit count, and is positive once there is a hit. |
| Evaluation.PrecisionInUnitInterval | main/evaluation.py:44 | With positional labels and k >= 1, precision@k is defined and lies in [0, 1]. |
| Evaluation.RecallWithoutRelevantRows | main/evaluation.py:46-47 | With no relevant truth row, recall is 0 (the guarded division). |
| Evaluation.NoRelevantRows | main/evaluation.py:30-31 | When every truth rating is below the threshold, nothing is relevant. |
| Evaluation.AveragePrecisionBounds | main/evaluation.py:51-54 | Average precision is 0 without hits and lies in (0, 1] with at least one hit. |
| Evaluation.WorkedExample | main/evaluation.py:30-54 | One relevant item ranked first among three gives precision 1/3, recall 1 and average precision 1. |
| Evaluation.ExampleScan | main/evaluation.py:35-42 | The scan over that example finds one hit with precision sum 1. |
| Evaluation.SwappedLabelsExample | main/evaluation.py:35-54 | Two relevant rows labelled 1 and 0, with k = 2, give average precision 1.25: the [0, 1] bound needs positional labels. |
| ModelUtils.AllPairs | main/model/model_utils.py:19-25 | One (user, item) candidate per item, in item order. |
| ModelUtils.RemoveSeen | main/model/model_utils.py:27-32 | A candidate survives exactly when the table has no review of that (user, item) pair. |
| ModelUtils.InitUserItem | main/model/model_utils.py:19-36 | Every candidate pairs the user with an item of the table; with remove-seen, the candidates are exactly the user's unrated items. |
| ModelUtils.CandidatesCoverDistinctItems | main/model/model_utils.py:20-25 | Candidate items are distinct, cover every item of the table, and follow first-appearance order. |
| ModelUtils.RemoveSeenIsSubsequence | main/model/model_utils.py:27-32 | Removing seen pairs keeps the remaining candidates in their order. |
| ModelUtils.UnseenCandidatesAreSubsequence | main/model/model_utils.py:27-34 | The remove-seen candidates are an ordered subsequence of all candidates. |
| ModelUtils.FullyRatedUserHasNoCandidates | main/model/model_utils.py:27-32 | No unseen candidate remains exactly when the user has rated every item of the table. |
| BaselineModel.CountRows | main/model/baseline_model.py:9-10 | One count row per item, holding the item's number of reviews. |
| BaselineModel.RankRestaurantsByRates | main/model/baseline_model.py:5-11 | The ranking is sorted by decreasing review count and is a permutation of the per-item count rows. |
| BaselineModel.RankingEntries | main/model/baseline_model.py:9-11 | Each reviewed item appears exactly once in the ranking, with its review count. |
| BaselineModel.MergeRows | main/model/baseline_model.py:22 | The inner merge holds exactly the (candidate, count row) pairs on the same item. |
| BaselineModel.Relabel | main/model/baseline_model.py:22-23 | Resetting the index keeps the rows and labels them 0, 1, 2, ... |
| BaselineModel.GetPredictionRows | main/model/baseline_model.py:13-23 | The merged frame has positional labels, and it holds a row for a user and item with that item's count exactly when some candidate and some count row share the item. |
| BaselineModel.GetPredictionSorted | main/model/baseline_model.py:22-23 | A frame merged from sorted counts is sorted by decreasing score. |
| BaselineModel.RowsOfUser | main/model/baseline_model.py:63 | The selection holds exactly the rows of the given user. |
| BaselineModel.RankingIsMergedFrame | main/model/baseline_model.py:61-64 | With the model's stable tie order, the full ranking is the merged frame itself. |
| BaselineModel.ScoredCandidates | main/model/baseline_model.py:61-63 | Every predicted row belongs to the user and names a reviewed item scored by its count; with remove-seen the item is unrated by the user. |
| BaselineModel.BaselinePredictContents | main/model/baseline_model.py:61-69 | The prediction is the full ranking, or its first `k` rows when k > 0. The ranking is sorted by decreasing popularity and every row is a scored candidate of the user; with the model's stable tie order its labels are positions. |
| BaselineModel.BaselineRankingComplete | main/model/baseline_model.py:61-64 | Every candidate item appears in the full ranking. |
| BaselineModel.MorePopularRankedFirst | main/model/baseline_model.py:63-64 | A strictly more reviewed item is ranked before a less reviewed one. |
| BaselineModel.BaselinePrecisionInUnitInterval | main/model/baseline_model.py:61-69 | With the model's stable tie order, scoring a baseline prediction gives a precision in [0, 1]. |
| BaselineModel.AnySortOrderContents | main/model/baseline_model.py:61-64 | Whatever tie order `sort_values` picks, the result holds the same rows as the ranking: the user's candidates scored by review count, most reviewed first. |
| BaselineModel.UntiedRankingIsPositional | main/model/baseline_model.py:61-64 | When no two rows handed to `sort_values` share a count, every tie order returns the ranking, so the labels are positions. |
| BaselineModel.UntiedMetricsInUnitInterval | main/model/baseline_model.py:61-69 | Without tied counts, precision and average precision of any tie order's top `k` lie in [0, 1]. |
| BaselineModel.Model.constructor | main/model/baseline_model.py:33-40 | A new model holds its name and data and has no counts yet. |
| BaselineModel.Model.Train | main/model/baseline_model.py:48-52 | Training stores the popularity ranking of the model's data. |
| BaselineModel.Model.Predict | main/model/baseline_model.py:55-69 | Before training, predicting raises `AttributeError`; after, it returns the baseline prediction from the stored counts. |
| BaselineModel.TrainedPrediction | main/model/baseline_model.py:48-69 | Constructing, training and predicting gives the baseline prediction, whose rows belong to the user and carry their item's review count. |
| NaiveHybrid.ScaleByPopularity | main/model/naive_hybrid_baseline_als_model.py:23-26 | Row by row, every rating is multiplied by its item's review count. |
| NaiveHybrid.MultipliedIsScaledGroup | main/model/naive_hybrid_baseline_als_model.py:24-25 | The rows the merge contributes for one count row are that item's rows, rescaled. |
| NaiveHybrid.MergeRescaleIsGrouped | main/model/naive_hybrid_baseline_als_model.py:23-26 | The merged and rescaled table is the rescaled table grouped by the count order of its items. |
| NaiveHybrid.GroupedRowsPermutation | main/model/naive_hybrid_baseline_als_model.py:24 | Grouping the rows by a list of distinct items that covers them permutes them. |
| NaiveHybrid.RescaleIsPermutedScaling | main/model/naive_hybrid_baseline_als_model.py:23-26 | The merged table is a permutation of the row-by-row rescaled table and has as many rows as the input. |
| NaiveHybrid.ScaledRowFacts | main/model/naive_hybrid_baseline_als_model.py:25-26 | A rescaled row keeps user, item and timestamp; its rating is multiplied by the item's count and never drops when it was non-negative. |
| NaiveHybrid.RescaledRowsComeFromInput | main/model/naive_hybrid_baseline_als_model.py:23-26 | Every row of the rescaled table is an input row with its rating multiplied by its item's review count. |
| NaiveHybrid.MultiplierAtLeastOne | main/model/naive_hybrid_baseline_als_model.py:25 | A count of at least one never lowers a non-negative rating. |
| NaiveHybrid.NaiveHybridScorer | main/model/naive_hybrid_baseline_als_model.py:28-52 | The hybrid answers what the ALS back-end answers when it is fitted on the rescaled table. |
| TimeBiasedHybrid.DaysBetween | main/model/time_biased_hybrid_model.py:38-40 | The whole days between two timestamps, rounded down as `timedelta.days` rounds. |
| TimeBiasedHybrid.FirstStale | main/model/time_biased_hybrid_model.py:36-43 | The position of the first row more than a week older than the newest, or 0 when there is none. |
| TimeBiasedHybrid.NewTimeBiasedModel | main/model/time_biased_hybrid_model.py:21-50 | An empty table raises `IndexError`; otherwise the model keeps the data and the window of recent rows. |
| TimeBiasedHybrid.NewestBoundsAll | main/model/time_biased_hybrid_model.py:32-33 | The first row of the newest-first table has the largest timestamp. |
| TimeBiasedHybrid.WindowKeepsRecentPrefix | main/model/time_biased_hybrid_model.py:32-45 | The window is a prefix of the newest-first table, and all its rows are within a week of the newest. |
| TimeBiasedHybrid.WindowStopsAtFirstStale | main/model/time_biased_hybrid_model.py:36-45 | When some row is stale, the window ends right before the first stale row. |
| TimeBiasedHybrid.WindowEmptyWithoutStale | main/model/time_biased_hybrid_model.py:36-45 | When no row is stale, `first_invalid` stays 0 and the window is empty. |
| TimeBiasedHybrid.TimeBiasedModel.Predict | main/model/time_biased_hybrid_model.py:64-85 | Without remove-seen it returns the back-end's answer on the rescaled window. With remove-seen it keeps, in order, the back-end's full-list rows the full table has not seen, and when k > 0 exactly the first min(k, n) of those n rows, as `head(k)` does. |
| TimeBiasedHybrid.UnseenRows | main/model/time_biased_hybrid_model.py:76-80 | The anti-join keeps exactly the rows whose pair the table has not reviewed. |
| TimeBiasedHybrid.UnseenRowsIsSubsequence | main/model/time_biased_hybrid_model.py:76-80 | The anti-join keeps the rows' order. |
| TimeBiasedHybrid.TopKIsPrefixOfAll | main/model/time_biased_hybrid_model.py:82-85 | The top-k answer is the first min(k, n) rows of the full answer. |
| Recommendar.MapUserToRatings | main/recommendar.py:27-40 | Keys are the users in first-seen order; each value is the user's number of ratings minus one. |
| Recommendar.RestaurantsWithFeature | main/recommendar.py:49-57 | Exactly the restaurants mapped to the given feature id. |
| Recommendar.InvertMapping | main/recommendar.py:49-57 | The inverted map holds a listed feature id exactly when some restaurant has it, together with exactly those restaurants. |
| Recommendar.FeatureRestaurants | main/recommendar.py:59-61 | Raises `KeyError` exactly when some listed feature id has no restaurant. |
| Recommendar.FeatureRestaurantsContents | main/recommendar.py:42-63 | On success, the result holds exactly the restaurants whose feature id is listed. |
| Recommendar.MapFeatureIdsToRestaurants | main/recommendar.py:42-63 | The loop computes the feature-to-restaurants result. |
| Recommendar.NewLocalRecommendar | main/recommendar.py:143-251 | Fails exactly when an argument has an unsupported type (`ValueError`), a file fails to load (the loader's own error, such as `ValueError` for a malformed line), or the model name is unknown (`ValueError`); the first failure in argument order is raised. Otherwise it keeps the given or loaded tables, the settings and the user rating counts. |
| Recommendar.Resolve | main/recommendar.py:191-231 | An argument is the given table, the file's loaded table or error, or `ValueError` for any other type. |
| Recommendar.UserRows | main/recommendar.py:357 | Exactly the user's ratings. |
| Recommendar.CitiesOf | main/recommendar.py:364-366 | The city of each rating's restaurant, in order; `KeyError` exactly when some restaurant has no city. |
| Recommendar.CollectCities | main/recommendar.py:364-366 | The loop computes the cities of the rows. |
| Recommendar.LatestCitySet | main/recommendar.py:369-376 | The loop computes the latest-cities set. |
| Recommendar.LatestCitiesAreLastOnes | main/recommendar.py:369-376 | The latest cities are the set of the last `latest_rating_limiter` cities (none when the limiter is not positive). |
| Recommendar.RestaurantsIn | main/recommendar.py:379-382 | Exactly the feature ids whose city is in the set. |
| Recommendar.RestaurantsInCities | main/recommendar.py:379-382 | The loop computes those feature ids in dictionary order. |
| Recommendar.TrainingSlice | main/recommendar.py:385-388 | Exactly the ratings of the local restaurants up to the cutoff. |
| Recommendar.HeldOut | main/recommendar.py:411-416 | Exactly the user's ratings after the cutoff. |
| Recommendar.TrainingBeforeTruth | main/recommendar.py:385-416 | Every training rating is strictly older than every held-out rating, and no rating is in both. |
| Recommendar.CutoffIsNthEarliest | main/recommendar.py:357-360 | The first ratings are the user's `n` earliest and the cutoff is the `n`-th timestamp; n == 0 or n above the user's count raises `IndexError`. |
| Recommendar.FirstRatingsInTraining | main/recommendar.py:357-388 | Inferring cities from all first ratings puts every first rating in the training slice. |
| Recommendar.BacktestHorizon | main/recommendar.py:352-421 | One horizon's metrics as the backtest specification defines them. |
| Recommendar.CollectPerHorizon | main/recommendar.py:419-427 | The three lists succeed exactly when every horizon does, and entry `i` holds horizon `i`'s metrics. |
| Recommendar.PersonalizedTrain | main/recommendar.py:328-427 | The loop over horizons computes the three metric lists, or the first horizon's error. |
| Recommendar.BacktestAllPerHorizon | main/recommendar.py:348-427 | The lists have one entry per horizon, equal to that horizon's backtest, and exist exactly when every backtest succeeds. |
| Recommendar.BaselineIsPositional | main/recommendar.py:392-405 | With the model's stable tie order, the popularity strategy labels its prediction rows by position. |
| Recommendar.BacktestBounds | main/recommendar.py:411-417 | For a strategy with positional labels, backtest precision and average precision lie in [0, 1]. |
| Recommendar.Trunc | main/recommendar.py:303 | `int()` truncates toward zero. |
| Recommendar.TrainNumbers | main/recommendar.py:300-303 | Counts are used as given. Ratios are multiplied by the user's stored count and truncated; an unknown user raises `KeyError` exactly when some ratio is there. |
| Recommendar.RatioHorizonBounds | main/recommendar.py:303 | A ratio in [0, 1] gives a horizon between 0 and the count. |
| Recommendar.FirstArgMax | main/recommendar.py:310 | `np.argmax`: the first index of a maximum; `ValueError` on an empty list. |
| Recommendar.BestOfUser | main/recommendar.py:299-314 | The loop body computes the user's best-horizon report. |
| Recommendar.BestIsFirstMaximum | main/recommendar.py:305-314 | The report names the user, their count and the first horizon with the highest average precision, with that horizon's three metrics. |
| Recommendar.BestApkInUnitInterval | main/recommendar.py:310-312 | For a positional strategy the best average precision is in [0, 1]. |
| Recommendar.Reports | main/recommendar.py:298-324 | One report per user, in order. |
| Recommendar.TrainForAllUser | main/recommendar.py:253-326 | Returns the population mean of the best average precisions; the lines reported so far are the leading users' reports. |
| Recommendar.ReportUser | main/recommendar.py:298-324 | One loop step: a failing user ends the run with that error; otherwise the report and its average precision are appended. |
| Recommendar.MeanInUnitInterval | main/recommendar.py:326 | The mean is NaN exactly for an empty user list, and otherwise lies in [0, 1] for a positional strategy. |
| Recommendar.NewestFirst | main/recommendar.py:441-442 | Exactly the user's ratings, newest first. |
| Recommendar.RecentCount | main/recommendar.py:446 | The `while` loop in `predict` visits min(limiter, n) rows, and none for a non-positive limiter. |
| Recommendar.CitySetOfNewest | main/recommendar.py:444-448 | The loop computes the city set of the newest rows. |
| Recommendar.RecentCitySet | main/recommendar.py:440-448 | Computes the user's recent-city set. |
| Recommendar.CitiesOfRowsSet | main/recommendar.py:444-448 | The set of the rows' cities is the set of cities of their restaurants. |
| Recommendar.RecentCitiesOfAllRatings | main/recommendar.py:440-448 | A limiter at least the user's count gives the cities of all the user's ratings. |
| Recommendar.RowsOfRestaurants | main/recommendar.py:458-460 | Exactly the ratings of the listed restaurants. |
| Recommendar.Predict | main/recommendar.py:429-480 | Computes the prediction specification. |
| Recommendar.PredictOutcome | main/recommendar.py:440-480 | Outside latest-only mode it raises `NameError`. On success the result holds exactly the restaurant ids whose feature id was predicted. |
| Recommendar.PredictedItems | main/recommendar.py:477-480 | The item column of the prediction frame. |
| BusinessPreprocessor.Keywords | main/preprocessor.py:72 | An ordered subsequence holding exactly the pieces not excluded. |
| BusinessPreprocessor.PreprocessCategories | main/preprocessor.py:59-73 | The categories field becomes its list of non-excluded words, with the other fields and the key order unchanged. A missing field raises `KeyError` and a non-string raises `AttributeError`. |
| BusinessPreprocessor.CategoryWordsContents | main/preprocessor.py:71-73 | The words are the non-excluded pieces in order; with nothing excluded, joining them restores the text. |
| BusinessPreprocessor.KeywordsKeepAll | main/preprocessor.py:72 | Nothing excluded means nothing removed. |
| BusinessPreprocessor.DayHours | main/preprocessor.py:83-85 | A failure is `IndexError` for a string without "-" and `AttributeError` for a non-string. |
| BusinessPreprocessor.DayHoursParts | main/preprocessor.py:83-85 | Succeeds exactly for a string containing "-"; with one "-", start + "-" + end restores it. |
| BusinessPreprocessor.DayStep | main/preprocessor.py:82-85 | One day succeeds exactly when its hours split. |
| BusinessPreprocessor.PreprocessHoursExtendWorkdays | main/preprocessor.py:75-87 | The loop computes the hours specification. |
| BusinessPreprocessor.ExtendWorkdays | main/preprocessor.py:80-85 | The day loop computes the extended record and collects the days in order. |
| BusinessPreprocessor.DayStepContents | main/preprocessor.py:83-85 | One day writes its start and end time and keeps every other field and key. |
| BusinessPreprocessor.ExtendDaysKeeps | main/preprocessor.py:80-85 | Fields other than the written day fields are kept. |
| BusinessPreprocessor.ExtendDaysWrites | main/preprocessor.py:80-85 | Every processed day has its start and end time written. |
| BusinessPreprocessor.ExtendDaysFailed | main/preprocessor.py:81-85 | The first failing day's error is the result. |
| BusinessPreprocessor.PreprocessHoursContents | main/preprocessor.py:75-87 | Each day's start and end times are written, "workdays" lists the days in hours order, and every other field is kept in place. |
| BusinessPreprocessor.AddInnerValues | main/preprocessor.py:135-138 | The loop adds a nested attribute's values. |
| BusinessPreprocessor.AddOneAttribute | main/preprocessor.py:132-143 | One attribute is added as the specification says. |
| BusinessPreprocessor.AddAttributes | main/preprocessor.py:127-143 | The loop computes the attribute-table specification. |
| BusinessPreprocessor.AddInnerCovers | main/preprocessor.py:135-139 | Earlier values are kept and every inner value is collected. |
| BusinessPreprocessor.AddAttributeCovers | main/preprocessor.py:133-143 | Adding one attribute keeps all earlier entries; a non-empty nested value is collected per inner key, an empty one leaves the key's entry as it was, and a plain value is collected under its key. |
| BusinessPreprocessor.EmptyDictKeepsValues | main/preprocessor.py:133-139 | An empty dictionary over a key holding a set raises nothing and leaves the table unchanged, since `get` is never called. |
| BusinessPreprocessor.NonEmptyDictOverValuesFails | main/preprocessor.py:134-136 | A non-empty dictionary over a key holding a set raises AttributeError. |
| BusinessPreprocessor.AddAttributesCollects | main/preprocessor.py:127-143 | After the loop every attribute of the business is collected and nothing earlier is lost. |
| BusinessPreprocessor.Init24Hours | main/preprocessor.py:145-159 | `ZeroDivisionError` exactly for interval 0; otherwise the "h:m" labels of the time slots. |
| BusinessPreprocessor.SlotsContents | main/preprocessor.py:154-157 | The slots are exactly the times of day whose minute is a multiple of the interval, strictly increasing. |
| BusinessPreprocessor.SlotsCountFive | main/preprocessor.py:154-157 | At a 5-minute interval there are 12 slots per hour. |
| BusinessPreprocessor.DefaultGrid | main/preprocessor.py:145-159 | The default grid has 288 slots. |
| BusinessPreprocessor.Labels | main/preprocessor.py:157 | One "h:m" label per slot. |
| FeaturePreprocessor.HandleFeature | main/preprocessor.py:199-207 | One attribute feature is handled as the specification says. |
| FeaturePreprocessor.HandleNested | main/preprocessor.py:187-197 | The loop handles the features of a nested attribute. |
| FeaturePreprocessor.HandleEntry | main/preprocessor.py:186-207 | One table entry is handled as the specification says. |
| FeaturePreprocessor.HandleAttributesFeatures | main/preprocessor.py:170-207 | The loop handles every attribute entry in order. |
| FeaturePreprocessor.HandleAllContents | main/preprocessor.py:186-207 | Boolean sets become true/false features in order. Every other feature gets its values plus the default, and earlier features are kept. |
| FeaturePreprocessor.Prefixed | main/preprocessor.py:233-235 | Each name is prefixed with "prefix::". |
| FeaturePreprocessor.AppendPrefixed | main/preprocessor.py:233-244 | The loop appends the prefixed names. |
| FeaturePreprocessor.AssignTimes | main/preprocessor.py:249-253 | The loop computes the time-feature specification. |
| FeaturePreprocessor.PutTimesContents | main/preprocessor.py:249-253 | Every time feature gets the time list and other features are kept. |
| FeaturePreprocessor.InitFeatures | main/preprocessor.py:209-257 | Computes the feature-space specification. |
| FeaturePreprocessor.InitialValFeaturesContents | main/preprocessor.py:237-253 | The city feature offers the cities plus the constant default `!other`, and each time feature offers the time list. |
| FeaturePreprocessor.TimeListShape | main/preprocessor.py:247-248 | The time list has 289 entries, the last being the constant default `!other`. |
| FeaturePreprocessor.InitFeaturesContents | main/preprocessor.py:228-257 | The boolean features are the boolean attributes in order, with the city and time features as above; the `default_value` argument is never read. |
| FeaturePreprocessor.AttrNameNotCity | main/preprocessor.py:189-199 | No attribute feature is named "city". |
| FeaturePreprocessor.ApplyQueries | main/preprocessor.py:259-279 | The loop computes the query specification. |
| FeaturePreprocessor.ApplyQueriesMeaning | main/preprocessor.py:270-279 | The query answers the value at the path when it has the target type, and the default otherwise; the only failure is `TypeError`. |
| FeaturePreprocessor.WalkIsLookup | main/preprocessor.py:271-274 | The walk is the path lookup, and fails only with `TypeError`. |
| FeaturePreprocessor.ExistQueries | main/preprocessor.py:281-289 | The loop computes the existence-query specification. |
| FeaturePreprocessor.Jobs | main/preprocessor.py:310-330 | One job per true/false feature, then per valued feature, then per existence feature, in that order. |
| FeaturePreprocessor.JobEntries | main/preprocessor.py:310-330 | One entry per job. |
| FeaturePreprocessor.ComputeEntry | main/preprocessor.py:311-330 | One job's entry as the specification says. |
| FeaturePreprocessor.MapRestaurantToFeatureDict | main/preprocessor.py:291-332 | The item set of the feature dictionary, or its error. |
| FeaturePreprocessor.FillFeatureDict | main/preprocessor.py:309-330 | The loop fills the dictionary from the job entries, later entries overwriting. |
| FeaturePreprocessor.FeatureDictKeys | main/preprocessor.py:309-332 | The keys are all feature names, in first-seen order. |
| FeaturePreprocessor.EntriesFollowJobs | main/preprocessor.py:310-330 | Entry `i` is named after job `i`, and existence jobs give true. |
| FeaturePreprocessor.JobEntryShape | main/preprocessor.py:326-330 | An entry carries its job's name, and an existence job gives true. |
| FeaturePreprocessor.ExistFeaturesTrue | main/preprocessor.py:326-330 | Every existence feature is true in the vector. |
| Json.In | main/preprocessor.py:289 | `key in v`: a dictionary tests its keys, a list its elements, a string its substrings (`key` occurs at some position); `TypeError` exactly for values that are neither a dictionary, a list nor a string. |
| Json.Get | main/preprocessor.py:472 | `v[key]`: succeeds exactly for a dict holding the key; otherwise `KeyError` for a dict and `TypeError` for the rest. |
| IdAssignment.KeyOf | main/preprocessor.py:427 | A hashable field of a record, or an error. |
| IdAssignment.VectorsAndIds | main/preprocessor.py:417-427 | One (vector, restaurant id) result per restaurant. |
| IdAssignment.RestaurantVectorAndId | main/preprocessor.py:418-427 | One restaurant's vector and id. |
| IdAssignment.NumberPair | main/preprocessor.py:426-435 | One step keeps the vector ids as first-appearance numbering and the restaurant map as last-writer-wins. |
| IdAssignment.DevelopFeatureIds | main/preprocessor.py:394-440 | The loop computes the feature-id specification. |
| IdAssignment.DevelopFeatureIdsMeaning | main/preprocessor.py:417-435 | Vectors are numbered 1, 2, ... in first-appearance order, and each restaurant's last occurrence fixes its feature id. |
| IdAssignment.DevelopFeatureIdsInputs | main/preprocessor.py:417-427 | Each pair is a restaurant's feature-item set and its business id. |
| IdAssignment.ParseReview | main/preprocessor.py:466-476 | An unknown restaurant is skipped; a kept review carries the line's restaurant, user and rating. |
| IdAssignment.ParseReviews | main/preprocessor.py:465-476 | One parse per line. |
| IdAssignment.RecordAll | main/preprocessor.py:475-492 | The recorded state is well formed. |
| IdAssignment.RecordAllUsers | main/preprocessor.py:476-482 | Users are numbered 1, 2, ... in first-appearance order. |
| IdAssignment.UserIdsStable | main/preprocessor.py:476-482 | Numbering one more user keeps earlier ids. |
| IdAssignment.RecordKeeps | main/preprocessor.py:484-492 | A stored pair stays stored and its timestamp never decreases. |
| IdAssignment.RecordStores | main/preprocessor.py:484-492 | The recorded review's pair is stored no older than it. |
| IdAssignment.RecordChanges | main/preprocessor.py:487-492 | Only a strictly newer review of a pair replaces its stored value. |
| IdAssignment.LatestCovers | main/preprocessor.py:465-492 | Every review's pair is stored with a timestamp at least its own. |
| IdAssignment.LatestIsFirstLatest | main/preprocessor.py:465-492 | Each stored value is the first review of its pair with the latest timestamp. |
| IdAssignment.RecordReview | main/preprocessor.py:475-492 | One review is recorded as the specification says. |
| IdAssignment.ReadReviews | main/preprocessor.py:462-492 | The loop computes the recorded state. |
| IdAssignment.ReadLine | main/preprocessor.py:465-492 | One line: its error ends the loop, or the state advances. |
| IdAssignment.InnerRows | main/preprocessor.py:500-505 | One row per stored pair of a user. |
| IdAssignment.Filtered | main/preprocessor.py:504 | Each row with its restaurant replaced by its feature id. |
| IdAssignment.InnerRowsContents | main/preprocessor.py:500-505 | A user's rows are exactly the user's stored pairs. |
| IdAssignment.RowsContents | main/preprocessor.py:499-505 | The rows are exactly the stored pairs of the users flattened so far. |
| IdAssignment.RowsPairsDistinct | main/preprocessor.py:499-505 | No two rows share a (user, restaurant) pair. |
| IdAssignment.FlattenUser | main/preprocessor.py:500-505 | The inner loop appends the user's rows, original and filtered. |
| IdAssignment.FlattenRows | main/preprocessor.py:497-505 | The loop computes the rows and their filtered form. |
| IdAssignment.LoadReviewsAndUsers | main/preprocessor.py:442-509 | Computes the loading specification. |
| IdAssignment.KeptAreKnown | main/preprocessor.py:468-470 | Every kept review names a known restaurant. |
| IdAssignment.RowsAreFirstLatest | main/preprocessor.py:484-505 | Every row is the first latest review of its pair. |
| IdAssignment.RowsCoverKept | main/preprocessor.py:484-505 | Every kept review has a row for its pair that is no older. |
| IdAssignment.LoadReviewsAndUsersShape | main/preprocessor.py:442-509 | The result is the user ids, the filtered rows and the rows of the recorded state. |
| IdAssignment.LoadReviewsAndUsersIds | main/preprocessor.py:475-482 | The user ids number the users in first-appearance order. |
| IdAssignment.LoadReviewsAndUsersRows | main/preprocessor.py:484-505 | Every row names a known restaurant and is the first latest review of its pair. |
| IdAssignment.LoadReviewsAndUsersCovers | main/preprocessor.py:484-505 | Every kept review has a row for its pair. |
| IdAssignment.LoadReviewsAndUsersFiltered | main/preprocessor.py:504-505 | Filtered row `i` is row `i` with the restaurant's feature id. |
| IdAssignment.LoadReviewsAndUsersErrors | main/preprocessor.py:465-473 | Loading fails exactly when some line fails to parse. |
| ReviewDedup.Accumulate | main/preprocessor.py:634-650 | One review keeps the nested dictionary well formed. |
| ReviewDedup.AccumulateAll | main/preprocessor.py:634-650 | The accumulated dictionary is well formed. |
| ReviewDedup.AccumulateStep | main/preprocessor.py:640-650 | One review starts or updates only its own pair. |
| ReviewDedup.AccumulateAllPerPair | main/preprocessor.py:633-650 | Each pair's value is the fold over just that pair's reviews. |
| ReviewDedup.BucketPermutes | main/preprocessor.py:643-650 | A pair's bucket is a permutation of its reviews. |
| ReviewDedup.BucketSum | main/preprocessor.py:643-650 | A bucket keeps the count and the rating sum. |
| ReviewDedup.BucketFront | main/preprocessor.py:646-650 | A bucket's front is the first review with the latest timestamp. |
| ReviewDedup.BucketsNonEmpty | main/preprocessor.py:643-644 | Every bucket is non-empty. |
| ReviewDedup.ChooseInner | main/preprocessor.py:655-667 | One chosen value per restaurant of the user, in order. |
| ReviewDedup.ChooseAll | main/preprocessor.py:654-669 | One chosen dictionary per user, in order. |
| ReviewDedup.AddReviewToBuckets | main/preprocessor.py:634-650 | One review is added to the buckets as the specification says. |
| ReviewDedup.Average | main/preprocessor.py:660-667 | The loop computes the mean rating of a bucket. |
| ReviewDedup.DedupUser | main/preprocessor.py:654-669 | The inner loop appends the user's chosen rows. |
| ReviewDedup.BuildBuckets | main/preprocessor.py:633-650 | The loop computes the buckets. |
| ReviewDedup.FlattenBuckets | main/preprocessor.py:653-669 | The loop computes the chosen rows. |
| ReviewDedup.FlattenUser | main/preprocessor.py:654-669 | One user's step of that loop. |
| ReviewDedup.LoadDedupFilteredReviews | main/preprocessor.py:611-671 | Computes the de-duplication specification. |
| ReviewDedup.ChooseAllStored | main/preprocessor.py:654-669 | A stored choice is exactly the bucket's choice. |
| ReviewDedup.ChosenRows | main/preprocessor.py:654-669 | Each row is its bucket's choice. |
| ReviewDedup.DedupRowChosen | main/preprocessor.py:633-669 | Each output row is the choice from its pair's reviews. |
| ReviewDedup.DedupPairsPresent | main/preprocessor.py:633-669 | Every reviewed pair has an output row. |
| ReviewDedup.DedupOnePerPair | main/preprocessor.py:653-669 | No two output rows share a pair. |
| ReviewDedup.DedupCoversPairs | main/preprocessor.py:633-669 | The output pairs are exactly the input pairs. |
| ReviewDedup.DedupLatest | main/preprocessor.py:646-658 | By "latest", each row is the first latest review of its pair. |
| ReviewDedup.DedupAverage | main/preprocessor.py:659-667 | By "average", each row has the mean rating and the first latest timestamp. |
| ReviewDedup.ExtremesFold | main/preprocessor.py:548-554 | The fold keeps the maximum and the minimum rating. |
| ReviewDedup.AddReviewToExtremes | main/preprocessor.py:536-554 | One review updates the extremes as the specification says. |
| ReviewDedup.CollectUserBadIds | main/preprocessor.py:569-575 | The loop adds the user's bad ids. |
| ReviewDedup.BadIdsByUser | main/preprocessor.py:567-575 | The bad ids grow user by user. |
| ReviewDedup.BadIdsAllKeys | main/preprocessor.py:567-575 | Over all users this gives the bad-id set. |
| ReviewDedup.EvaluateFeatureIds | main/preprocessor.py:511-609 | Computes the bad-id specification. |
| ReviewDedup.BadIdHasSpread | main/preprocessor.py:567-575 | A bad id has two ratings by one user differing by more than the threshold. |
| ReviewDedup.SpreadMakesBadId | main/preprocessor.py:536-575 | Such a spread makes the id bad. |
| ReviewDedup.EvaluateFeatureIdsMeaning | main/preprocessor.py:536-609 | An id is bad exactly when one user's ratings of it differ by more than the threshold. |
| CityMaps.CityEntry | main/preprocessor.py:688-689 | Succeeds exactly for a numbered restaurant with a city, giving (feature id, city). |
| CityMaps.CityEntries | main/preprocessor.py:687-691 | One entry per restaurant. |
| CityMaps.MapRestaurantsToCities | main/preprocessor.py:674-693 | The loop computes the feature-id-to-city map. |
| CityMaps.MapRestaurantsToCitiesMeaning | main/preprocessor.py:685-693 | It fails exactly when some restaurant fails; a feature id's last restaurant fixes its city. |
| CityMaps.CollectSets | main/preprocessor.py:714-717 | Keys in first-seen order. |
| CityMaps.CollectSetsMembers | main/preprocessor.py:714-717 | Each key's set holds exactly its values. |
| CityMaps.UserCity | main/preprocessor.py:709-717 | (user, city) exactly for a feature id with a hashable city. |
| CityMaps.AddCity | main/preprocessor.py:714-717 | Adds the city to the user's set. |
| CityMaps.MapUsersToCities | main/preprocessor.py:695-719 | The loop computes the user-to-cities map. |
| CityMaps.MapUsersToCitiesMeaning | main/preprocessor.py:706-719 | It fails exactly when some review fails. The users are exactly the reviewers, and each user's cities are exactly those of the restaurants they rated. |
| MappingOutput.SinglePairs | main/preprocessor.py:818-820 | One (key, value) pair per entry. |
| MappingOutput.ValuePairs | main/preprocessor.py:814-816 | One pair per element of the value. |
| MappingOutput.Lines | main/preprocessor.py:816 | One line per pair. |
| MappingOutput.SaveMapping | main/preprocessor.py:793-820 | The loop writes the line specification. |
| MappingOutput.SaveValues | main/preprocessor.py:814-816 | The inner loop appends one line per value. |
| MappingOutput.SetPairsValues | main/preprocessor.py:812-816 | A saved key's values, reloaded, are its shown values. |
| MappingOutput.ParseWrittenLine | main/data_loader.py:91 | A written line without tabs, newlines or carriage returns parses back to its key and value. |
| MappingOutput.SaveLoadRoundTrip | main/data_loader.py:91-105 | Reloading a saved mapping whose printed keys and values hold no tab, newline or carriage return gives the grouped or overwritten string pairs. |
| MappingOutput.SingleReloaded | main/data_loader.py:104-105 | Reloading a single-valued mapping gives each shown key its shown value. |
| MappingOutput.SetsReloaded | main/data_loader.py:99-102 | Reloading a set-valued mapping gives each non-empty key its shown values. |
| MappingOutput.SetsReloadedKeys | main/data_loader.py:99-102 | Every reloaded key is a shown key. |
| DataLoader.Fields | main/data_loader.py:25 | `strip('\n').split(sep)`: an empty separator raises `ValueError`; otherwise the fields join back to the line. |
| DataLoader.NameValue | main/data_loader.py:25 | Exactly two fields give (name, value). |
| DataLoader.NameValues | main/data_loader.py:24-25 | One result per line. |
| DataLoader.AppendValue | main/data_loader.py:26-28 | Appending one pair keeps the grouping. |
| DataLoader.LoadFeatures | main/data_loader.py:5-44 | Computes the feature-loading specification. |
| DataLoader.FeatureMapContents | main/data_loader.py:19-28 | Each name maps to its values in file order, with names in first-seen order. |
| DataLoader.FieldValue | main/data_loader.py:93-97 | A field outside the eval set stays a string. |
| DataLoader.MappingLine | main/data_loader.py:91-97 | A parsed line has two fields and a hashable key; without eval it is the two strings. |
| DataLoader.MappingLines | main/data_loader.py:90-97 | One result per line. |
| DataLoader.LoadMapping | main/data_loader.py:70-110 | Computes the mapping specification. |
| DataLoader.LoadMappingLine | main/data_loader.py:90-105 | One line keeps the grouping. |
| DataLoader.ReviewLine | main/data_loader.py:131-142 | Four fields, each parsed; another field count raises `ValueError`. |
| DataLoader.ReviewLines | main/data_loader.py:130-144 | One result per line. |
| DataLoader.LoadReviews | main/data_loader.py:112-149 | Computes the review-loading specification. |
| DataLoader.ReviewsPerLine | main/data_loader.py:130-144 | One four-field review per line. |
| DataLoader.MissingFileLoadsEmpty | main/data_loader.py:107-108 | A missing file loads as empty. |
| EvaluateModels.Nones | main/evaluate_models.py:120-124 | `[None] * n`. |
| EvaluateModels.PadSeeds | main/evaluate_models.py:120-124 | Computes the padded seed list. |
| EvaluateModels.PaddedSeedsShape | main/evaluate_models.py:120-124 | The given seeds, then `None`s up to the number of rounds. |
| EvaluateModels.RoundSeedOfPadded | main/evaluate_models.py:126-133 | Round `i` gets the `i`-th given seed or `None`. |
| EvaluateModels.EligiblePool | main/evaluate_models.py:225-228 | The loop computes the eligible users. |
| EvaluateModels.EligibleMeaning | main/evaluate_models.py:225-228 | Exactly the users whose stored count reaches the minimum, in order. |
| EvaluateModels.PoolOfReviews | main/evaluate_models.py:223-228 | Exactly the users with more than the minimum number of reviews. |
| EvaluateModels.Draws | main/evaluate_models.py:235-236 | The requested number of draws. |
| EvaluateModels.SelectUsersMeaning | main/evaluate_models.py:233-242 | All users, the given list, or `sample_limit` draws from the pool; only a negative limit fails. |
| EvaluateModels.UserRatingsOf | main/evaluate_models.py:223 | The user rating counts. |
| EvaluateModels.UserRatingsUnique | main/evaluate_models.py:223 | The counts are unique. |
| EvaluateModels.ModelLines | main/evaluate_models.py:268-290 | One report line per model. |
| EvaluateModels.EvaluateModel | main/evaluate_models.py:268-290 | One model's report line. |
| EvaluateModels.ReportModels | main/evaluate_models.py:268-290 | The loop over models; the lines so far are the leading models'. |
| EvaluateModels.ReportMeaning | main/evaluate_models.py:268-290 | It fails exactly when some model fails; each line is the model's population mean. |
| EvaluateModels.EvaluateOnDataset | main/evaluate_models.py:222-290 | Computes one run. |
| EvaluateModels.RoundResults | main/evaluate_models.py:126-142 | One outcome per round: `ValueError` when the round's seed is outside [0, 2**32 - 1], otherwise the run on the draws that round's generator hands out. |
| EvaluateModels.Reseed | main/evaluate_models.py:230-231 | `ValueError` exactly for a seed outside [0, 2**32 - 1]; an accepted seed starts that seed's stream afresh; `None` leaves the generator as it is. |
| EvaluateModels.Advance | main/evaluate_models.py:233-237 | Drawing moves the generator on by the number of draws, on the same stream. |
| EvaluateModels.UpcomingAt | main/evaluate_models.py:233-237 | The next draws are the stream's draws after those already taken. |
| EvaluateModels.GeneratorOfRound | main/evaluate_models.py:126-133 | A round with an accepted seed draws that seed's stream from the start; a refused seed leaves the generator as found; an unseeded first round draws the generator as found; a later unseeded round continues after the previous round's draws. |
| EvaluateModels.RoundDrawsMeaning | main/evaluate_models.py:126-133 | The same for the draws a round's run uses, so unseeded rounds do not repeat each other's draws. |
| EvaluateModels.EvaluateModelsForRounds | main/evaluate_models.py:120-142 | The loop over rounds. |
| EvaluateModels.RoundsUseGivenSeeds | main/evaluate_models.py:120-133 | Round `i` gets the `i`-th given seed or `None`: `ValueError` when that seed is outside [0, 2**32 - 1], otherwise the run on that round's draws. |
| EvaluateModels.RefusedSeedFails | main/evaluate_models.py:126-142 | A round whose seed numpy refuses makes the whole call raise `ValueError`. |
| Collections.Unique | main/model/model_utils.py:20 | Distinct, and the same members as the input. |
| Collections.UniqueFirstSeenOrder | main/model/model_utils.py:20 | First-appearance order. |
| Collections.SortDesc | main/model/baseline_model.py:63-64 | A sorted permutation. |
| Collections.SortAsc | main/recommendar.py:357-359 | A sorted permutation. |
| Collections.Head | main/model/baseline_model.py:66-69 | A prefix of pandas' length, including negative `n`. |
| Collections.ILoc | main/recommendar.py:360 | Python indexing, including negative indices; `IndexError` outside. |
| Collections.Group | main/data_loader.py:26-28 | Each key maps to its values, with keys in first-seen order. |
| Collections.Overwrite | main/data_loader.py:105 | The last value wins, with keys in first-seen order. |
| Collections.Intern | main/preprocessor.py:433-434 | Keys in first-seen order. |
| Collections.InternIds | main/preprocessor.py:426-435 | Ids 1, 2, ... in first-seen order. |
| Collections.OverwriteLastWriter | main/preprocessor.py:427-435 | A key's last pair fixes its value. |
| Strings.Split | main/preprocessor.py:71 | The pieces contain no separator, and no occurrence starts inside a piece that a separator follows (the leftmost, non-overlapping cut). |
| Strings.FirstCutIsLeftmost | main/data_loader.py:25 | No occurrence starts before the first one, even one running into the separator. |
| Strings.SplitCharacterized | main/data_loader.py:25 | Any parts that join back, hold no separator and admit no earlier occurrence are exactly the split. |
| Strings.SplitOverlapExample | main/data_loader.py:25 | `"a;;;b".split(";;")` is `["a", ";b"]`. |
| Strings.PySplit | main/data_loader.py:91 | An empty separator raises `ValueError`. |
| Strings.JoinSplit | main/preprocessor.py:71 | Joining the pieces restores the string. |
| Strings.SplitJoin | main/data_loader.py:91 | Splitting a join of separator-free parts gives the parts. |
| Strings.StripTerminated | main/data_loader.py:91 | Stripping a terminated line gives it back. |
| Strings.NatToString | main/preprocessor.py:157 | Decimal digits. |

## Left out

- The ALS back-end (`main/model/als_model.py`, Spark) is an abstract scorer
  parameter. Nothing is assumed about it beyond being a function of its inputs.
- File and directory I/O are left out. A file is given as its list of lines
  (or `None` when opening fails), and a written file as its lines. The same
  holds for printing, the dump files, the report header lines of
  `train_for_all_user` and the progress counters printed by the preprocessor.
- Floating point is modelled as exact reals. Rounding, `inf` and NaN beyond
  the empty-mean case are not modelled.
- Randomness is abstract. numpy's global generator is a stream of draws
  with a count of those already taken (`Generator`). `np.random.seed` starts
  the stream a seed leads to (`streamFor`), and the generator state at
  process start is a parameter. Only integer seeds are modelled; numpy's
  array seeds are not.
- EvaluateModels.DrawCount: a random sample of n users is taken to consume
  n draws of the stream. numpy's bounded-integer sampling may consume more,
  which the model does not capture.
- EvaluateModels.Draws: states only the number of draws and that they come
  from the pool, because the sampling itself is the random generator's.
- Tie order is not modelled exactly. `sort_values` uses numpy's unstable
  quicksort and `value_counts` leaves ties unordered; the model computes a
  stable sort, which is one admissible order. Every tie order is covered
  for the baseline's contents (AnySortOrderContents), and for its labels
  only when no counts are tied (UntiedRankingIsPositional).
- RankingIsMergedFrame: holds for the stable tie order only. With tied
  counts among more than 16 rows, numpy may reorder tied rows, and they keep
  their merge labels.
- BaselinePredictContents: its positional-labels clause holds for the
  stable tie order only. For any tie order it holds when no counts are tied
  (UntiedRankingIsPositional).
- BaselinePrecisionInUnitInterval: holds for the stable tie order only. For
  any tie order it is proved when no counts are tied
  (UntiedMetricsInUnitInterval). With swapped labels the metric loop can
  leave [0, 1] (SwappedLabelsExample).
- BaselineIsPositional: holds for the stable tie order only, so the baseline
  instances of BacktestBounds, BestApkInUnitInterval and MeanInUnitInterval
  rest on that order. Under an unstable sort they need untied counts.
- The recommender's file loaders are parameters that return a table or an
  error. They stand for `load_reviews` and `load_mapping` (modelled on lines
  in `DataLoader`) followed by the conversion of the loaded values into the
  typed tables, which is not modelled.
- Parsing and formatting helpers are parameters. `json.loads`,
  `ast.literal_eval`, `datetime.strptime` and `str()` become `Eval`,
  `toTimestamp` and `Show`.
- Local time and daylight saving in `datetime.fromtimestamp` are not
  modelled; whole days are floor divisions of seconds.
- The recommender builds every model with a `user_id` argument and calls
  `predict` without one (`main/recommendar.py:392-405`), which matches the
  ALS model's signatures but not those of the baseline and hybrid models. A
  strategy is modelled as a function of the training table, the user, `k`
  and remove-seen, whatever the model's own signature.
- `load_feature_vec_to_int` is not modelled. It calls `json.load` on a
  string, so it cannot run as written.
- These preprocessor functions are not modelled: `preprocess_attributes`,
  `is_open`, `is_restaurant`, `is_valid_business`, `add_cities`,
  `add_categories`, `load_restaurants_and_features`, the `save_*` writers
  other than `save_mapping`, `one_for_all_load` and
  `preprocess_yelp_open_dataset`. They are record filters and file
  plumbing around the modelled operations.
- In-place updates of the caller's dictionaries and lists (including
  `seed +=`) are modelled as returned new values, so aliasing is not
  captured. So are the partial updates left behind when an exception
  interrupts a loop.
- The iteration order of a Python `set` is not modelled; sets are
  mathematical sets.
- Python treats `1`, `1.0` and `True` as the same dictionary key; the model
  keeps them apart.
- The time-biased model's two `reset_index` calls add "index" columns to the
  window frame; the model keeps only the review rows of the window.
- Ratings read from files are `Value`s until the numeric tables are built.
  The reviews table holds real ratings.
- `evaluate_feature_ids` keeps separate max and min dictionaries. The model
  keeps one (max, min) pair per (user, feature id), which holds the same
  information.
- `is_params_ratio` is the choice between the two constructors of `Horizons`.
- `is_boolean_set` is the predicate `IsBooleanSet`, which has no contract of
  its own.
- NaiveHybrid.Multiplied: bounds only the length, because its contents are
  stated by MultipliedIsScaledGroup.
- NaiveHybrid.NaiveHybridScorer: states only that the hybrid delegates to
  the back-end on the rescaled table, because the back-end is abstract.
- MappingOutput.SinglePairs: states only the number of pairs, because their
  contents are stated by SingleReloaded and SaveLoadRoundTrip.
- MappingOutput.ValuePairs: states only the number of pairs, because their
  contents are stated by SetPairsValues.
- MappingOutput.Lines: states only the number of lines, because their format
  is stated by ParseWrittenLine.
- IdAssignment.InnerRows: states only the number of rows, because their
  contents are stated by InnerRowsContents.
- ReviewDedup.ChooseInner: states only the shape, because the chosen values
  are stated by ChooseAllStored.
