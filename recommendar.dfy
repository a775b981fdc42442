/**
 * The per-user temporal backtest (main/recommendar.py). A `LocalRecommendar`
 * holds the reviews table and three mappings (user to cities, restaurant
 * feature id to city, restaurant id to feature id). For one user and a
 * horizon `n` it takes the user's `n` earliest ratings, uses the `n`-th
 * timestamp as the cutoff, infers the user's cities from those ratings, fits
 * a strategy on every rating up to the cutoff of the restaurants in those
 * cities, and scores its recommendations against the user's later ratings.
 */
module Recommendar {
  import opened Wrappers
  import opened Collections
  import opened Types
  import opened Evaluation
  import BaselineModel
  import NaiveHybrid
  import TimeBiasedHybrid

  // ---------------------------------------------------------------------------
  // map_user_to_ratings
  // ---------------------------------------------------------------------------

  /**
   * `d` is what `map_user_to_ratings(reviews)` builds: the users in order of
   * first appearance, each mapped to its number of reviews minus one (the
   * first review stores 0).
   */
  ghost predicate IsUserRatings(d: Dict<int, int>, reviews: seq<Review>) {
    && d.Valid()
    && d.keys == Unique(Users(reviews))
    && forall u :: u in d.entries ==> d.entries[u] == multiset(Users(reviews))[u] - 1
  }

  method MapUserToRatings(reviews: seq<Review>) returns (d: Dict<int, int>)
    ensures IsUserRatings(d, reviews)
    ensures forall u :: u in d.entries <==> u in Users(reviews)
  {
    d := EmptyDict();
    var i := 0;
    while i < |reviews|
      invariant 0 <= i <= |reviews|
      invariant IsUserRatings(d, reviews[..i])
    {
      var user := reviews[i].user;
      assert reviews[..i + 1] == reviews[..i] + [reviews[i]];
      UsersSnoc(reviews[..i], reviews[i]);
      UniqueSnoc(Users(reviews[..i]), user);
      if user !in d.entries {
        assert user !in Users(reviews[..i]);
        d := d.Put(user, 0);
      } else {
        d := d.Put(user, d.entries[user] + 1);
      }
      i := i + 1;
    }
    assert reviews[..i] == reviews;
  }

  // ---------------------------------------------------------------------------
  // map_feature_ids_to_restaurants
  // ---------------------------------------------------------------------------

  /** The restaurant ids mapped to feature `f`, in dictionary order. */
  function RestaurantsWithFeature(keys: seq<string>, entries: map<string, int>, f: int): (r: seq<string>)
    ensures forall x :: x in r <==> x in keys && x in entries && entries[x] == f
  {
    if keys == [] then []
    else
      var init := keys[..|keys| - 1];
      var x := keys[|keys| - 1];
      assert keys == init + [x];
      RestaurantsWithFeature(init, entries, f) + (if x in entries && entries[x] == f then [x] else [])
  }

  /**
   * What `map_feature_ids_to_restaurants` returns: the restaurants of each
   * listed feature, feature after feature; a listed feature without any
   * restaurant raises `KeyError`.
   */
  function FeatureRestaurants(featureList: seq<int>, restIdToInt: Dict<string, int>): (r: Result<seq<string>>)
    ensures r.Err? <==>
      exists i :: 0 <= i < |featureList|
        && RestaurantsWithFeature(restIdToInt.keys, restIdToInt.entries, featureList[i]) == []
    ensures r.Err? ==> r.error == KeyError
  {
    if featureList == [] then Ok([])
    else
      var rs := RestaurantsWithFeature(restIdToInt.keys, restIdToInt.entries, featureList[0]);
      var rest := FeatureRestaurants(featureList[1..], restIdToInt);
      assert forall i :: 1 <= i < |featureList| ==> featureList[i] == featureList[1..][i - 1];
      if rs == [] then Err(KeyError)
      else if rest.Err? then rest
      else Ok(rs + rest.value)
  }

  /**
   * On success the list holds exactly the restaurants whose feature is
   * listed.
   */
  lemma {:induction false} FeatureRestaurantsContents(featureList: seq<int>, restIdToInt: Dict<string, int>)
    requires FeatureRestaurants(featureList, restIdToInt).Ok?
    ensures forall x :: x in FeatureRestaurants(featureList, restIdToInt).value <==>
      x in restIdToInt.keys && x in restIdToInt.entries && restIdToInt.entries[x] in featureList
  {
    if featureList != [] {
      FeatureRestaurantsContents(featureList[1..], restIdToInt);
      var rs := RestaurantsWithFeature(restIdToInt.keys, restIdToInt.entries, featureList[0]);
      assert forall f :: f in featureList <==> f == featureList[0] || f in featureList[1..];
    }
  }

  /** `p + r` when `r` succeeded; the error otherwise. */
  function PrependOk(p: seq<string>, r: Result<seq<string>>): Result<seq<string>> {
    if r.Err? then r else Ok(p + r.value)
  }

  lemma {:induction false} PrependOkAssoc(p: seq<string>, q: seq<string>, r: Result<seq<string>>)
    ensures PrependOk(p, PrependOk(q, r)) == PrependOk(p + q, r)
  {
    if r.Ok? {
      assert p + (q + r.value) == (p + q) + r.value;
    }
  }

  /**
   * First loop of `map_feature_ids_to_restaurants`: each listed feature that
   * some restaurant has, mapped to its restaurants in dictionary order.
   */
  method InvertMapping(featureList: seq<int>, restIdToInt: Dict<string, int>) returns (invert: Dict<int, seq<string>>)
    ensures forall f :: f in invert.entries <==>
      f in featureList && RestaurantsWithFeature(restIdToInt.keys, restIdToInt.entries, f) != []
    ensures forall f :: f in invert.entries ==>
      invert.entries[f] == RestaurantsWithFeature(restIdToInt.keys, restIdToInt.entries, f)
  {
    var keys, entries := restIdToInt.keys, restIdToInt.entries;
    invert := EmptyDict();
    var i := 0;
    while i < |keys|
      invariant 0 <= i <= |keys| && Inverted(featureList, keys[..i], entries, invert)
    {
      invert := InvertStep(featureList, keys, entries, i, invert);
      i := i + 1;
    }
    assert keys[..i] == keys;
  }

  /** `invert` maps each listed feature that one of `keys` has to those keys, in order. */
  ghost predicate Inverted(featureList: seq<int>, keys: seq<string>, entries: map<string, int>,
                           invert: Dict<int, seq<string>>) {
    forall f ::
      && (f in invert.entries <==> f in featureList && RestaurantsWithFeature(keys, entries, f) != [])
      && (f in invert.entries ==> invert.entries[f] == RestaurantsWithFeature(keys, entries, f))
  }

  /** One restaurant of the first loop: appended to its feature's list when that feature is listed. */
  method InvertStep(featureList: seq<int>, keys: seq<string>, entries: map<string, int>, i: nat,
                    invert: Dict<int, seq<string>>)
    returns (invert': Dict<int, seq<string>>)
    requires i < |keys| && Inverted(featureList, keys[..i], entries, invert)
    ensures Inverted(featureList, keys[..i + 1], entries, invert')
  {
    var restId := keys[i];
    invert' := invert;
    if restId in entries {
      var feature := entries[restId];
      if feature in featureList {
        if feature !in invert'.entries {
          invert' := invert'.Put(feature, []);
        }
        invert' := invert'.Put(feature, invert'.entries[feature] + [restId]);
      }
    }
    assert invert'.entries == Appended(featureList, entries, keys[i], invert.entries);
    InvertedStep(featureList, keys, entries, i, invert, invert');
  }

  /** The inverted map after restaurant `restId` is appended to its feature's list, when that feature is listed. */
  function Appended(featureList: seq<int>, entries: map<string, int>, restId: string, m: map<int, seq<string>>)
    : map<int, seq<string>>
  {
    if restId in entries && entries[restId] in featureList then
      var feature := entries[restId];
      m[feature := (if feature in m then m[feature] else []) + [restId]]
    else m
  }

  /** Appending restaurant `i` to its feature's list extends the inverted map by one restaurant. */
  lemma {:induction false} InvertedStep(featureList: seq<int>, keys: seq<string>, entries: map<string, int>, i: nat,
                     invert: Dict<int, seq<string>>, next: Dict<int, seq<string>>)
    requires i < |keys| && Inverted(featureList, keys[..i], entries, invert)
    requires next.entries == Appended(featureList, entries, keys[i], invert.entries)
    ensures Inverted(featureList, keys[..i + 1], entries, next)
  {
    forall f
      ensures f in next.entries <==> f in featureList && RestaurantsWithFeature(keys[..i + 1], entries, f) != []
      ensures f in next.entries ==> next.entries[f] == RestaurantsWithFeature(keys[..i + 1], entries, f)
    {
      RestaurantsWithFeatureStep(keys, entries, i, f);
    }
  }

  lemma {:induction false} RestaurantsWithFeatureStep(keys: seq<string>, entries: map<string, int>, i: nat, f: int)
    requires i < |keys|
    ensures RestaurantsWithFeature(keys[..i + 1], entries, f) ==
      RestaurantsWithFeature(keys[..i], entries, f) + (if keys[i] in entries && entries[keys[i]] == f then [keys[i]] else [])
  {
    assert keys[..i + 1][..i] == keys[..i];
  }

  lemma {:induction false} FeatureRestaurantsUnfold(featureList: seq<int>, restIdToInt: Dict<string, int>)
    requires featureList != []
    ensures FeatureRestaurants(featureList, restIdToInt) ==
      var rs := RestaurantsWithFeature(restIdToInt.keys, restIdToInt.entries, featureList[0]);
      if rs == [] then Err(KeyError) else PrependOk(rs, FeatureRestaurants(featureList[1..], restIdToInt))
  {
  }

  method MapFeatureIdsToRestaurants(featureList: seq<int>, restIdToInt: Dict<string, int>)
    returns (r: Result<seq<string>>)
    ensures r == FeatureRestaurants(featureList, restIdToInt)
  {
    var invert := InvertMapping(featureList, restIdToInt);
    var restList: seq<string> := [];
    var j := 0;
    assert featureList[0..] == featureList;
    assert PrependOk([], FeatureRestaurants(featureList, restIdToInt)) == FeatureRestaurants(featureList, restIdToInt) by {
      var fr := FeatureRestaurants(featureList, restIdToInt);
      if fr.Ok? {
        assert [] + fr.value == fr.value;
      }
    }
    while j < |featureList|
      invariant 0 <= j <= |featureList|
      invariant FeatureRestaurants(featureList, restIdToInt)
        == PrependOk(restList, FeatureRestaurants(featureList[j..], restIdToInt))
    {
      var feature := featureList[j];
      assert featureList[j..][1..] == featureList[j + 1..];
      FeatureRestaurantsUnfold(featureList[j..], restIdToInt);
      if feature !in invert.entries {
        return Err(KeyError);
      }
      PrependOkAssoc(restList, invert.entries[feature], FeatureRestaurants(featureList[j + 1..], restIdToInt));
      restList := restList + invert.entries[feature];
      j := j + 1;
    }
    assert FeatureRestaurants(featureList[j..], restIdToInt) == Ok([]);
    assert restList + [] == restList;
    r := Ok(restList);
  }

  // ---------------------------------------------------------------------------
  // The recommender and its constructor
  // ---------------------------------------------------------------------------

  /** The model names `MAPPING_MODEL` accepts. */
  const MAPPING_MODEL: set<string> := {"baseline", "als", "nhba", "tbh"}

  /** An argument that may be the value itself, a file name to load it from, or anything else. */
  datatype Arg<T> = Given(value: T) | FromFile(path: string) | Unsupported

  /**
   * The file loaders the constructor calls for file-name arguments:
   * `load_reviews` and `load_mapping` on the named file, read into the typed
   * tables, or the error they raise (`ValueError` for a malformed line).
   */
  datatype Loaders = Loaders(
    reviews: string -> Result<seq<Review>>,
    userCity: string -> Result<Dict<int, seq<string>>>,
    restCity: string -> Result<Dict<int, string>>,
    restIdToInt: string -> Result<Dict<string, int>>)

  /** One argument of the constructor: the value given, the file's table, or `ValueError` for another type. */
  function Resolve<T>(a: Arg<T>, load: string -> Result<T>): (r: Result<T>)
    ensures a.Unsupported? ==> r == Err(ValueError)
    ensures a.Given? ==> r == Ok(a.value)
    ensures a.FromFile? ==> r == load(a.path)
  {
    match a
    case Given(v) => Ok(v)
    case FromFile(path) => load(path)
    case Unsupported => Err(ValueError)
  }

  /** The state `LocalRecommendar.__init__` sets; `reviews` doubles as the reviews frame. */
  datatype LocalRecommendar = LocalRecommendar(
    reviews: seq<Review>,
    userCity: Dict<int, seq<string>>,
    restCity: Dict<int, string>,
    restIdToInt: Dict<string, int>,
    model: string,
    k: int,
    removeSeen: bool,
    inferLocByLatestRatingOnly: bool,
    latestRatingLimiter: int,
    userRatings: Dict<int, int>)

  /**
   * `LocalRecommendar.__init__`: each table is taken as given or loaded from
   * its file, in argument order; the first argument of another type raises
   * `ValueError`, the first failing load raises its own error, and only then
   * is a model name outside `MAPPING_MODEL` refused with `ValueError`.
   */
  method NewLocalRecommendar(
    reviews: Arg<seq<Review>>, userCity: Arg<Dict<int, seq<string>>>,
    restCity: Arg<Dict<int, string>>, restIdToInt: Arg<Dict<string, int>>,
    model: string, k: int, removeSeen: bool, inferLocByLatestRatingOnly: bool,
    latestRatingLimiter: int, loaders: Loaders)
    returns (r: Result<LocalRecommendar>)
    ensures var rv, uc := Resolve(reviews, loaders.reviews), Resolve(userCity, loaders.userCity);
      var rc, ri := Resolve(restCity, loaders.restCity), Resolve(restIdToInt, loaders.restIdToInt);
      && (r.Err? <==> rv.Err? || uc.Err? || rc.Err? || ri.Err? || model !in MAPPING_MODEL)
      && (r.Err? ==>
            r.error == (if rv.Err? then rv.error else if uc.Err? then uc.error
                        else if rc.Err? then rc.error else if ri.Err? then ri.error else ValueError))
      && (r.Ok? ==>
            && r.value.reviews == rv.value && r.value.userCity == uc.value
            && r.value.restCity == rc.value && r.value.restIdToInt == ri.value
            && r.value.model == model && r.value.k == k && r.value.removeSeen == removeSeen
            && r.value.inferLocByLatestRatingOnly == inferLocByLatestRatingOnly
            && r.value.latestRatingLimiter == latestRatingLimiter
            && IsUserRatings(r.value.userRatings, r.value.reviews))
  {
    var rv: seq<Review>;
    match reviews {
      case Given(v) => rv := v;
      case FromFile(path) =>
        var loaded := loaders.reviews(path);
        if loaded.Err? {
          return Err(loaded.error);
        }
        rv := loaded.value;
      case Unsupported => return Err(ValueError);
    }
    var uc: Dict<int, seq<string>>;
    match userCity {
      case Given(v) => uc := v;
      case FromFile(path) =>
        var loaded := loaders.userCity(path);
        if loaded.Err? {
          return Err(loaded.error);
        }
        uc := loaded.value;
      case Unsupported => return Err(ValueError);
    }
    var rc: Dict<int, string>;
    match restCity {
      case Given(v) => rc := v;
      case FromFile(path) =>
        var loaded := loaders.restCity(path);
        if loaded.Err? {
          return Err(loaded.error);
        }
        rc := loaded.value;
      case Unsupported => return Err(ValueError);
    }
    var ri: Dict<string, int>;
    match restIdToInt {
      case Given(v) => ri := v;
      case FromFile(path) =>
        var loaded := loaders.restIdToInt(path);
        if loaded.Err? {
          return Err(loaded.error);
        }
        ri := loaded.value;
      case Unsupported => return Err(ValueError);
    }
    if model !in MAPPING_MODEL {
      return Err(ValueError);
    }
    var ratings := MapUserToRatings(rv);
    r := Ok(LocalRecommendar(rv, uc, rc, ri, model, k, removeSeen, inferLocByLatestRatingOnly,
                             latestRatingLimiter, ratings));
  }

  // ---------------------------------------------------------------------------
  // Strategies
  // ---------------------------------------------------------------------------

  /**
   * A strategy seen from the recommender: built on a reviews table, trained,
   * then asked `predict(user_id, k, removeSeen)`; building it can fail.
   */
  type Strategy = (seq<Review>, int, int, bool) -> Result<seq<PredRow>>

  /**
   * `MAPPING_MODEL[model]`, with the ALS back-end `als` given from outside.
   * The time-biased model fails on an empty table (`iloc[0]`).
   */
  function StrategyFor(model: string, als: Scorer): Strategy {
    if model == "baseline" then
      (d: seq<Review>, u: int, k: int, rs: bool) =>
        Ok(BaselineModel.BaselinePredict(BaselineModel.RankRestaurantsByRates(d), d, u, k, rs))
    else if model == "nhba" then
      (d: seq<Review>, u: int, k: int, rs: bool) => Ok(NaiveHybrid.NaiveHybridScorer(als)(d, u, k, rs))
    else if model == "tbh" then
      (d: seq<Review>, u: int, k: int, rs: bool) =>
        if d == [] then Err(IndexError)
        else Ok(TimeBiasedHybrid.TimeBiasedModel(model, d, TimeBiasedHybrid.LATEST_RATING_RANGE,
                                                  TimeBiasedHybrid.Window(d)).Predict(als, u, k, rs))
    else
      (d: seq<Review>, u: int, k: int, rs: bool) => Ok(als(d, u, k, rs))
  }

  // ---------------------------------------------------------------------------
  // Specification of one backtest (personalized_train, one horizon)
  // ---------------------------------------------------------------------------

  function TimestampKey(r: Review): real { r.timestamp as real }

  /** The rows of `s` that satisfy `p`, in order (a boolean frame mask). */
  function FilterRows(s: seq<Review>, p: Review -> bool): (r: seq<Review>)
    ensures |r| <= |s|
    ensures forall x :: x in r <==> x in s && p(x)
  {
    if s == [] then [] else (if p(s[0]) then [s[0]] else []) + FilterRows(s[1..], p)
  }

  function UserRows(reviews: seq<Review>, user: int): (r: seq<Review>)
    ensures forall x :: x in r <==> x in reviews && x.user == user
  {
    FilterRows(reviews, (x: Review) => x.user == user)
  }

  /** The user's `n` earliest ratings (`sort_values(timestamp).head(n)`). */
  function FirstRatings(reviews: seq<Review>, user: int, n: int): seq<Review> {
    Head(SortAsc(UserRows(reviews, user), TimestampKey), n)
  }

  /** The city of each row's restaurant; a restaurant without a city raises `KeyError`. */
  function CitiesOf(rows: seq<Review>, restCity: Dict<int, string>): (r: Result<seq<string>>)
    ensures r.Ok? <==> forall j :: 0 <= j < |rows| ==> rows[j].item in restCity.entries
    ensures r.Err? ==> r.error == KeyError
    ensures r.Ok? ==>
      |r.value| == |rows| && forall j :: 0 <= j < |rows| ==> r.value[j] == restCity.entries[rows[j].item]
  {
    if rows == [] then Ok([])
    else
      var init := rows[..|rows| - 1];
      var last := rows[|rows| - 1];
      assert forall j :: 0 <= j < |init| ==> init[j] == rows[j];
      var prev := CitiesOf(init, restCity);
      if prev.Err? then prev
      else if last.item !in restCity.entries then Err(KeyError)
      else Ok(prev.value + [restCity.entries[last.item]])
  }

  /**
   * The cities the decrementing `while` loop collects: positions `j` with
   * `j + limiter >= len(city_list_all)`.
   */
  function LatestCities(all: seq<string>, limiter: int): set<string> {
    set j | 0 <= j < |all| && j + limiter >= |all| :: all[j]
  }

  function AllCities(all: seq<string>): set<string> {
    set c | c in all
  }

  /** The city set of one backtest, by the recommender's location mode. */
  function CitySet(rec: LocalRecommendar, all: seq<string>): set<string> {
    if rec.inferLocByLatestRatingOnly then LatestCities(all, rec.latestRatingLimiter) else AllCities(all)
  }

  /** The feature ids whose city is in `cities`, in dictionary order. */
  function RestaurantsIn(keys: seq<int>, entries: map<int, string>, cities: set<string>): (r: seq<int>)
    ensures forall x :: x in r <==> x in keys && x in entries && entries[x] in cities
  {
    if keys == [] then []
    else
      var init := keys[..|keys| - 1];
      var x := keys[|keys| - 1];
      assert keys == init + [x];
      RestaurantsIn(init, entries, cities) + (if x in entries && entries[x] in cities then [x] else [])
  }

  /** Every rating, of any user, of a listed restaurant, up to the cutoff. */
  function TrainingSlice(reviews: seq<Review>, restaurants: seq<int>, cutoff: int): (r: seq<Review>)
    ensures forall x :: x in r <==> x in reviews && x.item in restaurants && x.timestamp <= cutoff
  {
    FilterRows(reviews, (x: Review) => x.item in restaurants && x.timestamp <= cutoff)
  }

  /** The user's ratings after the cutoff: the ground truth. */
  function HeldOut(reviews: seq<Review>, user: int, cutoff: int): (r: seq<Review>)
    ensures forall x :: x in r <==> x in reviews && x.user == user && x.timestamp > cutoff
  {
    FilterRows(reviews, (x: Review) => x.user == user && x.timestamp > cutoff)
  }

  /** One iteration of `personalized_train`'s loop, for horizon `n`. */
  function Backtest(rec: LocalRecommendar, user: int, n: int, strategy: Strategy): Result<Metrics> {
    var first := FirstRatings(rec.reviews, user, n);
    var last :- ILoc(first, n - 1);
    var all :- CitiesOf(first, rec.restCity);
    var restaurants := RestaurantsIn(rec.restCity.keys, rec.restCity.entries, CitySet(rec, all));
    var preds :- strategy(TrainingSlice(rec.reviews, restaurants, last.timestamp), user, rec.k, rec.removeSeen);
    TopK(HeldOut(rec.reviews, user, last.timestamp), preds, TOP_K, THRESHOLD_SCALE_5)
  }

  /** The three metric lists `personalized_train` returns. */
  datatype HorizonScores = HorizonScores(pk: seq<real>, rk: seq<real>, apk: seq<real>)

  /**
   * The three lists built from per-horizon outcomes taken in order; the first
   * failing horizon's error is the result.
   */
  function Collect(rs: seq<Result<Metrics>>): (r: Result<HorizonScores>)
    ensures r.Ok? ==> |r.value.pk| == |rs| && |r.value.rk| == |rs| && |r.value.apk| == |rs|
  {
    if rs == [] then Ok(HorizonScores([], [], []))
    else
      var prev := Collect(rs[..|rs| - 1]);
      var m := rs[|rs| - 1];
      if prev.Err? then prev
      else if m.Err? then Err(m.error)
      else Ok(HorizonScores(prev.value.pk + [m.value.pk], prev.value.rk + [m.value.rk], prev.value.apk + [m.value.apk]))
  }

  /**
   * Horizon `i` of the lists is outcome `i`, and the lists exist exactly when
   * every outcome succeeds.
   */
  lemma {:induction false} CollectPerHorizon(rs: seq<Result<Metrics>>)
    ensures Collect(rs).Ok? <==> forall i :: 0 <= i < |rs| ==> rs[i].Ok?
    ensures Collect(rs).Ok? ==> forall i :: 0 <= i < |rs| ==>
      rs[i] == Ok(Metrics(Collect(rs).value.pk[i], Collect(rs).value.rk[i], Collect(rs).value.apk[i]))
  {
    if rs != [] {
      var init := rs[..|rs| - 1];
      CollectPerHorizon(init);
      assert forall i :: 0 <= i < |init| ==> init[i] == rs[i];
    }
  }

  /** Once a prefix of the outcomes fails, the later ones do not matter. */
  lemma {:induction false} CollectFailedPrefix(rs: seq<Result<Metrics>>, n: nat)
    requires n <= |rs| && Collect(rs[..n]).Err?
    ensures Collect(rs) == Collect(rs[..n])
    decreases |rs| - n
  {
    if n < |rs| {
      assert rs[..n + 1][..n] == rs[..n];
      CollectFailedPrefix(rs, n + 1);
    } else {
      assert rs[..n] == rs;
    }
  }

  /** One more outcome either extends the three lists or, failing, decides the whole result. */
  lemma {:induction false} CollectStep(rs: seq<Result<Metrics>>, i: nat, acc: HorizonScores)
    requires i < |rs| && Collect(rs[..i]) == Ok(acc)
    ensures rs[i].Err? ==> Collect(rs) == Err(rs[i].error)
    ensures rs[i].Ok? ==>
      Collect(rs[..i + 1]) == Ok(HorizonScores(acc.pk + [rs[i].value.pk], acc.rk + [rs[i].value.rk], acc.apk + [rs[i].value.apk]))
  {
    assert rs[..i + 1][..i] == rs[..i];
    if rs[i].Err? {
      CollectFailedPrefix(rs, i + 1);
    }
  }

  /** The outcome of every horizon. */
  function Outcomes(rec: LocalRecommendar, user: int, numbers: seq<int>, strategy: Strategy)
    : (rs: seq<Result<Metrics>>)
    ensures |rs| == |numbers|
    ensures forall i :: 0 <= i < |numbers| ==> rs[i] == Backtest(rec, user, numbers[i], strategy)
  {
    seq(|numbers|, i requires 0 <= i < |numbers| => Backtest(rec, user, numbers[i], strategy))
  }

  /** `personalized_train(user_id, train_number)` */
  function BacktestAll(rec: LocalRecommendar, user: int, numbers: seq<int>, strategy: Strategy)
    : Result<HorizonScores>
  {
    Collect(Outcomes(rec, user, numbers, strategy))
  }

  /**
   * Horizon by horizon, the lists exist exactly when every backtest succeeds,
   * and entry `i` of each list is the metric of horizon `numbers[i]`.
   */
  lemma {:induction false} BacktestAllPerHorizon(rec: LocalRecommendar, user: int, numbers: seq<int>, strategy: Strategy)
    ensures var r := BacktestAll(rec, user, numbers, strategy);
      && (r.Ok? <==> forall i :: 0 <= i < |numbers| ==> Backtest(rec, user, numbers[i], strategy).Ok?)
      && (r.Ok? ==> |r.value.pk| == |numbers| && |r.value.rk| == |numbers| && |r.value.apk| == |numbers|)
      && (r.Ok? ==> forall i :: 0 <= i < |numbers| ==>
            Backtest(rec, user, numbers[i], strategy) == Ok(Metrics(r.value.pk[i], r.value.rk[i], r.value.apk[i])))
  {
    CollectPerHorizon(Outcomes(rec, user, numbers, strategy));
  }

  // ---------------------------------------------------------------------------
  // personalized_train, imperatively
  // ---------------------------------------------------------------------------

  /** `city_list_all`: the city of each of the first ratings, in order. */
  method CollectCities(first: seq<Review>, restCity: Dict<int, string>) returns (r: Result<seq<string>>)
    ensures r == CitiesOf(first, restCity)
  {
    var cities: seq<string> := [];
    var i := 0;
    while i < |first|
      invariant 0 <= i <= |first|
      invariant CitiesOf(first[..i], restCity) == Ok(cities)
    {
      assert first[..i + 1][..i] == first[..i];
      if first[i].item !in restCity.entries {
        assert CitiesOf(first[..i + 1], restCity).Err?;
        CitiesErrExtends(first, restCity, i + 1);
        return Err(KeyError);
      }
      cities := cities + [restCity.entries[first[i].item]];
      i := i + 1;
    }
    assert first[..i] == first;
    r := Ok(cities);
  }

  lemma {:induction false} CitiesErrExtends(rows: seq<Review>, restCity: Dict<int, string>, n: nat)
    requires n <= |rows| && CitiesOf(rows[..n], restCity).Err?
    ensures CitiesOf(rows, restCity) == Err(KeyError)
  {
    var j :| 0 <= j < n && rows[..n][j].item !in restCity.entries;
    assert rows[j].item !in restCity.entries;
  }

  /**
   * The decrementing `while` loop over `city_list_all` in latest-only mode:
   * walks back from the last city while `index + limiter >= len`.
   */
  method LatestCitySet(all: seq<string>, limiter: int) returns (cities: set<string>)
    ensures cities == LatestCities(all, limiter)
  {
    cities := {};
    var index := |all| - 1;
    while index >= 0 && index + limiter >= |all|
      invariant -1 <= index < |all|
      invariant cities == set j | index < j < |all| && j + limiter >= |all| :: all[j]
      invariant index + 1 < |all| ==> index + 1 + limiter >= |all|
    {
      cities := cities + {all[index]};
      index := index - 1;
    }
  }

  /** `restaurant_list`: the restaurants whose city is in `cities`, in dictionary order. */
  method RestaurantsInCities(restCity: Dict<int, string>, cities: set<string>) returns (r: seq<int>)
    ensures r == RestaurantsIn(restCity.keys, restCity.entries, cities)
  {
    r := [];
    var i := 0;
    while i < |restCity.keys|
      invariant 0 <= i <= |restCity.keys|
      invariant r == RestaurantsIn(restCity.keys[..i], restCity.entries, cities)
    {
      var restaurant := restCity.keys[i];
      assert restCity.keys[..i + 1][..i] == restCity.keys[..i];
      if restaurant in restCity.entries && restCity.entries[restaurant] in cities {
        r := r + [restaurant];
      }
      i := i + 1;
    }
    assert restCity.keys[..i] == restCity.keys;
  }

  /** The body of `personalized_train`'s loop for horizon `number`. */
  method BacktestHorizon(rec: LocalRecommendar, user: int, number: int, strategy: Strategy)
    returns (r: Result<Metrics>)
    ensures r == Backtest(rec, user, number, strategy)
  {
    var first := FirstRatings(rec.reviews, user, number);
    var last :- ILoc(first, number - 1);
    var all :- CollectCities(first, rec.restCity);
    var cities: set<string>;
    if rec.inferLocByLatestRatingOnly {
      cities := LatestCitySet(all, rec.latestRatingLimiter);
    } else {
      cities := set c | c in all;
    }
    var restaurants := RestaurantsInCities(rec.restCity, cities);
    var subset := TrainingSlice(rec.reviews, restaurants, last.timestamp);
    var preds :- strategy(subset, user, rec.k, rec.removeSeen);
    r := EvaluateTopKForUser(HeldOut(rec.reviews, user, last.timestamp), preds, TOP_K, THRESHOLD_SCALE_5);
  }

  /**
   * `personalized_train(user_id, train_number)`: one backtest per horizon,
   * appending to the three lists; the first failing horizon raises.
   */
  method PersonalizedTrain(rec: LocalRecommendar, user: int, numbers: seq<int>, strategy: Strategy)
    returns (r: Result<HorizonScores>)
    ensures r == BacktestAll(rec, user, numbers, strategy)
  {
    ghost var rs := Outcomes(rec, user, numbers, strategy);
    var pkList, rkList, apkList := [], [], [];
    var i := 0;
    while i < |numbers|
      invariant 0 <= i <= |numbers|
      invariant Collect(rs[..i]) == Ok(HorizonScores(pkList, rkList, apkList))
    {
      var m := BacktestHorizon(rec, user, numbers[i], strategy);
      CollectStep(rs, i, HorizonScores(pkList, rkList, apkList));
      if m.Err? {
        return Err(m.error);
      }
      pkList, rkList, apkList := pkList + [m.value.pk], rkList + [m.value.rk], apkList + [m.value.apk];
      i := i + 1;
    }
    assert rs[..i] == rs;
    r := Ok(HorizonScores(pkList, rkList, apkList));
  }

  // ---------------------------------------------------------------------------
  // Properties of one backtest
  // ---------------------------------------------------------------------------

  /**
   * For `1 <= n <= count` the cutoff row is the user's `n`-th earliest rating,
   * no later than any of the first `n` and no earlier than any later one; a
   * horizon of 0 or beyond the user's count fails at `iloc` with `IndexError`.
   */
  lemma {:induction false} CutoffIsNthEarliest(rec: LocalRecommendar, user: int, n: int, strategy: Strategy)
    ensures var sorted := SortAsc(UserRows(rec.reviews, user), TimestampKey);
      var first := FirstRatings(rec.reviews, user, n);
      && (1 <= n <= |sorted| ==>
            && ILoc(first, n - 1) == Ok(sorted[n - 1])
            && first == sorted[..n]
            && (forall x :: x in first ==> x.timestamp <= sorted[n - 1].timestamp)
            && (forall j :: n <= j < |sorted| ==> sorted[j].timestamp >= sorted[n - 1].timestamp))
      && (n == 0 || n > |sorted| ==> Backtest(rec, user, n, strategy) == Err(IndexError))
  {
    var sorted := SortAsc(UserRows(rec.reviews, user), TimestampKey);
    var first := FirstRatings(rec.reviews, user, n);
    if 1 <= n <= |sorted| {
      assert first == sorted[..n];
      NthInOrder(sorted, n);
    }
  }

  /** In rows ordered by time, row `n - 1` is no earlier than the rows before it and no later than those after. */
  lemma {:induction false} NthInOrder(sorted: seq<Review>, n: nat)
    requires 1 <= n <= |sorted|
    requires forall i, j :: 0 <= i < j < |sorted| ==> TimestampKey(sorted[i]) <= TimestampKey(sorted[j])
    ensures forall x :: x in sorted[..n] ==> x.timestamp <= sorted[n - 1].timestamp
    ensures forall j :: n <= j < |sorted| ==> sorted[j].timestamp >= sorted[n - 1].timestamp
  {
    forall x | x in sorted[..n] ensures x.timestamp <= sorted[n - 1].timestamp {
      var j :| 0 <= j < n && sorted[j] == x;
      assert j == n - 1 || TimestampKey(sorted[j]) <= TimestampKey(sorted[n - 1]);
    }
    forall j | n <= j < |sorted| ensures sorted[j].timestamp >= sorted[n - 1].timestamp {
      assert TimestampKey(sorted[n - 1]) <= TimestampKey(sorted[j]);
    }
  }

  /**
   * The latest-only city set holds the cities of the last `limiter` ratings
   * (all of them when `limiter` is at least their number, none when it is
   * not positive).
   */
  lemma {:induction false} LatestCitiesAreLastOnes(all: seq<string>, limiter: int)
    ensures var m := if limiter <= 0 then 0 else if limiter <= |all| then limiter else |all|;
      var suffix := all[|all| - m..];
      LatestCities(all, limiter) == set c | c in suffix
  {
    var m := if limiter <= 0 then 0 else if limiter <= |all| then limiter else |all|;
    var suffix := all[|all| - m..];
    forall c | c in LatestCities(all, limiter) ensures c in suffix {
      var j :| 0 <= j < |all| && j + limiter >= |all| && all[j] == c;
      assert suffix[j - (|all| - m)] == c;
    }
    forall c | c in suffix ensures c in LatestCities(all, limiter) {
      var j :| 0 <= j < |suffix| && suffix[j] == c;
      assert all[j + |all| - m] == c;
    }
  }

  /**
   * The training slice and the ground truth are separated in time: every
   * training row is at or before the cutoff and every held-out row after it,
   * so no row is in both.
   */
  lemma {:induction false} TrainingBeforeTruth(reviews: seq<Review>, restaurants: seq<int>, user: int, cutoff: int)
    ensures forall x, y ::
              x in TrainingSlice(reviews, restaurants, cutoff) && y in HeldOut(reviews, user, cutoff)
              ==> x.timestamp < y.timestamp
    ensures forall x :: x in TrainingSlice(reviews, restaurants, cutoff) ==> x !in HeldOut(reviews, user, cutoff)
  {
  }

  /**
   * When the city set is taken from all `n` ratings, every one of those
   * ratings is part of the training slice: its restaurant lies in one of the
   * inferred cities and it is no later than the cutoff.
   */
  lemma {:induction false} FirstRatingsInTraining(rec: LocalRecommendar, user: int, n: int)
    requires rec.restCity.Valid() && !rec.inferLocByLatestRatingOnly
    requires 1 <= n <= |UserRows(rec.reviews, user)|
    requires CitiesOf(FirstRatings(rec.reviews, user, n), rec.restCity).Ok?
    ensures var first := FirstRatings(rec.reviews, user, n);
      var all := CitiesOf(first, rec.restCity).value;
      var restaurants := RestaurantsIn(rec.restCity.keys, rec.restCity.entries, CitySet(rec, all));
      forall x :: x in first ==> x in TrainingSlice(rec.reviews, restaurants, first[n - 1].timestamp)
  {
    var sorted := SortAsc(UserRows(rec.reviews, user), TimestampKey);
    var first := FirstRatings(rec.reviews, user, n);
    var all := CitiesOf(first, rec.restCity).value;
    var restaurants := RestaurantsIn(rec.restCity.keys, rec.restCity.entries, CitySet(rec, all));
    CutoffIsNthEarliest(rec, user, n, (d: seq<Review>, u: int, k: int, rs: bool) => Err(ValueError));
    forall x | x in first ensures x in TrainingSlice(rec.reviews, restaurants, first[n - 1].timestamp) {
      var j :| 0 <= j < |first| && first[j] == x;
      assert x in multiset(sorted);
      assert x in UserRows(rec.reviews, user);
      assert all[j] == rec.restCity.entries[x.item];
      assert x.item in restaurants;
    }
  }

  /** A strategy whose prediction frames carry positional labels 0..n-1. */
  ghost predicate PositionalStrategy(strategy: Strategy) {
    forall d, u, k, rs :: strategy(d, u, k, rs).Ok? ==> PositionalLabels(strategy(d, u, k, rs).value)
  }

  /** The popularity strategy resets the index, so its labels are positions. */
  lemma {:induction false} BaselineIsPositional(als: Scorer)
    ensures PositionalStrategy(StrategyFor("baseline", als))
  {
    forall d, u, k, rs ensures PositionalLabels(StrategyFor("baseline", als)(d, u, k, rs).value) {
      BaselineModel.BaselinePredictContents(d, u, k, rs);
      var full := BaselineModel.BaselineRanking(d, u, rs);
      if k > 0 {
        PrefixPositional(full, |Head(full, k)|);
        assert Head(full, k) == full[..|Head(full, k)|];
      }
    }
  }

  /**
   * With a strategy whose labels are positions, a successful backtest has
   * precision and average precision in [0, 1].
   */
  lemma {:induction false} BacktestBounds(rec: LocalRecommendar, user: int, n: int, strategy: Strategy)
    requires PositionalStrategy(strategy)
    requires Backtest(rec, user, n, strategy).Ok?
    ensures 0.0 <= Backtest(rec, user, n, strategy).value.pk <= 1.0
    ensures 0.0 <= Backtest(rec, user, n, strategy).value.apk <= 1.0
  {
    var first := FirstRatings(rec.reviews, user, n);
    var last := ILoc(first, n - 1).value;
    var all := CitiesOf(first, rec.restCity).value;
    var restaurants := RestaurantsIn(rec.restCity.keys, rec.restCity.entries, CitySet(rec, all));
    var out := strategy(TrainingSlice(rec.reviews, restaurants, last.timestamp), user, rec.k, rec.removeSeen);
    var preds := out.value;
    var truth := HeldOut(rec.reviews, user, last.timestamp);
    assert Backtest(rec, user, n, strategy) == TopK(truth, preds, TOP_K, THRESHOLD_SCALE_5);
    PrecisionInUnitInterval(truth, preds, TOP_K, THRESHOLD_SCALE_5);
    AveragePrecisionBounds(truth, preds, TOP_K, THRESHOLD_SCALE_5);
  }

  // ---------------------------------------------------------------------------
  // train_for_all_user
  // ---------------------------------------------------------------------------

  /** Python's `int(x)` on a float: truncation toward zero. */
  function Trunc(x: real): (r: int)
    ensures x >= 0.0 ==> 0 <= r && r as real <= x < r as real + 1.0
    ensures x < 0.0 ==> r <= 0 && r as real - 1.0 < x <= r as real
  {
    if x >= 0.0 then x.Floor else -((-x).Floor)
  }

  /** One ratio horizon: `int(x * count)`. */
  function RatioHorizon(x: real, count: int): int {
    Trunc(x * count as real)
  }

  /** The horizons: rating counts, or ratios of the user's stored rating number. */
  datatype Horizons = Counts(numbers: seq<int>) | Ratios(ratios: seq<real>)

  /**
   * The horizons of one user. Ratios are multiplied by `user_ratings[user]`
   * and truncated; the lookup raises `KeyError` for an unknown user, but only
   * when some ratio is there to be multiplied.
   */
  function TrainNumbers(rec: LocalRecommendar, user: int, h: Horizons): (r: Result<seq<int>>)
    ensures h.Counts? ==> r == Ok(h.numbers)
    ensures h.Ratios? ==>
      && (r.Err? <==> h.ratios != [] && user !in rec.userRatings.entries)
      && (r.Err? ==> r.error == KeyError)
      && (r.Ok? ==>
            && |r.value| == |h.ratios|
            && forall i :: 0 <= i < |h.ratios| ==>
                 r.value[i] == RatioHorizon(h.ratios[i], rec.userRatings.entries[user]))
  {
    match h
    case Counts(numbers) => Ok(numbers)
    case Ratios(ratios) =>
      if ratios == [] then Ok([])
      else if user !in rec.userRatings.entries then Err(KeyError)
      else
        var count := rec.userRatings.entries[user];
        Ok(seq(|ratios|, i requires 0 <= i < |ratios| => RatioHorizon(ratios[i], count)))
  }

  /** `np.argmax`: the first position of the maximum; an empty list raises `ValueError`. */
  function FirstArgMax(s: seq<real>): (r: Result<nat>)
    ensures r.Err? <==> s == []
    ensures r.Err? ==> r.error == ValueError
    ensures r.Ok? ==>
      && r.value < |s|
      && (forall j :: 0 <= j < |s| ==> s[j] <= s[r.value])
      && (forall j :: 0 <= j < r.value ==> s[j] < s[r.value])
  {
    if s == [] then Err(ValueError)
    else if |s| == 1 then Ok(0)
    else
      var t := FirstArgMax(s[1..]).value + 1;
      assert forall j :: 1 <= j < |s| ==> s[j] == s[1..][j - 1];
      if s[0] >= s[t] then Ok(0) else Ok(t)
  }

  /** One line of `user_rating_info.data`. */
  datatype UserReport = UserReport(
    user: int, totalRatings: int, bestTrainNumber: int, apk: real, pk: real, rk: real)

  /**
   * One user's iteration of `train_for_all_user`: backtest every horizon and
   * report the one with the first-highest average precision. Writing the
   * report line looks `user_ratings[user]` up again, so an unknown user
   * raises `KeyError` there at the latest.
   */
  function BestOf(rec: LocalRecommendar, user: int, h: Horizons, strategy: Strategy): Result<UserReport> {
    var numbers :- TrainNumbers(rec, user, h);
    var scores :- BacktestAll(rec, user, numbers, strategy);
    var best :- FirstArgMax(scores.apk);
    if user !in rec.userRatings.entries then Err(KeyError)
    else Ok(UserReport(user, rec.userRatings.entries[user], numbers[best],
                       scores.apk[best], scores.pk[best], scores.rk[best]))
  }

  /** The population mean, or NaN (numpy's 0.0 / 0) for an empty user list. */
  datatype Mean = Number(value: real) | NotANumber

  function Reports(rec: LocalRecommendar, users: seq<int>, h: Horizons, strategy: Strategy)
    : (rs: seq<Result<UserReport>>)
    ensures |rs| == |users|
    ensures forall i :: 0 <= i < |users| ==> rs[i] == BestOf(rec, users[i], h, strategy)
  {
    seq(|users|, i requires 0 <= i < |users| => BestOf(rec, users[i], h, strategy))
  }

  function BestApks(reports: seq<UserReport>): (r: seq<real>)
    ensures |r| == |reports| && forall i :: 0 <= i < |reports| ==> r[i] == reports[i].apk
  {
    seq(|reports|, i requires 0 <= i < |reports| => reports[i].apk)
  }

  /** What `train_for_all_user` returns: the sum of the best apks over the number of users. */
  function PopulationMean(rec: LocalRecommendar, users: seq<int>, h: Horizons, strategy: Strategy): Result<Mean> {
    var reports :- AllOk(Reports(rec, users, h, strategy));
    if |users| == 0 then Ok(NotANumber) else Ok(Number(Sum(BestApks(reports)) / |users| as real))
  }

  /** The body of `train_for_all_user`'s loop for one user, up to its report line. */
  method BestOfUser(rec: LocalRecommendar, user: int, h: Horizons, strategy: Strategy)
    returns (r: Result<UserReport>)
    ensures r == BestOf(rec, user, h, strategy)
  {
    var numbers :- TrainNumbers(rec, user, h);
    var scores :- PersonalizedTrain(rec, user, numbers, strategy);
    var best :- FirstArgMax(scores.apk);
    if user !in rec.userRatings.entries {
      return Err(KeyError);
    }
    r := Ok(UserReport(user, rec.userRatings.entries[user], numbers[best],
                       scores.apk[best], scores.pk[best], scores.rk[best]));
  }

  /**
   * `train_for_all_user`: for each user in order, backtest, pick the best
   * horizon and append its report line; `lines` are the lines written before
   * the loop ended, normally or by an exception.
   */
  method TrainForAllUser(rec: LocalRecommendar, users: seq<int>, h: Horizons, strategy: Strategy)
    returns (r: Result<Mean>, lines: seq<UserReport>)
    ensures r == PopulationMean(rec, users, h, strategy)
    ensures |lines| <= |users| && AllOk(Reports(rec, users, h, strategy)[..|lines|]) == Ok(lines)
  {
    var bestApk: seq<real> := [];
    lines := [];
    var i := 0;
    assert Reports(rec, users, h, strategy)[..0] == [];
    while i < |users|
      invariant ReportedTo(rec, users, h, strategy, i, lines, bestApk)
    {
      var report;
      report, lines, bestApk := ReportUser(rec, users, h, strategy, i, lines, bestApk);
      if report.Err? {
        return Err(report.error), lines;
      }
      i := i + 1;
    }
    assert Reports(rec, users, h, strategy)[..i] == Reports(rec, users, h, strategy);
    if |users| == 0 {
      r := Ok(NotANumber);
    } else {
      r := Ok(Number(Sum(bestApk) / |users| as real));
    }
  }

  /** The report lines of the first `i` users are written and their best apks collected. */
  ghost predicate ReportedTo(rec: LocalRecommendar, users: seq<int>, h: Horizons, strategy: Strategy,
                             i: int, lines: seq<UserReport>, bestApk: seq<real>) {
    && 0 <= i <= |users| && |lines| == i
    && AllOk(Reports(rec, users, h, strategy)[..i]) == Ok(lines)
    && bestApk == BestApks(lines)
  }

  /** User `i`'s report is appended, or its failure is the failure of the whole sweep. */
  method ReportUser(rec: LocalRecommendar, users: seq<int>, h: Horizons, strategy: Strategy,
                    i: nat, lines: seq<UserReport>, bestApk: seq<real>)
    returns (report: Result<UserReport>, lines': seq<UserReport>, bestApk': seq<real>)
    requires ReportedTo(rec, users, h, strategy, i, lines, bestApk) && i < |users|
    ensures report.Err? ==> lines' == lines && AllOk(Reports(rec, users, h, strategy)) == Err(report.error)
    ensures report.Ok? ==> ReportedTo(rec, users, h, strategy, i + 1, lines', bestApk')
  {
    report := BestOfUser(rec, users[i], h, strategy);
    AllOkExtend(Reports(rec, users, h, strategy), i, lines);
    lines', bestApk' := lines, bestApk;
    if report.Err? {
      return;
    }
    bestApk' := bestApk + [report.value.apk];
    lines' := lines + [report.value];
    assert bestApk' == BestApks(lines');
  }

  // ---------------------------------------------------------------------------
  // Properties of the population sweep
  // ---------------------------------------------------------------------------

  /** A ratio in [0, 1] of a non-negative count gives a horizon between 0 and that count. */
  lemma {:induction false} RatioHorizonBounds(x: real, count: int)
    requires 0.0 <= x <= 1.0 && count >= 0
    ensures 0 <= RatioHorizon(x, count) <= count
  {
    var c := count as real;
    var p := x * c;
    assert 0.0 <= p <= c by {
      ProductBounds(x, c);
    }
    assert RatioHorizon(x, count) == Trunc(p);
  }

  lemma {:induction false} ProductBounds(x: real, c: real)
    requires 0.0 <= x <= 1.0 && c >= 0.0
    ensures 0.0 <= x * c <= c
  {
    assert (1.0 - x) * c == c - x * c;
  }

  /**
   * The reported horizon is the first one with the highest average
   * precision, and the reported metrics are that horizon's.
   */
  lemma {:induction false} BestIsFirstMaximum(rec: LocalRecommendar, user: int, h: Horizons, strategy: Strategy)
    requires BestOf(rec, user, h, strategy).Ok?
    ensures TrainNumbers(rec, user, h).Ok?
    ensures BacktestAll(rec, user, TrainNumbers(rec, user, h).value, strategy).Ok?
    ensures var numbers := TrainNumbers(rec, user, h).value;
      var scores := BacktestAll(rec, user, numbers, strategy).value;
      var report := BestOf(rec, user, h, strategy).value;
      && user in rec.userRatings.entries
      && report.user == user && report.totalRatings == rec.userRatings.entries[user]
      && exists i :: 0 <= i < |numbers|
           && report.bestTrainNumber == numbers[i]
           && report.apk == scores.apk[i] && report.pk == scores.pk[i] && report.rk == scores.rk[i]
           && (forall j :: 0 <= j < |numbers| ==> scores.apk[j] <= scores.apk[i])
           && (forall j :: 0 <= j < i ==> scores.apk[j] < scores.apk[i])
  {
    var numbers := TrainNumbers(rec, user, h).value;
    var scores := BacktestAll(rec, user, numbers, strategy).value;
    var best := FirstArgMax(scores.apk).value;
    assert best < |numbers|;
  }

  /** With a positional strategy, every reported average precision lies in [0, 1]. */
  lemma {:induction false} BestApkInUnitInterval(rec: LocalRecommendar, user: int, h: Horizons, strategy: Strategy)
    requires PositionalStrategy(strategy)
    requires BestOf(rec, user, h, strategy).Ok?
    ensures 0.0 <= BestOf(rec, user, h, strategy).value.apk <= 1.0
  {
    BestIsFirstMaximum(rec, user, h, strategy);
    var numbers := TrainNumbers(rec, user, h).value;
    var scores := BacktestAll(rec, user, numbers, strategy).value;
    var report := BestOf(rec, user, h, strategy).value;
    var i :| 0 <= i < |numbers| && report.apk == scores.apk[i];
    BacktestAllPerHorizon(rec, user, numbers, strategy);
    BacktestBounds(rec, user, numbers[i], strategy);
  }

  /**
   * With a positional strategy the population mean of best average
   * precisions lies in [0, 1]; every user counts in the denominator.
   */
  lemma {:induction false} MeanInUnitInterval(rec: LocalRecommendar, users: seq<int>, h: Horizons, strategy: Strategy)
    requires PositionalStrategy(strategy)
    requires PopulationMean(rec, users, h, strategy).Ok?
    ensures users == [] <==> PopulationMean(rec, users, h, strategy) == Ok(NotANumber)
    ensures users != [] ==> 0.0 <= PopulationMean(rec, users, h, strategy).value.value <= 1.0
  {
    var rs := Reports(rec, users, h, strategy);
    AllOkPerIndex(rs);
    if users != [] {
      var reports := AllOk(rs).value;
      var apks := BestApks(reports);
      forall i | 0 <= i < |apks| ensures 0.0 <= apks[i] <= 1.0 {
        assert rs[i] == Ok(reports[i]);
        BestApkInUnitInterval(rec, users[i], h, strategy);
      }
      SumBounds(apks);
      RatioInUnitInterval(Sum(apks), |users| as real);
    }
  }

  // ---------------------------------------------------------------------------
  // predict
  // ---------------------------------------------------------------------------

  /** The user's ratings, newest first (`sort_values(timestamp, ascending=False)`). */
  function NewestFirst(reviews: seq<Review>, user: int): (r: seq<Review>)
    ensures forall x :: x in r <==> x in reviews && x.user == user
    ensures forall i, j :: 0 <= i < j < |r| ==> r[i].timestamp >= r[j].timestamp
  {
    var r := SortDesc(UserRows(reviews, user), TimestampKey);
    assert forall x :: x in r <==> x in multiset(UserRows(reviews, user));
    assert forall i, j :: 0 <= i < j < |r| ==> TimestampKey(r[i]) >= TimestampKey(r[j]);
    r
  }

  /** How many ratings `predict`'s loop visits: `min(limiter, n)`, none for `limiter <= 0`. */
  function RecentCount(n: nat, limiter: int): (m: nat)
    ensures m <= n
    ensures limiter <= 0 ==> m == 0
    ensures limiter > 0 ==> m == if limiter <= n then limiter else n
  {
    if limiter <= 0 then 0 else if limiter <= n then limiter else n
  }

  /** The cities of the user's `min(limiter, n)` newest ratings. */
  function RecentCities(rec: LocalRecommendar, user: int): Result<set<string>> {
    var rows := NewestFirst(rec.reviews, user);
    CitySetOfRows(rows[..RecentCount(|rows|, rec.latestRatingLimiter)], rec.restCity)
  }

  /** The set of the rows' cities, or `KeyError` for a restaurant without one. */
  function CitySetOfRows(rows: seq<Review>, restCity: Dict<int, string>): Result<set<string>> {
    var cities :- CitiesOf(rows, restCity);
    Ok(set c | c in cities)
  }

  /** `res_dataframe[COL_ITEM].tolist()` */
  function PredictedItems(preds: seq<PredRow>): (r: seq<int>)
    ensures |r| == |preds| && forall i :: 0 <= i < |preds| ==> r[i] == preds[i].item
  {
    seq(|preds|, i requires 0 <= i < |preds| => preds[i].item)
  }

  /** The rows of restaurants in the given list, at any time. */
  function RowsOfRestaurants(reviews: seq<Review>, restaurants: seq<int>): (r: seq<Review>)
    ensures forall x :: x in r <==> x in reviews && x.item in restaurants
  {
    FilterRows(reviews, (x: Review) => x.item in restaurants)
  }

  /** The frame the strategy predicts in `predict`, trained on every rating of the inferred cities. */
  function PredictFrame(rec: LocalRecommendar, user: int, strategy: Strategy): Result<seq<PredRow>> {
    var cities :- RecentCities(rec, user);
    var restaurants := RestaurantsIn(rec.restCity.keys, rec.restCity.entries, cities);
    strategy(RowsOfRestaurants(rec.reviews, restaurants), user, rec.k, rec.removeSeen)
  }

  /**
   * What `predict(user_id)` returns: the restaurant ids of the predicted
   * feature ids. Outside latest-only mode the city set refers to a name that
   * is never bound there, which raises `NameError`.
   */
  function PredictFor(rec: LocalRecommendar, user: int, strategy: Strategy): Result<seq<string>> {
    if !rec.inferLocByLatestRatingOnly then Err(NameError)
    else
      var preds :- PredictFrame(rec, user, strategy);
      FeatureRestaurants(PredictedItems(preds), rec.restIdToInt)
  }

  /** `predict`'s loop over the newest ratings, adding each one's city. */
  method RecentCitySet(rec: LocalRecommendar, user: int) returns (r: Result<set<string>>)
    ensures r == RecentCities(rec, user)
  {
    var rows := NewestFirst(rec.reviews, user);
    r := CitySetOfNewest(rows, rec.latestRatingLimiter, rec.restCity);
  }

  /** The loop itself: visits rows while `index < len(rows)` and `index < limiter`. */
  method CitySetOfNewest(rows: seq<Review>, limiter: int, restCity: Dict<int, string>)
    returns (r: Result<set<string>>)
    ensures r == CitySetOfRows(rows[..RecentCount(|rows|, limiter)], restCity)
  {
    ghost var m := RecentCount(|rows|, limiter);
    ghost var visited: seq<string> := [];
    var cities: set<string> := {};
    var index := 0;
    while index < |rows| && index < limiter
      invariant 0 <= index <= m
      invariant CitiesOf(rows[..index], restCity) == Ok(visited)
      invariant cities == set c | c in visited
    {
      assert rows[..index + 1][..index] == rows[..index];
      var item := rows[index].item;
      if item !in restCity.entries {
        assert CitiesOf(rows[..index + 1], restCity).Err?;
        assert rows[..m][..index + 1] == rows[..index + 1];
        CitiesErrExtends(rows[..m], restCity, index + 1);
        return Err(KeyError);
      }
      visited := visited + [restCity.entries[item]];
      cities := cities + {restCity.entries[item]};
      index := index + 1;
    }
    assert rows[..index] == rows[..m];
    r := Ok(cities);
  }

  method Predict(rec: LocalRecommendar, user: int, strategy: Strategy) returns (r: Result<seq<string>>)
    ensures r == PredictFor(rec, user, strategy)
  {
    if !rec.inferLocByLatestRatingOnly {
      return Err(NameError);
    }
    var cities :- RecentCitySet(rec, user);
    var restaurants := RestaurantsInCities(rec.restCity, cities);
    var subset := RowsOfRestaurants(rec.reviews, restaurants);
    var preds :- strategy(subset, user, rec.k, rec.removeSeen);
    r := MapFeatureIdsToRestaurants(PredictedItems(preds), rec.restIdToInt);
  }

  /** The set of cities of rows whose items all have a city. */
  lemma {:induction false} CitiesOfRowsSet(rows: seq<Review>, restCity: Dict<int, string>)
    requires forall j :: 0 <= j < |rows| ==> rows[j].item in restCity.entries
    ensures CitiesOf(rows, restCity).Ok?
    ensures (set c | c in CitiesOf(rows, restCity).value)
         == set x | x in rows && x.item in restCity.entries :: restCity.entries[x.item]
  {
    var cities := CitiesOf(rows, restCity).value;
    var expected := set x | x in rows && x.item in restCity.entries :: restCity.entries[x.item];
    forall c | c in cities ensures c in expected {
      var j :| 0 <= j < |cities| && cities[j] == c;
      assert rows[j] in rows;
    }
    forall c | c in expected ensures c in cities {
      var x :| x in rows && x.item in restCity.entries && restCity.entries[x.item] == c;
      var j :| 0 <= j < |rows| && rows[j] == x;
      assert cities[j] == c;
    }
  }

  /**
   * When the limiter covers all of the user's ratings, the inferred cities
   * are the cities of every restaurant the user rated.
   */
  lemma {:induction false} RecentCitiesOfAllRatings(rec: LocalRecommendar, user: int)
    requires rec.latestRatingLimiter >= |UserRows(rec.reviews, user)|
    requires forall x :: x in rec.reviews && x.user == user ==> x.item in rec.restCity.entries
    ensures RecentCities(rec, user) ==
      Ok(set x | x in rec.reviews && x.user == user && x.item in rec.restCity.entries :: rec.restCity.entries[x.item])
  {
    var rows := NewestFirst(rec.reviews, user);
    assert |rows| == |UserRows(rec.reviews, user)| by {
      assert rows == SortDesc(UserRows(rec.reviews, user), TimestampKey);
    }
    var m := RecentCount(|rows|, rec.latestRatingLimiter);
    assert rows[..m] == rows;
    assert forall j :: 0 <= j < |rows| ==> rows[j] in rows;
    CitiesOfRowsSet(rows, rec.restCity);
    var a := set x | x in rows && x.item in rec.restCity.entries :: rec.restCity.entries[x.item];
    var b := set x | x in rec.reviews && x.user == user && x.item in rec.restCity.entries :: rec.restCity.entries[x.item];
    assert a == b;
  }

  /**
   * `predict` raises `NameError` outside latest-only mode; when it returns,
   * it returns exactly the restaurant ids whose feature id the strategy
   * predicted.
   */
  lemma {:induction false} PredictOutcome(rec: LocalRecommendar, user: int, strategy: Strategy)
    ensures !rec.inferLocByLatestRatingOnly ==> PredictFor(rec, user, strategy) == Err(NameError)
    ensures PredictFor(rec, user, strategy).Ok? ==>
      && PredictFrame(rec, user, strategy).Ok?
      && forall x :: x in PredictFor(rec, user, strategy).value <==>
           && x in rec.restIdToInt.keys && x in rec.restIdToInt.entries
           && rec.restIdToInt.entries[x] in PredictedItems(PredictFrame(rec, user, strategy).value)
  {
    if PredictFor(rec, user, strategy).Ok? {
      FeatureRestaurantsContents(PredictedItems(PredictFrame(rec, user, strategy).value), rec.restIdToInt);
    }
  }
}
