/**
 * The run configuration of main/evaluate_models.py: padding the seed list to
 * one seed per round, the pool of users with enough ratings, the choice of
 * the users to evaluate, and the report line per model. Loading the data set
 * (`one_for_all_load`), directories, file writes and the random generator are
 * outside: the data set is an input, and numpy's global random generator is
 * a stream of draws with a count of the draws already taken.
 */
module EvaluateModels {
  import opened Wrappers
  import opened Collections
  import opened Types
  import opened Recommendar

  // ---------------------------------------------------------------------------
  // Seeds (evaluate_models_for_rounds)
  // ---------------------------------------------------------------------------

  /** One round's seed: an integer, or `None` for an unseeded round. */
  type Seed = Option<int>

  /** `[None] * n` (empty for `n <= 0`). */
  function Nones(n: int): (r: seq<Seed>)
    ensures |r| == if n < 0 then 0 else n
    ensures forall i :: 0 <= i < |r| ==> r[i] == None
  {
    if n <= 0 then [] else Nones(n - 1) + [None]
  }

  /** The seed list after `seed is None` and the padding with `None`. */
  function PaddedSeeds(seed: Option<seq<Seed>>, rounds: int): seq<Seed> {
    var s := if seed.None? then Nones(rounds) else seed.value;
    if |s| < rounds then s + Nones(rounds - |s|) else s
  }

  /** `evaluate_models_for_rounds`: the list comprehension, then `seed += [None] * (rounds - len(seed))`. */
  method PadSeeds(seed: Option<seq<Seed>>, rounds: int) returns (seeds: seq<Seed>)
    ensures seeds == PaddedSeeds(seed, rounds)
  {
    if seed.None? {
      seeds := [];
      var x := 0;
      while x < rounds
        invariant 0 <= x <= (if rounds < 0 then 0 else rounds) && seeds == Nones(x)
      {
        seeds := seeds + [None];
        x := x + 1;
      }
    } else {
      seeds := seed.value;
    }
    if |seeds| < rounds {
      seeds := seeds + Nones(rounds - |seeds|);
    }
  }

  /**
   * The padded list has one seed per round at least; the given seeds are kept
   * in order, and the padding is `None`.
   */
  lemma {:induction false} PaddedSeedsShape(seed: Option<seq<Seed>>, rounds: int)
    ensures var given := if seed.None? then 0 else |seed.value|;
      |PaddedSeeds(seed, rounds)| == if given < rounds then rounds else given
    ensures seed.Some? ==> PaddedSeeds(seed, rounds)[..|seed.value|] == seed.value
    ensures forall i :: (seed.None? || |seed.value| <= i) && 0 <= i < |PaddedSeeds(seed, rounds)| ==>
      PaddedSeeds(seed, rounds)[i] == None
  {
    if seed.Some? && |seed.value| < rounds {
      var s := seed.value;
      assert (s + Nones(rounds - |s|))[..|s|] == s;
      forall i | |s| <= i < rounds ensures PaddedSeeds(seed, rounds)[i] == None {
        assert (s + Nones(rounds - |s|))[i] == Nones(rounds - |s|)[i - |s|];
      }
    }
  }

  /** Round `i` runs with the `i`-th given seed when there is one, otherwise unseeded. */
  function RoundSeed(seed: Option<seq<Seed>>, i: nat): Seed {
    if seed.Some? && i < |seed.value| then seed.value[i] else None
  }

  lemma {:induction false} RoundSeedOfPadded(seed: Option<seq<Seed>>, rounds: int, i: nat)
    requires i < rounds
    ensures i < |PaddedSeeds(seed, rounds)| && PaddedSeeds(seed, rounds)[i] == RoundSeed(seed, i)
  {
    PaddedSeedsShape(seed, rounds);
    if seed.Some? && i < |seed.value| {
      assert PaddedSeeds(seed, rounds)[..|seed.value|][i] == PaddedSeeds(seed, rounds)[i];
    }
  }

  // ---------------------------------------------------------------------------
  // The eligible pool
  // ---------------------------------------------------------------------------

  /** The users of `keys` whose stored rating count is at least `minRating`, in order. */
  function Eligible(keys: seq<int>, ratings: map<int, int>, minRating: int): seq<int>
    requires forall i :: 0 <= i < |keys| ==> keys[i] in ratings
  {
    if keys == [] then []
    else (if ratings[keys[0]] >= minRating then [keys[0]] else []) + Eligible(keys[1..], ratings, minRating)
  }

  lemma {:induction false} EligibleSnoc(keys: seq<int>, u: int, ratings: map<int, int>, minRating: int)
    requires forall i :: 0 <= i < |keys| ==> keys[i] in ratings
    requires u in ratings
    ensures Eligible(keys + [u], ratings, minRating)
         == Eligible(keys, ratings, minRating) + (if ratings[u] >= minRating then [u] else [])
  {
    var last := if ratings[u] >= minRating then [u] else [];
    if keys == [] {
      assert keys + [u] == [u] && [u][1..] == [];
    } else {
      var head := if ratings[keys[0]] >= minRating then [keys[0]] else [];
      var t := keys[1..];
      assert (keys + [u])[0] == keys[0] && (keys + [u])[1..] == t + [u];
      EligibleSnoc(t, u, ratings, minRating);
      assert Eligible(keys + [u], ratings, minRating) == head + (Eligible(t, ratings, minRating) + last);
      assert head + (Eligible(t, ratings, minRating) + last) == (head + Eligible(t, ratings, minRating)) + last;
    }
  }

  /** `evaluate_models_on_yelp_open_dataset`: `user_list_all`, appended in dictionary order. */
  method EligiblePool(ratings: Dict<int, int>, minRating: int) returns (pool: seq<int>)
    requires ratings.Valid()
    ensures pool == Eligible(ratings.keys, ratings.entries, minRating)
  {
    pool := [];
    var i := 0;
    while i < |ratings.keys|
      invariant 0 <= i <= |ratings.keys|
      invariant pool == Eligible(ratings.keys[..i], ratings.entries, minRating)
    {
      var user := ratings.keys[i];
      assert ratings.keys[..i + 1] == ratings.keys[..i] + [user];
      EligibleSnoc(ratings.keys[..i], user, ratings.entries, minRating);
      if ratings.entries[user] >= minRating {
        pool := pool + [user];
      }
      i := i + 1;
    }
    assert ratings.keys[..i] == ratings.keys;
  }

  /** The pool keeps exactly the users with enough ratings, in the dictionary's order. */
  lemma {:induction false} EligibleMeaning(keys: seq<int>, ratings: map<int, int>, minRating: int)
    requires forall i :: 0 <= i < |keys| ==> keys[i] in ratings
    ensures forall u :: u in Eligible(keys, ratings, minRating) <==> u in keys && u in ratings && ratings[u] >= minRating
    ensures IsSubsequence(Eligible(keys, ratings, minRating), keys)
  {
    if keys != [] {
      EligibleMeaning(keys[1..], ratings, minRating);
      var rest := Eligible(keys[1..], ratings, minRating);
      if ratings[keys[0]] >= minRating {
        assert ([keys[0]] + rest)[1..] == rest;
      } else {
        assert [] + rest == rest;
      }
      assert forall u :: u in keys <==> u == keys[0] || u in keys[1..];
    }
  }

  /**
   * Over `map_user_to_ratings`, which stores one less than each user's number
   * of reviews, the pool holds the reviewing users with more than `minRating`
   * reviews, in order of first review.
   */
  lemma {:induction false} PoolOfReviews(reviews: seq<Review>, ratings: Dict<int, int>, minRating: int)
    requires IsUserRatings(ratings, reviews)
    ensures forall u :: u in Eligible(ratings.keys, ratings.entries, minRating) <==>
      u in Users(reviews) && multiset(Users(reviews))[u] > minRating
    ensures IsSubsequence(Eligible(ratings.keys, ratings.entries, minRating), Unique(Users(reviews)))
  {
    EligibleMeaning(ratings.keys, ratings.entries, minRating);
  }

  // ---------------------------------------------------------------------------
  // Choosing the users
  // ---------------------------------------------------------------------------

  /**
   * `np.random.choice(pool, size=n)`: `n` draws with replacement, the `t`-th
   * at position `rand(t) % |pool|` of the pool; `rand` is the generator's
   * stream of draws after seeding.
   */
  function Draws(pool: seq<int>, n: nat, rand: nat -> nat): (r: seq<int>)
    requires pool != []
    ensures |r| == n
  {
    seq(n, t requires 0 <= t < n => pool[rand(t) % |pool|])
  }

  /**
   * `evaluate_models_on_yelp_open_dataset`: every pool user, the given sample list verbatim, or a
   * random sample of `sampleLimit` draws when the pool is larger than that;
   * numpy rejects a negative size with `ValueError`.
   */
  function SelectUsers(pool: seq<int>, onSampleUsers: bool, sampleList: Option<seq<int>>, sampleLimit: int,
                       rand: nat -> nat): Result<seq<int>>
  {
    if !onSampleUsers then Ok(pool)
    else if sampleList.Some? then Ok(sampleList.value)
    else if |pool| <= sampleLimit then Ok(pool)
    else if sampleLimit < 0 then Err(ValueError)
    else Ok(Draws(pool, sampleLimit, rand))
  }

  lemma {:induction false} SelectUsersMeaning(pool: seq<int>, onSampleUsers: bool, sampleList: Option<seq<int>>, sampleLimit: int,
                           rand: nat -> nat)
    ensures !onSampleUsers ==> SelectUsers(pool, onSampleUsers, sampleList, sampleLimit, rand) == Ok(pool)
    ensures onSampleUsers && sampleList.Some? ==>
      SelectUsers(pool, onSampleUsers, sampleList, sampleLimit, rand) == Ok(sampleList.value)
    ensures onSampleUsers && sampleList.None? && |pool| <= sampleLimit ==>
      SelectUsers(pool, onSampleUsers, sampleList, sampleLimit, rand) == Ok(pool)
    ensures SelectUsers(pool, onSampleUsers, sampleList, sampleLimit, rand).Err? <==>
      onSampleUsers && sampleList.None? && sampleLimit < 0
    ensures onSampleUsers && sampleList.None? && |pool| > sampleLimit >= 0 ==>
      && SelectUsers(pool, onSampleUsers, sampleList, sampleLimit, rand).Ok?
      && |SelectUsers(pool, onSampleUsers, sampleList, sampleLimit, rand).value| == sampleLimit
      && forall u :: u in SelectUsers(pool, onSampleUsers, sampleList, sampleLimit, rand).value ==> u in pool
  {
    if onSampleUsers && sampleList.None? && |pool| > sampleLimit >= 0 {
      var r := Draws(pool, sampleLimit, rand);
      forall u | u in r ensures u in pool {
        var t :| 0 <= t < |r| && r[t] == u;
        assert u == pool[rand(t) % |pool|];
      }
    }
  }

  // ---------------------------------------------------------------------------
  // The report
  // ---------------------------------------------------------------------------

  /** One line of `report.data`: a model name and its population mean. */
  datatype ReportLine = ReportLine(model: string, mean: Mean)

  /** The data set `one_for_all_load` returns. */
  datatype DataSet = DataSet(
    reviews: seq<Review>,
    userCity: Dict<int, seq<string>>,
    restCity: Dict<int, string>,
    restIdToInt: Dict<string, int>)

  /** The settings every model of a run is evaluated with. */
  datatype Settings = Settings(
    k: int,
    removeSeen: bool,
    inferLocByLatestRatingOnly: bool,
    latestRatingLimiter: int,
    horizons: Horizons)

  /** `map_user_to_ratings(reviews)` as a value. */
  function UserRatingsOf(reviews: seq<Review>): (d: Dict<int, int>)
    ensures IsUserRatings(d, reviews)
  {
    var users := Users(reviews);
    Dict(Unique(users), map u | u in users :: multiset(users)[u] - 1)
  }

  /** `map_user_to_ratings` has one possible result. */
  lemma {:induction false} UserRatingsUnique(d: Dict<int, int>, reviews: seq<Review>)
    requires IsUserRatings(d, reviews)
    ensures d == UserRatingsOf(reviews)
  {
    var e := UserRatingsOf(reviews);
    assert d.entries.Keys == e.entries.Keys;
  }

  /** What `get_recommendar` builds for `model`, when the name is accepted. */
  function RecommenderFor(data: DataSet, model: string, s: Settings): LocalRecommendar {
    LocalRecommendar(data.reviews, data.userCity, data.restCity, data.restIdToInt, model, s.k, s.removeSeen,
                     s.inferLocByLatestRatingOnly, s.latestRatingLimiter, UserRatingsOf(data.reviews))
  }

  /** The report line of one model: `ValueError` for an unknown model name, else its population mean. */
  function ModelLine(data: DataSet, model: string, s: Settings, users: seq<int>, als: Scorer): Result<ReportLine> {
    if model !in MAPPING_MODEL then Err(ValueError)
    else
      var mean :- PopulationMean(RecommenderFor(data, model, s), users, s.horizons, StrategyFor(model, als));
      Ok(ReportLine(model, mean))
  }

  function ModelLines(data: DataSet, models: seq<string>, s: Settings, users: seq<int>, als: Scorer)
    : (rs: seq<Result<ReportLine>>)
    ensures |rs| == |models|
    ensures forall i :: 0 <= i < |models| ==> rs[i] == ModelLine(data, models[i], s, users, als)
  {
    seq(|models|, i requires 0 <= i < |models| => ModelLine(data, models[i], s, users, als))
  }

  /** Unused: every table reaches the recommender as a value, never as a file name. */
  function NoLoaders(): Loaders {
    Loaders(p => Ok([]), p => Ok(EmptyDict()), p => Ok(EmptyDict()), p => Ok(EmptyDict()))
  }

  /** `evaluate_models_on_yelp_open_dataset` for one model: build the recommender and run the population sweep. */
  method EvaluateModel(data: DataSet, model: string, s: Settings, users: seq<int>, als: Scorer)
    returns (r: Result<ReportLine>)
    ensures r == ModelLine(data, model, s, users, als)
  {
    var rec :- NewLocalRecommendar(Given(data.reviews), Given(data.userCity), Given(data.restCity),
                                   Given(data.restIdToInt), model, s.k, s.removeSeen,
                                   s.inferLocByLatestRatingOnly, s.latestRatingLimiter, NoLoaders());
    UserRatingsUnique(rec.userRatings, data.reviews);
    assert rec == RecommenderFor(data, model, s);
    var mean, _ := TrainForAllUser(rec, users, s.horizons, StrategyFor(model, als));
    if mean.Err? {
      return Err(mean.error);
    }
    r := Ok(ReportLine(model, mean.value));
  }

  /**
   * `evaluate_models_on_yelp_open_dataset`: one report line per model, in order; `lines` are the lines
   * appended before the loop ended, normally or by an exception.
   */
  method ReportModels(data: DataSet, models: seq<string>, s: Settings, users: seq<int>, als: Scorer)
    returns (r: Result<seq<ReportLine>>, lines: seq<ReportLine>)
    ensures r == AllOk(ModelLines(data, models, s, users, als))
    ensures |lines| <= |models| && AllOk(ModelLines(data, models, s, users, als)[..|lines|]) == Ok(lines)
  {
    ghost var rs := ModelLines(data, models, s, users, als);
    lines := [];
    var i := 0;
    assert rs[..0] == [];
    while i < |models|
      invariant 0 <= i <= |models| && |lines| == i
      invariant AllOk(rs[..i]) == Ok(lines)
    {
      AllOkStep(rs, i);
      var line := EvaluateModel(data, models[i], s, users, als);
      if line.Err? {
        AllOkFailedPrefix(rs, i + 1);
        return Err(line.error), lines;
      }
      lines := lines + [line.value];
      i := i + 1;
    }
    assert rs[..i] == rs;
    r := Ok(lines);
  }

  /**
   * The report of a run that completes names each model once, in order, with
   * the population mean of its recommender over the chosen users; a run
   * fails exactly when some model's evaluation fails.
   */
  lemma {:induction false} ReportMeaning(data: DataSet, models: seq<string>, s: Settings, users: seq<int>, als: Scorer)
    ensures AllOk(ModelLines(data, models, s, users, als)).Err? <==>
      exists i :: 0 <= i < |models| && ModelLine(data, models[i], s, users, als).Err?
    ensures AllOk(ModelLines(data, models, s, users, als)).Ok? ==>
      && |AllOk(ModelLines(data, models, s, users, als)).value| == |models|
      && forall i :: 0 <= i < |models| ==>
           && models[i] in MAPPING_MODEL
           && AllOk(ModelLines(data, models, s, users, als)).value[i].model == models[i]
           && PopulationMean(RecommenderFor(data, models[i], s), users, s.horizons, StrategyFor(models[i], als))
              == Ok(AllOk(ModelLines(data, models, s, users, als)).value[i].mean)
  {
    var rs := ModelLines(data, models, s, users, als);
    AllOkPerIndex(rs);
  }

  // ---------------------------------------------------------------------------
  // One run and the rounds
  // ---------------------------------------------------------------------------

  /** How the users of a run are chosen. */
  datatype Selection = Selection(
    minRating: int,
    onSampleUsers: bool,
    sampleList: Option<seq<int>>,
    sampleLimit: int)

  /** What `evaluate_models_on_yelp_open_dataset` reports, with `rand` the draws after seeding. */
  function RunSpec(data: DataSet, models: seq<string>, s: Settings, sel: Selection, als: Scorer, rand: nat -> nat)
    : Result<seq<ReportLine>>
  {
    var ratings := UserRatingsOf(data.reviews);
    var pool := Eligible(ratings.keys, ratings.entries, sel.minRating);
    var users :- SelectUsers(pool, sel.onSampleUsers, sel.sampleList, sel.sampleLimit, rand);
    AllOk(ModelLines(data, models, s, users, als))
  }

  method EvaluateOnDataset(data: DataSet, models: seq<string>, s: Settings, sel: Selection, als: Scorer,
                           rand: nat -> nat)
    returns (r: Result<seq<ReportLine>>)
    ensures r == RunSpec(data, models, s, sel, als, rand)
  {
    var ratings := MapUserToRatings(data.reviews);
    UserRatingsUnique(ratings, data.reviews);
    var pool := EligiblePool(ratings, sel.minRating);
    var users :- SelectUsers(pool, sel.onSampleUsers, sel.sampleList, sel.sampleLimit, rand);
    var written;
    r, written := ReportModels(data, models, s, users, als);
  }

  /** `len(range(rounds))` */
  function RoundCount(rounds: int): nat {
    if rounds < 0 then 0 else rounds
  }

  /**
   * numpy's global generator: a stream of draws and how many of them earlier
   * calls consumed. `np.random.seed` starts a fresh stream; an unseeded run
   * goes on where the previous run stopped.
   */
  datatype Generator = Generator(stream: nat -> nat, used: nat)

  /** `np.random.seed` accepts only seeds in [0, 2**32 - 1]. */
  const SEED_BOUND: int := 0x1_0000_0000

  /**
   * `evaluate_models_on_yelp_open_dataset`: `np.random.seed(seed)` only when
   * `seed is not None`; a seed outside [0, 2**32 - 1] raises `ValueError`.
   */
  function Reseed(g: Generator, seed: Seed, streamFor: int -> (nat -> nat)): (r: Result<Generator>)
    ensures r.Err? <==> seed.Some? && (seed.value < 0 || seed.value >= 0x1_0000_0000)
    ensures r.Err? ==> r.error == ValueError
    ensures seed.None? ==> r == Ok(g)
    ensures seed.Some? && r.Ok? ==> r.value.stream == streamFor(seed.value) && r.value.used == 0
  {
    match seed
    case None => Ok(g)
    case Some(v) => if 0 <= v < SEED_BOUND then Ok(Generator(streamFor(v), 0)) else Err(ValueError)
  }

  /** The generator a round draws from once seeded; a refused seed ends the rounds, leaving `g` as it was. */
  function Seeded(g: Generator, seed: Seed, streamFor: int -> (nat -> nat)): Generator {
    var r := Reseed(g, seed, streamFor);
    if r.Ok? then r.value else g
  }

  /** The draws the generator hands out next. */
  function Upcoming(g: Generator): nat -> nat {
    if g.used == 0 then g.stream else t => g.stream(g.used + t)
  }

  /** Draw `t` from now on is the stream's draw after the `used` ones already taken. */
  lemma {:induction false} UpcomingAt(g: Generator, t: nat)
    ensures Upcoming(g)(t) == g.stream(g.used + t)
  {
  }

  /** The generator after `n` more draws. */
  function Advance(g: Generator, n: nat): (r: Generator)
    ensures r.stream == g.stream && r.used == g.used + n
  {
    Generator(g.stream, g.used + n)
  }

  /** How many draws a run takes: only a random sample calls `np.random.choice`, for `sampleLimit` users. */
  function DrawCount(data: DataSet, sel: Selection): nat {
    var ratings := UserRatingsOf(data.reviews);
    var pool := Eligible(ratings.keys, ratings.entries, sel.minRating);
    if sel.onSampleUsers && sel.sampleList.None? && |pool| > sel.sampleLimit >= 0 then sel.sampleLimit else 0
  }

  /**
   * The generator round `i` draws from: `start` for the first round, otherwise
   * the previous round's generator after its `count` draws, reseeded when the
   * round has a seed.
   */
  function RoundGenerator(start: Generator, seeds: seq<Seed>, i: nat, streamFor: int -> (nat -> nat), count: nat)
    : Generator
    requires i < |seeds|
    decreases i, 1
  {
    Seeded(GeneratorBefore(start, seeds, i, streamFor, count), seeds[i], streamFor)
  }

  /** The generator before round `i` is seeded: `start`, or the previous round's after its draws. */
  function GeneratorBefore(start: Generator, seeds: seq<Seed>, i: nat, streamFor: int -> (nat -> nat), count: nat)
    : Generator
    requires i <= |seeds|
    decreases i, 0
  {
    if i == 0 then start else Advance(RoundGenerator(start, seeds, i - 1, streamFor, count), count)
  }

  /** The draws round `i` takes from the generator. */
  function RoundDraws(data: DataSet, sel: Selection, seeds: seq<Seed>, i: nat, start: Generator,
                      streamFor: int -> (nat -> nat)): nat -> nat
    requires i < |seeds|
  {
    Upcoming(RoundGenerator(start, seeds, i, streamFor, DrawCount(data, sel)))
  }

  /** One round: `np.random.seed` refuses the round's seed, or the run on the round's draws. */
  function RoundRun(data: DataSet, models: seq<string>, s: Settings, sel: Selection, als: Scorer,
                    seeds: seq<Seed>, i: nat, start: Generator, streamFor: int -> (nat -> nat))
    : Result<seq<ReportLine>>
    requires i < |seeds|
  {
    var before := GeneratorBefore(start, seeds, i, streamFor, DrawCount(data, sel));
    if Reseed(before, seeds[i], streamFor).Err? then Err(ValueError)
    else RunSpec(data, models, s, sel, als, RoundDraws(data, sel, seeds, i, start, streamFor))
  }

  /**
   * The outcome of each of the first `n` rounds: `ValueError` when its seed
   * lies outside [0, 2**32 - 1], otherwise the run on that round's draws.
   */
  function RoundResults(data: DataSet, models: seq<string>, s: Settings, sel: Selection, als: Scorer,
                        seeds: seq<Seed>, n: nat, start: Generator, streamFor: int -> (nat -> nat))
    : (rs: seq<Result<seq<ReportLine>>>)
    requires n <= |seeds|
    ensures |rs| == n
    ensures forall i :: 0 <= i < n ==>
      rs[i] == (if seeds[i].Some? && (seeds[i].value < 0 || seeds[i].value >= 0x1_0000_0000) then Err(ValueError)
                else RunSpec(data, models, s, sel, als, RoundDraws(data, sel, seeds, i, start, streamFor)))
  {
    seq(n, i requires 0 <= i < n => RoundRun(data, models, s, sel, als, seeds, i, start, streamFor))
  }

  /**
   * `evaluate_models_for_rounds`: `rounds` runs in order, round `i` seeded
   * with the `i`-th seed of the padded list; `start` is the global generator
   * when the call begins and `streamFor` gives the draws a seed leads to.
   */
  method EvaluateModelsForRounds(data: DataSet, models: seq<string>, s: Settings, sel: Selection, als: Scorer,
                                 seed: Option<seq<Seed>>, rounds: int, start: Generator,
                                 streamFor: int -> (nat -> nat))
    returns (r: Result<seq<seq<ReportLine>>>)
    ensures r == AllOk(RoundResults(data, models, s, sel, als, PaddedSeeds(seed, rounds), RoundCount(rounds),
                                    start, streamFor))
  {
    var seeds := PadSeeds(seed, rounds);
    PaddedSeedsShape(seed, rounds);
    var count := DrawCount(data, sel);
    ghost var rs := RoundResults(data, models, s, sel, als, seeds, RoundCount(rounds), start, streamFor);
    var reports: seq<seq<ReportLine>> := [];
    var g := start;
    var i := 0;
    assert rs[..0] == [];
    while i < rounds
      invariant 0 <= i <= |rs|
      invariant AllOk(rs[..i]) == Ok(reports)
      invariant g == GeneratorBefore(start, seeds, i, streamFor, count)
    {
      AllOkStep(rs, i);
      var report;
      report, g := PlayRound(data, models, s, sel, als, seeds, i, start, streamFor, count, g);
      if report.Err? {
        AllOkFailedPrefix(rs, i + 1);
        return Err(report.error);
      }
      reports := reports + [report.value];
      i := i + 1;
    }
    assert rs[..i] == rs;
    r := Ok(reports);
  }

  /** The loop body: seed when the round has a seed, run, and move the generator past the run's draws. */
  method PlayRound(data: DataSet, models: seq<string>, s: Settings, sel: Selection, als: Scorer,
                   seeds: seq<Seed>, i: nat, start: Generator, streamFor: int -> (nat -> nat), count: nat,
                   g: Generator)
    returns (report: Result<seq<ReportLine>>, next: Generator)
    requires i < |seeds| && count == DrawCount(data, sel)
    requires g == GeneratorBefore(start, seeds, i, streamFor, count)
    ensures report == RoundRun(data, models, s, sel, als, seeds, i, start, streamFor)
    ensures next == GeneratorBefore(start, seeds, i + 1, streamFor, count)
  {
    var seeded := Reseed(g, seeds[i], streamFor);
    if seeded.Err? {
      report := Err(seeded.error);
      next := Advance(g, count);
      return;
    }
    report := EvaluateOnDataset(data, models, s, sel, als, Upcoming(seeded.value));
    next := Advance(seeded.value, count);
  }

  /**
   * The draws of round `i`: with an accepted seed, that seed's stream from its
   * start; unseeded, the first round draws the generator as found and a later
   * round continues where the previous round stopped, so unseeded rounds do
   * not repeat each other's draws.
   */
  lemma {:induction false} RoundDrawsMeaning(data: DataSet, sel: Selection, seeds: seq<Seed>, i: nat, start: Generator,
                                            streamFor: int -> (nat -> nat))
    requires i < |seeds|
    ensures seeds[i].Some? && 0 <= seeds[i].value < SEED_BOUND ==>
      RoundDraws(data, sel, seeds, i, start, streamFor) == streamFor(seeds[i].value)
    ensures seeds[i].None? && i == 0 ==> RoundDraws(data, sel, seeds, i, start, streamFor) == Upcoming(start)
    ensures seeds[i].None? && i > 0 ==> forall t: nat ::
      RoundDraws(data, sel, seeds, i, start, streamFor)(t)
        == RoundDraws(data, sel, seeds, i - 1, start, streamFor)(DrawCount(data, sel) + t)
  {
    GeneratorOfRound(start, seeds, i, streamFor, DrawCount(data, sel));
  }

  lemma {:induction false} GeneratorOfRound(start: Generator, seeds: seq<Seed>, i: nat, streamFor: int -> (nat -> nat),
                                           count: nat)
    requires i < |seeds|
    ensures seeds[i].Some? && 0 <= seeds[i].value < SEED_BOUND ==>
      Upcoming(RoundGenerator(start, seeds, i, streamFor, count)) == streamFor(seeds[i].value)
    ensures seeds[i].Some? && !(0 <= seeds[i].value < SEED_BOUND) ==>
      RoundGenerator(start, seeds, i, streamFor, count) == GeneratorBefore(start, seeds, i, streamFor, count)
    ensures seeds[i].None? && i == 0 ==> Upcoming(RoundGenerator(start, seeds, i, streamFor, count)) == Upcoming(start)
    ensures seeds[i].None? && i > 0 ==> forall t: nat ::
      Upcoming(RoundGenerator(start, seeds, i, streamFor, count))(t)
        == Upcoming(RoundGenerator(start, seeds, i - 1, streamFor, count))(count + t)
  {
    if seeds[i].None? && i > 0 {
      var prev := RoundGenerator(start, seeds, i - 1, streamFor, count);
      var g := RoundGenerator(start, seeds, i, streamFor, count);
      assert GeneratorBefore(start, seeds, i, streamFor, count) == Advance(prev, count);
      assert g == Advance(prev, count);
      forall t: nat ensures Upcoming(g)(t) == Upcoming(prev)(count + t) {
        UpcomingAt(g, t);
        UpcomingAt(prev, count + t);
      }
    }
  }

  /**
   * Round `i` uses the `i`-th given seed or `None`: `ValueError` when that
   * seed is outside [0, 2**32 - 1], otherwise the run on the draws of
   * `RoundDrawsMeaning`.
   */
  lemma {:induction false} RoundsUseGivenSeeds(data: DataSet, models: seq<string>, s: Settings, sel: Selection, als: Scorer,
                            seed: Option<seq<Seed>>, rounds: int, start: Generator,
                            streamFor: int -> (nat -> nat), i: nat)
    requires i < rounds
    ensures i < |PaddedSeeds(seed, rounds)| && PaddedSeeds(seed, rounds)[i] == RoundSeed(seed, i)
    ensures RoundSeed(seed, i).Some? && !(0 <= RoundSeed(seed, i).value < SEED_BOUND) ==>
      RoundResults(data, models, s, sel, als, PaddedSeeds(seed, rounds), RoundCount(rounds), start, streamFor)[i]
        == Err(ValueError)
    ensures RoundSeed(seed, i).None? || 0 <= RoundSeed(seed, i).value < SEED_BOUND ==>
      RoundResults(data, models, s, sel, als, PaddedSeeds(seed, rounds), RoundCount(rounds), start, streamFor)[i]
        == RunSpec(data, models, s, sel, als, RoundDraws(data, sel, PaddedSeeds(seed, rounds), i, start, streamFor))
  {
    RoundSeedOfPadded(seed, rounds, i);
    PaddedSeedsShape(seed, rounds);
  }

  /** A round whose seed `np.random.seed` refuses makes the whole call raise `ValueError`, whatever round it is. */
  lemma {:induction false} RefusedSeedFails(data: DataSet, models: seq<string>, s: Settings, sel: Selection, als: Scorer,
                                           seed: Option<seq<Seed>>, rounds: int, start: Generator,
                                           streamFor: int -> (nat -> nat), i: nat)
    requires i < rounds
    requires RoundSeed(seed, i).Some? && !(0 <= RoundSeed(seed, i).value < SEED_BOUND)
    ensures AllOk(RoundResults(data, models, s, sel, als, PaddedSeeds(seed, rounds), RoundCount(rounds),
                               start, streamFor)).Err?
  {
    RoundsUseGivenSeeds(data, models, s, sel, als, seed, rounds, start, streamFor, i);
    AllOkPerIndex(RoundResults(data, models, s, sel, als, PaddedSeeds(seed, rounds), RoundCount(rounds),
                               start, streamFor));
  }
}
