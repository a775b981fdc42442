/**
 * The popularity baseline (main/model/baseline_model.py): every restaurant is
 * scored by the number of reviews it received, and a user is recommended the
 * most reviewed candidate restaurants.
 */
module BaselineModel {
  import opened Wrappers
  import opened Collections
  import opened Types
  import opened ModelUtils
  import Evaluation

  /** One row of the `item_counts` frame: a restaurant and its review count. */
  datatype ItemScore = ItemScore(item: int, prediction: real)

  function Prediction(s: ItemScore): real { s.prediction }

  function Score(r: PredRow): real { r.score }

  /** Number of reviews of `item` in the table. */
  function ReviewCount(data: seq<Review>, item: int): nat {
    multiset(Items(data))[item]
  }

  function ItemColumn(scores: seq<ItemScore>): (r: seq<int>)
    ensures |r| == |scores| && forall i :: 0 <= i < |r| ==> r[i] == scores[i].item
  {
    seq(|scores|, i requires 0 <= i < |scores| => scores[i].item)
  }

  /** One count row per distinct item, in first-seen order, before sorting. */
  function CountRows(items: seq<int>, data: seq<Review>): (r: seq<ItemScore>)
    ensures |r| == |items|
    ensures forall i :: 0 <= i < |r| ==> r[i] == ItemScore(items[i], ReviewCount(data, items[i]) as real)
  {
    seq(|items|, i requires 0 <= i < |items| => ItemScore(items[i], ReviewCount(data, items[i]) as real))
  }

  /** `rank_restaurants_by_rates(data)`: `value_counts` of the item column, most reviewed first. */
  function RankRestaurantsByRates(data: seq<Review>): (r: seq<ItemScore>)
    ensures SortedDesc(r, Prediction)
    ensures multiset(r) == multiset(CountRows(Unique(Items(data)), data))
  {
    SortDesc(CountRows(Unique(Items(data)), data), Prediction)
  }

  lemma {:induction false} CountRowsDistinct(data: seq<Review>)
    ensures Distinct(CountRows(Unique(Items(data)), data))
  {
    var u := Unique(Items(data));
    var rows := CountRows(u, data);
    forall i, j | 0 <= i < j < |rows| ensures rows[i] != rows[j] {
      assert rows[i].item == u[i] && rows[j].item == u[j];
    }
  }

  /** Every reviewed item appears exactly once in the ranking, with its review count. */
  lemma {:induction false} RankingEntries(data: seq<Review>)
    ensures var r := RankRestaurantsByRates(data);
      && Distinct(ItemColumn(r))
      && (forall i :: 0 <= i < |r| ==>
            r[i].item in Items(data) && r[i].prediction == ReviewCount(data, r[i].item) as real)
      && (forall it :: it in Items(data) <==> it in ItemColumn(r))
  {
    var u := Unique(Items(data));
    var rows := CountRows(u, data);
    var r := RankRestaurantsByRates(data);
    CountRowsDistinct(data);
    DistinctPermutation(rows, r);
    forall i | 0 <= i < |r|
      ensures r[i].item in Items(data) && r[i].prediction == ReviewCount(data, r[i].item) as real
    {
      assert r[i] in multiset(rows);
      var k :| 0 <= k < |rows| && rows[k] == r[i];
    }
    var col := ItemColumn(r);
    forall i, j | 0 <= i < j < |col| ensures col[i] != col[j] {
      assert r[i] != r[j];
    }
    forall it | it in Items(data) ensures it in col {
      var k :| 0 <= k < |u| && u[k] == it;
      assert rows[k] in multiset(r);
      var i :| 0 <= i < |r| && r[i] == rows[k];
      assert col[i] == it;
    }
  }

  // ---------------------------------------------------------------------------
  // get_prediction: inner merge of the counts with the candidate pairs
  // ---------------------------------------------------------------------------

  /** The merged rows that one count row contributes, in candidate order. */
  function Matches(c: ItemScore, pairs: seq<UserItem>): (r: seq<PredRow>)
    ensures forall x :: x in r <==>
      exists j :: 0 <= j < |pairs| && pairs[j].item == c.item
        && x == PredRow(0, pairs[j].user, c.item, c.prediction)
  {
    if pairs == [] then []
    else
      (if pairs[0].item == c.item then [PredRow(0, pairs[0].user, c.item, c.prediction)] else [])
      + Matches(c, pairs[1..])
  }

  /** The merged rows in the order of the left (count) frame, before the index reset. */
  function MergeRows(counts: seq<ItemScore>, pairs: seq<UserItem>): (r: seq<PredRow>)
    ensures forall x :: x in r <==>
      exists i, j :: 0 <= i < |counts| && 0 <= j < |pairs| && counts[i].item == pairs[j].item
        && x == PredRow(0, pairs[j].user, counts[i].item, counts[i].prediction)
  {
    if counts == [] then []
    else
      var r := Matches(counts[0], pairs) + MergeRows(counts[1..], pairs);
      assert forall x :: x in r <==> x in Matches(counts[0], pairs) || x in MergeRows(counts[1..], pairs);
      assert forall i :: 1 <= i < |counts| ==> counts[i] == counts[1..][i - 1];
      r
  }

  /** A fresh 0..n-1 index on the rows. */
  function Relabel(rows: seq<PredRow>): (r: seq<PredRow>)
    ensures |r| == |rows|
    ensures Evaluation.PositionalLabels(r)
    ensures forall i :: 0 <= i < |r| ==> r[i] == rows[i].(rowLabel := i)
  {
    seq(|rows|, i requires 0 <= i < |rows| => rows[i].(rowLabel := i))
  }

  /** `get_prediction(item_counts, user_item)` */
  function GetPrediction(counts: seq<ItemScore>, pairs: seq<UserItem>): seq<PredRow> {
    Relabel(MergeRows(counts, pairs))
  }

  /**
   * The merge pairs each candidate with the count row of its item and keeps
   * nothing else; its index is positional.
   */
  lemma {:induction false} GetPredictionRows(counts: seq<ItemScore>, pairs: seq<UserItem>)
    ensures Evaluation.PositionalLabels(GetPrediction(counts, pairs))
    ensures forall x :: x in GetPrediction(counts, pairs) ==>
      exists i, j :: 0 <= i < |counts| && 0 <= j < |pairs| && counts[i].item == pairs[j].item
        && x.user == pairs[j].user && x.item == counts[i].item && x.score == counts[i].prediction
    ensures forall i, j :: 0 <= i < |counts| && 0 <= j < |pairs| && counts[i].item == pairs[j].item ==>
      exists x :: x in GetPrediction(counts, pairs) && x.user == pairs[j].user
        && x.item == counts[i].item && x.score == counts[i].prediction
  {
    var m := MergeRows(counts, pairs);
    var g := GetPrediction(counts, pairs);
    forall x | x in g
      ensures exists i, j ::
                0 <= i < |counts| && 0 <= j < |pairs| && counts[i].item == pairs[j].item
                && x.user == pairs[j].user && x.item == counts[i].item && x.score == counts[i].prediction
    {
      var n :| 0 <= n < |g| && g[n] == x;
      assert m[n] in m;
    }
    forall i, j | 0 <= i < |counts| && 0 <= j < |pairs| && counts[i].item == pairs[j].item
      ensures exists x ::
                x in g && x.user == pairs[j].user && x.item == counts[i].item && x.score == counts[i].prediction
    {
      var y := PredRow(0, pairs[j].user, counts[i].item, counts[i].prediction);
      assert y in m;
      var n :| 0 <= n < |m| && m[n] == y;
      assert g[n] in g;
    }
  }

  lemma {:induction false} MatchesScore(c: ItemScore, pairs: seq<UserItem>)
    ensures forall x :: x in Matches(c, pairs) ==> x.score == c.prediction
  {
    if pairs != [] {
      MatchesScore(c, pairs[1..]);
    }
  }

  /** Merging keeps the left frame's order, so sorted counts give sorted rows. */
  lemma {:induction false} MergeRowsSorted(counts: seq<ItemScore>, pairs: seq<UserItem>)
    requires SortedDesc(counts, Prediction)
    ensures SortedDesc(MergeRows(counts, pairs), Score)
  {
    if counts != [] {
      var head := Matches(counts[0], pairs);
      var tail := MergeRows(counts[1..], pairs);
      assert SortedDesc(counts[1..], Prediction);
      MergeRowsSorted(counts[1..], pairs);
      MatchesScore(counts[0], pairs);
      forall y | y in tail ensures y.score <= counts[0].prediction {
        var i, j :| 0 <= i < |counts[1..]| && 0 <= j < |pairs| && counts[1..][i].item == pairs[j].item
          && y == PredRow(0, pairs[j].user, counts[1..][i].item, counts[1..][i].prediction);
        assert counts[1..][i] == counts[i + 1];
      }
      var r := head + tail;
      forall a, b | 0 <= a < b < |r| ensures Score(r[a]) >= Score(r[b]) {
        if a < |head| && b >= |head| {
          assert r[a] in head && r[b] in tail;
        } else if a >= |head| {
          assert r[a] == tail[a - |head|] && r[b] == tail[b - |head|];
        }
      }
    }
  }

  // ---------------------------------------------------------------------------
  // predict
  // ---------------------------------------------------------------------------

  /** Rows of `user` (`res[res[COL_USER] == user_id]`), keeping their labels. */
  function RowsOfUser(rows: seq<PredRow>, user: int): (r: seq<PredRow>)
    ensures forall x :: x in r <==> x in rows && x.user == user
  {
    if rows == [] then []
    else (if rows[0].user == user then [rows[0]] else []) + RowsOfUser(rows[1..], user)
  }

  lemma {:induction false} RowsOfUserAll(rows: seq<PredRow>, user: int)
    requires forall x :: x in rows ==> x.user == user
    ensures RowsOfUser(rows, user) == rows
  {
    if rows != [] {
      assert rows[0] in rows;
      RowsOfUserAll(rows[1..], user);
      assert rows == [rows[0]] + rows[1..];
    }
  }

  /** Body of `Model.predict` once `item_counts` is set. */
  function BaselinePredict(counts: seq<ItemScore>, data: seq<Review>, user: int, k: int, removeSeen: bool)
    : seq<PredRow>
  {
    var userItem := InitUserItem(user, data, removeSeen);
    var merged := GetPrediction(counts, userItem);
    var res := SortDesc(RowsOfUser(merged, user), Score);
    if k <= 0 then res else Head(res, k)
  }

  /** The full ranking before truncation to `k`. */
  function BaselineRanking(data: seq<Review>, user: int, removeSeen: bool): seq<PredRow> {
    BaselinePredict(RankRestaurantsByRates(data), data, user, 0, removeSeen)
  }

  /** Sorted counts give a merged frame in decreasing score order. */
  lemma {:induction false} GetPredictionSorted(counts: seq<ItemScore>, pairs: seq<UserItem>)
    requires SortedDesc(counts, Prediction)
    ensures SortedDesc(GetPrediction(counts, pairs), Score)
  {
    var m := MergeRows(counts, pairs);
    var g := GetPrediction(counts, pairs);
    MergeRowsSorted(counts, pairs);
    forall a, b | 0 <= a < b < |g| ensures Score(g[a]) >= Score(g[b]) {
      assert Score(g[a]) == Score(m[a]) && Score(g[b]) == Score(m[b]);
    }
  }

  /** The merged frame only holds the users of the candidate pairs. */
  lemma {:induction false} GetPredictionUsers(counts: seq<ItemScore>, pairs: seq<UserItem>, user: int)
    requires forall p :: p in pairs ==> p.user == user
    ensures forall x :: x in GetPrediction(counts, pairs) ==> x.user == user
  {
    var m := MergeRows(counts, pairs);
    var g := GetPrediction(counts, pairs);
    forall x | x in g ensures x.user == user {
      var n :| 0 <= n < |g| && g[n] == x;
      assert m[n] in m;
      var i, j :| 0 <= i < |counts| && 0 <= j < |pairs| && counts[i].item == pairs[j].item
        && m[n] == PredRow(0, pairs[j].user, counts[i].item, counts[i].prediction);
      assert pairs[j] in pairs;
    }
  }

  /**
   * The ranking is the merged frame itself: all of its rows belong to the
   * user and it is already in decreasing count order, so the (stable) sort
   * moves nothing and the labels stay 0..n-1.
   */
  lemma {:induction false} RankingIsMergedFrame(data: seq<Review>, user: int, removeSeen: bool)
    ensures BaselineRanking(data, user, removeSeen)
      == GetPrediction(RankRestaurantsByRates(data), InitUserItem(user, data, removeSeen))
  {
    var counts := RankRestaurantsByRates(data);
    var pairs := InitUserItem(user, data, removeSeen);
    var merged := GetPrediction(counts, pairs);
    GetPredictionUsers(counts, pairs, user);
    RowsOfUserAll(merged, user);
    GetPredictionSorted(counts, pairs);
    SortDescOfSorted(merged, Score);
  }

  /** Facts about the count rows and the candidates carry over to the merged rows. */
  lemma {:induction false} ScoredCandidates(counts: seq<ItemScore>, pairs: seq<UserItem>, data: seq<Review>, user: int, removeSeen: bool)
    requires forall i :: 0 <= i < |counts| ==> counts[i].prediction == ReviewCount(data, counts[i].item) as real
    requires forall p :: p in pairs ==>
      p.user == user && p.item in Items(data) && (removeSeen ==> !Rated(data, user, p.item))
    ensures forall x :: x in GetPrediction(counts, pairs) ==>
      x.user == user && x.item in Items(data) && x.score == ReviewCount(data, x.item) as real
      && (removeSeen ==> !Rated(data, user, x.item))
  {
    var m := MergeRows(counts, pairs);
    var g := GetPrediction(counts, pairs);
    forall x | x in g
      ensures x.user == user && x.item in Items(data) && x.score == ReviewCount(data, x.item) as real
        && (removeSeen ==> !Rated(data, user, x.item))
    {
      var n :| 0 <= n < |g| && g[n] == x;
      assert m[n] in m;
      var i, j :| 0 <= i < |counts| && 0 <= j < |pairs| && counts[i].item == pairs[j].item
        && m[n] == PredRow(0, pairs[j].user, counts[i].item, counts[i].prediction);
      assert pairs[j] in pairs;
    }
  }

  /** Every candidate whose item has a count row appears in the merged frame. */
  lemma {:induction false} CandidatesMerged(counts: seq<ItemScore>, pairs: seq<UserItem>)
    requires forall p :: p in pairs ==> p.item in ItemColumn(counts)
    ensures forall p :: p in pairs ==> exists x :: x in GetPrediction(counts, pairs) && x.item == p.item
  {
    var m := MergeRows(counts, pairs);
    var g := GetPrediction(counts, pairs);
    forall p | p in pairs ensures exists x :: x in g && x.item == p.item {
      var j :| 0 <= j < |pairs| && pairs[j] == p;
      var i :| 0 <= i < |counts| && ItemColumn(counts)[i] == p.item;
      var y := PredRow(0, pairs[j].user, counts[i].item, counts[i].prediction);
      assert y in m;
      var n :| 0 <= n < |m| && m[n] == y;
      assert g[n] in g && g[n].item == p.item;
    }
  }

  /**
   * What the baseline recommends: the user's candidates, each scored by its
   * item's review count, most reviewed first, with a positional index;
   * `k > 0` keeps the first `k` rows.
   */
  lemma {:induction false} BaselinePredictContents(data: seq<Review>, user: int, k: int, removeSeen: bool)
    ensures var full := BaselineRanking(data, user, removeSeen);
      var r := BaselinePredict(RankRestaurantsByRates(data), data, user, k, removeSeen);
      && r == (if k <= 0 then full else Head(full, k))
      && Evaluation.PositionalLabels(full)
      && SortedDesc(full, Score)
      && (forall x :: x in full ==>
            x.user == user && x.item in Items(data) && x.score == ReviewCount(data, x.item) as real
            && (removeSeen ==> !Rated(data, user, x.item)))
  {
    var counts := RankRestaurantsByRates(data);
    var pairs := InitUserItem(user, data, removeSeen);
    RankingIsMergedFrame(data, user, removeSeen);
    RankingEntries(data);
    ScoredCandidates(counts, pairs, data, user, removeSeen);
    GetPredictionSorted(counts, pairs);
  }

  /** Every candidate restaurant of the user appears in the full ranking. */
  lemma {:induction false} BaselineRankingComplete(data: seq<Review>, user: int, removeSeen: bool)
    ensures forall p :: p in InitUserItem(user, data, removeSeen) ==>
      exists x :: x in BaselineRanking(data, user, removeSeen) && x.item == p.item
  {
    var counts := RankRestaurantsByRates(data);
    var pairs := InitUserItem(user, data, removeSeen);
    RankingIsMergedFrame(data, user, removeSeen);
    RankingEntries(data);
    CandidatesMerged(counts, pairs);
  }

  lemma {:induction false} HigherScoreFirst(rows: seq<PredRow>, a: nat, b: nat)
    requires SortedDesc(rows, Score) && a < |rows| && b < |rows| && rows[a].score > rows[b].score
    ensures a < b
  {
  }

  /** A more reviewed restaurant is never ranked below a less reviewed one. */
  lemma {:induction false} MorePopularRankedFirst(data: seq<Review>, user: int, k: int, removeSeen: bool, a: nat, b: nat)
    requires var r := BaselinePredict(RankRestaurantsByRates(data), data, user, k, removeSeen);
      a < |r| && b < |r| && ReviewCount(data, r[a].item) > ReviewCount(data, r[b].item)
    ensures a < b
  {
    var full := BaselineRanking(data, user, removeSeen);
    var r := BaselinePredict(RankRestaurantsByRates(data), data, user, k, removeSeen);
    BaselinePredictContents(data, user, k, removeSeen);
    assert r <= full;
    var x, y := full[a], full[b];
    assert x in full && y in full;
    HigherScoreFirst(full, a, b);
  }

  /** The baseline's frames can be scored: precision@k lies in [0, 1]. */
  lemma {:induction false} BaselinePrecisionInUnitInterval(data: seq<Review>, truth: seq<Review>, user: int, k: int, removeSeen: bool)
    requires k >= 1
    ensures var preds := BaselinePredict(RankRestaurantsByRates(data), data, user, k, removeSeen);
      var m := Evaluation.TopK(truth, preds, k, THRESHOLD_SCALE_5);
      m.Ok? && 0.0 <= m.value.pk <= 1.0
  {
    var full := BaselineRanking(data, user, removeSeen);
    BaselinePredictContents(data, user, k, removeSeen);
    Evaluation.PrefixPositional(full, |Head(full, k)|);
    assert Head(full, k) == full[..|Head(full, k)|];
    Evaluation.PrecisionInUnitInterval(truth, Head(full, k), k, THRESHOLD_SCALE_5);
  }

  // ---------------------------------------------------------------------------
  // Any tie order of `sort_values`
  // ---------------------------------------------------------------------------

  /** The user's rows of the merged frame: what `predict` hands to `sort_values`. */
  function SortInput(data: seq<Review>, user: int, removeSeen: bool): seq<PredRow> {
    RowsOfUser(GetPrediction(RankRestaurantsByRates(data), InitUserItem(user, data, removeSeen)), user)
  }

  /**
   * A frame `sort_values(COL_PREDICTION, ascending=False)` may return on that
   * input: its rows by decreasing count, tied rows in any order, each row
   * keeping its label.
   */
  ghost predicate SortValuesOutcome(data: seq<Review>, user: int, removeSeen: bool, res: seq<PredRow>) {
    multiset(res) == multiset(SortInput(data, user, removeSeen)) && SortedDesc(res, Score)
  }

  /**
   * Whatever the tie order, the baseline recommends the same rows: the
   * user's candidates scored by review count, most reviewed first.
   */
  lemma {:induction false} AnySortOrderContents(data: seq<Review>, user: int, removeSeen: bool, res: seq<PredRow>)
    requires SortValuesOutcome(data, user, removeSeen, res)
    ensures multiset(res) == multiset(BaselineRanking(data, user, removeSeen))
    ensures forall x :: x in res ==>
      x.user == user && x.item in Items(data) && x.score == ReviewCount(data, x.item) as real
      && (removeSeen ==> !Rated(data, user, x.item))
  {
    var counts := RankRestaurantsByRates(data);
    var pairs := InitUserItem(user, data, removeSeen);
    var merged := GetPrediction(counts, pairs);
    GetPredictionUsers(counts, pairs, user);
    RowsOfUserAll(merged, user);
    RankingIsMergedFrame(data, user, removeSeen);
    RankingEntries(data);
    ScoredCandidates(counts, pairs, data, user, removeSeen);
    forall x | x in res
      ensures x.user == user && x.item in Items(data) && x.score == ReviewCount(data, x.item) as real
        && (removeSeen ==> !Rated(data, user, x.item))
    {
      assert x in multiset(merged);
    }
  }

  /**
   * When no two rows handed to `sort_values` have the same count, every tie
   * order gives the model's ranking, so the labels the merge assigned are the
   * positions 0..n-1 however unstable the sort.
   */
  lemma {:induction false} UntiedRankingIsPositional(data: seq<Review>, user: int, removeSeen: bool, res: seq<PredRow>)
    requires SortValuesOutcome(data, user, removeSeen, res)
    requires UntiedKeys(SortInput(data, user, removeSeen), Score)
    ensures res == BaselineRanking(data, user, removeSeen)
    ensures Evaluation.PositionalLabels(res)
  {
    var counts := RankRestaurantsByRates(data);
    var pairs := InitUserItem(user, data, removeSeen);
    var merged := GetPrediction(counts, pairs);
    GetPredictionUsers(counts, pairs, user);
    RowsOfUserAll(merged, user);
    GetPredictionSorted(counts, pairs);
    RankingIsMergedFrame(data, user, removeSeen);
    SortedPermutationUnique(merged, res, Score);
  }

  /**
   * Without tied counts, precision@k and average precision@k of any tie
   * order's top `k` rows lie in [0, 1].
   */
  lemma {:induction false} UntiedMetricsInUnitInterval(data: seq<Review>, truth: seq<Review>, user: int, k: int,
                                                       removeSeen: bool, res: seq<PredRow>)
    requires SortValuesOutcome(data, user, removeSeen, res)
    requires UntiedKeys(SortInput(data, user, removeSeen), Score)
    requires k >= 1
    ensures var m := Evaluation.TopK(truth, Head(res, k), k, THRESHOLD_SCALE_5);
      m.Ok? && 0.0 <= m.value.pk <= 1.0 && 0.0 <= m.value.apk <= 1.0
  {
    UntiedRankingIsPositional(data, user, removeSeen, res);
    TopRowsMetrics(truth, res, k);
  }

  /** The first `k` rows of a positionally labelled frame score in [0, 1]. */
  lemma {:induction false} TopRowsMetrics(truth: seq<Review>, rows: seq<PredRow>, k: int)
    requires Evaluation.PositionalLabels(rows) && k >= 1
    ensures var m := Evaluation.TopK(truth, Head(rows, k), k, THRESHOLD_SCALE_5);
      m.Ok? && 0.0 <= m.value.pk <= 1.0 && 0.0 <= m.value.apk <= 1.0
  {
    var top := Head(rows, k);
    Evaluation.PrefixPositional(rows, |top|);
    assert top == rows[..|top|];
    Evaluation.PrecisionInUnitInterval(truth, top, k, THRESHOLD_SCALE_5);
    Evaluation.AveragePrecisionBounds(truth, top, k, THRESHOLD_SCALE_5);
  }

  /**
   * `Model`: the popularity model. `itemCounts` is `None` until `train` has
   * set the attribute.
   */
  class Model {
    const name: string
    const data: seq<Review>
    var itemCounts: Option<seq<ItemScore>>

    constructor(modelName: string, reviews: seq<Review>)
      ensures name == modelName && data == reviews && itemCounts == None
    {
      name := modelName;
      data := reviews;
      itemCounts := None;
    }

    /** `train()`: rank the restaurants of the table by review count. */
    method Train()
      modifies this
      ensures itemCounts == Some(RankRestaurantsByRates(data))
    {
      itemCounts := Some(RankRestaurantsByRates(data));
    }

    /** `predict(user_id, k, removeSeen)`; before `train` the attribute is missing. */
    method Predict(user: int, k: int, removeSeen: bool) returns (r: Result<seq<PredRow>>)
      ensures itemCounts.None? ==> r == Err(AttributeError)
      ensures itemCounts.Some? ==> r == Ok(BaselinePredict(itemCounts.value, data, user, k, removeSeen))
    {
      match itemCounts {
        case None => r := Err(AttributeError);
        case Some(counts) => r := Ok(BaselinePredict(counts, data, user, k, removeSeen));
      }
    }
  }

  /** Once trained, the model's answer is the ranking described above. */
  method TrainedPrediction(reviews: seq<Review>, user: int, k: int, removeSeen: bool) returns (preds: seq<PredRow>)
    ensures preds == BaselinePredict(RankRestaurantsByRates(reviews), reviews, user, k, removeSeen)
    ensures forall x :: x in preds ==> x.user == user && x.score == ReviewCount(reviews, x.item) as real
  {
    var m := new Model("baseline", reviews);
    m.Train();
    var r := m.Predict(user, k, removeSeen);
    preds := r.value;
    BaselinePredictContents(reviews, user, k, removeSeen);
  }
}
