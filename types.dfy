/**
 * The shared record types and run constants of the recommender
 * (main/constants.py). A reviews table is a sequence of `Review` rows; a
 * prediction frame is a sequence of `PredRow` rows that keep their pandas
 * index label, because the metric loop reads that label.
 */
module Types {

  /** Number of recommendations scored per user (`TOP_K`). */
  const TOP_K: int := 10

  /** Ratings at or above this value are relevant (`THRESHOLD_SCALE_5`). */
  const THRESHOLD_SCALE_5: real := 3.0

  /** One review: `[int_user_id, feature_id, rating, timestamp]`. */
  datatype Review = Review(user: int, item: int, rating: real, timestamp: int)

  /** One row of a prediction frame: its index label, user, item and score. */
  datatype PredRow = PredRow(rowLabel: nat, user: int, item: int, score: real)

  /**
   * A collaborative-filtering back-end seen from outside: fitted on a reviews
   * table, then asked `predict(user_id, k, removeSeen)`.
   */
  type Scorer = (seq<Review>, int, int, bool) -> seq<PredRow>

  /** The `feature_id` column. */
  function Items(s: seq<Review>): (r: seq<int>)
    ensures |r| == |s| && forall i :: 0 <= i < |s| ==> r[i] == s[i].item
  {
    seq(|s|, i requires 0 <= i < |s| => s[i].item)
  }

  /** The `int_user_id` column. */
  function Users(s: seq<Review>): (r: seq<int>)
    ensures |r| == |s| && forall i :: 0 <= i < |s| ==> r[i] == s[i].user
  {
    seq(|s|, i requires 0 <= i < |s| => s[i].user)
  }

  /** Some row of `data` is a rating of `item` by `user`. */
  predicate Rated(data: seq<Review>, user: int, item: int) {
    exists r :: r in data && r.user == user && r.item == item
  }

  lemma {:induction false} ItemsSnoc(s: seq<Review>, x: Review)
    ensures Items(s + [x]) == Items(s) + [x.item]
  {
  }

  lemma {:induction false} UsersSnoc(s: seq<Review>, x: Review)
    ensures Users(s + [x]) == Users(s) + [x.user]
  {
  }
}
