/**
 * The time-biased hybrid model (main/model/time_biased_hybrid_model.py): the
 * naive hybrid fitted only on the newest reviews of the table, those at most
 * one week older than the newest review, with seen pairs of the full table
 * removed from its recommendations.
 */
module TimeBiasedHybrid {
  import opened Wrappers
  import opened Collections
  import opened Types
  import NaiveHybrid

  /** Window lengths in days (`RATING_TIME_RANGE`). */
  const RATING_TIME_RANGE: map<string, int> := map["1 month" := 31, "1 week" := 7, "3 days" := 3, "1 day" := 1]

  /** The window the model uses (`self.latest_rating_range`). */
  const LATEST_RATING_RANGE: int := RATING_TIME_RANGE["1 week"]

  const SECONDS_PER_DAY: int := 86400

  function Timestamp(r: Review): real { r.timestamp as real }

  /** Whole days from `cur` to `latest`, rounded down (`timedelta.days`). */
  function DaysBetween(latest: int, cur: int): (d: int)
    ensures d * SECONDS_PER_DAY <= latest - cur < (d + 1) * SECONDS_PER_DAY
  {
    (latest - cur) / SECONDS_PER_DAY
  }

  /** A row more than the window's length older than `latest`. */
  predicate Stale(latest: int, r: Review) {
    DaysBetween(latest, r.timestamp) > LATEST_RATING_RANGE
  }

  /**
   * The value `first_invalid` ends with: the position of the first stale row,
   * or 0 when no row is stale.
   */
  function FirstStale(s: seq<Review>, latest: int): (n: nat)
    ensures n <= |s|
    ensures (exists j :: 0 <= j < |s| && Stale(latest, s[j])) ==>
      n < |s| && Stale(latest, s[n]) && forall j :: 0 <= j < n ==> !Stale(latest, s[j])
    ensures (forall j :: 0 <= j < |s| ==> !Stale(latest, s[j])) ==> n == 0
  {
    if s == [] then 0
    else if Stale(latest, s[0]) then 0
    else if forall j :: 1 <= j < |s| ==> !Stale(latest, s[j]) then 0
    else
      assert exists j :: 0 <= j < |s[1..]| && Stale(latest, s[1..][j]) by {
        var j :| 1 <= j < |s| && Stale(latest, s[j]);
        assert s[1..][j - 1] == s[j];
      }
      1 + FirstStale(s[1..], latest)
  }

  /** The rows the wrapped model is fitted on, for a non-empty table. */
  function Window(data: seq<Review>): seq<Review>
    requires data != []
  {
    var df := SortDesc(data, Timestamp);
    Head(df, FirstStale(df, df[0].timestamp))
  }

  /** `Model`: the fields `__init__` sets; `window` is the frame handed to the naive hybrid. */
  datatype TimeBiasedModel = TimeBiasedModel(name: string, data: seq<Review>, latestRatingRange: int, window: seq<Review>) {

    /**
     * `predict(user_id, k, removeSeen)` over the naive hybrid built on
     * `als`: without removal it delegates unchanged; with removal it asks
     * for all rows and drops every pair reviewed anywhere in the full table,
     * then keeps the first `k` when `k > 0`.
     */
    function Predict(als: Scorer, user: int, k: int, removeSeen: bool): (r: seq<PredRow>)
      ensures !removeSeen ==> r == als(NaiveHybrid.Rescale(window), user, k, removeSeen)
      ensures removeSeen ==> IsSubsequence(r, als(NaiveHybrid.Rescale(window), user, 0, true))
      ensures removeSeen ==> forall x :: x in r ==> !Rated(data, x.user, x.item)
      ensures removeSeen && k <= 0 ==> forall x ::
        x in r <==> x in als(NaiveHybrid.Rescale(window), user, 0, true) && !Rated(data, x.user, x.item)
      ensures removeSeen && k > 0 ==>
        var all := UnseenRows(als(NaiveHybrid.Rescale(window), user, 0, true), data);
        r <= all && |r| == (if k <= |all| then k else |all|)
    {
      var inner := NaiveHybrid.NaiveHybridScorer(als);
      if !removeSeen then inner(window, user, k, removeSeen)
      else
        var naive := inner(window, user, 0, removeSeen);
        var pred := UnseenRows(naive, data);
        UnseenRowsIsSubsequence(naive, data);
        if k <= 0 then pred
        else
          HeadIsSubsequence(pred, k);
          SubsequenceTransitive(Head(pred, k), pred, naive);
          SubsequenceMembers(Head(pred, k), pred);
          Head(pred, k)
    }
  }

  /** The prediction rows whose (user, item) pair is not reviewed in `data`, keeping their labels. */
  function UnseenRows(rows: seq<PredRow>, data: seq<Review>): (r: seq<PredRow>)
    ensures forall x :: x in r <==> x in rows && !Rated(data, x.user, x.item)
  {
    if rows == [] then []
    else (if Rated(data, rows[0].user, rows[0].item) then [] else [rows[0]]) + UnseenRows(rows[1..], data)
  }

  lemma {:induction false} UnseenRowsIsSubsequence(rows: seq<PredRow>, data: seq<Review>)
    ensures IsSubsequence(UnseenRows(rows, data), rows)
  {
    if rows != [] {
      var rest := UnseenRows(rows[1..], data);
      UnseenRowsIsSubsequence(rows[1..], data);
      if Rated(data, rows[0].user, rows[0].item) {
        assert UnseenRows(rows, data) == rest;
      } else {
        var a := UnseenRows(rows, data);
        assert a == [rows[0]] + rest && a[1..] == rest;
      }
    }
  }

  lemma {:induction false} SubsequenceOfSelf<T>(s: seq<T>)
    ensures IsSubsequence(s, s)
  {
    if s != [] {
      SubsequenceOfSelf(s[1..]);
    }
  }

  lemma {:induction false} HeadIsSubsequence<T>(s: seq<T>, n: int)
    ensures IsSubsequence(Head(s, n), s)
  {
    var h := Head(s, n);
    if s != [] {
      if h == [] {
        EmptySubsequence(s[1..]);
      } else {
        assert h[0] == s[0];
        if n >= 0 {
          HeadIsSubsequence(s[1..], n - 1);
          assert Head(s[1..], n - 1) == h[1..];
        } else {
          HeadIsSubsequence(s[1..], n);
          assert Head(s[1..], n) == h[1..];
        }
      }
    }
  }

  lemma {:induction false} EmptySubsequence<T>(s: seq<T>)
    ensures IsSubsequence([], s)
  {
    if s != [] {
      EmptySubsequence(s[1..]);
    }
  }

  lemma {:induction false} SubsequenceMembers<T>(a: seq<T>, b: seq<T>)
    requires IsSubsequence(a, b)
    ensures |a| <= |b| && forall x :: x in a ==> x in b
  {
    if b != [] {
      if a != [] && a[0] == b[0] && IsSubsequence(a[1..], b[1..]) {
        SubsequenceMembers(a[1..], b[1..]);
        assert a == [a[0]] + a[1..];
      } else {
        SubsequenceMembers(a, b[1..]);
      }
    }
  }

  lemma {:induction false} SubsequenceTransitive<T>(a: seq<T>, b: seq<T>, c: seq<T>)
    requires IsSubsequence(a, b) && IsSubsequence(b, c)
    ensures IsSubsequence(a, c)
    decreases |c|
  {
    if c != [] {
      if b != [] && b[0] == c[0] && IsSubsequence(b[1..], c[1..]) {
        if a != [] && a[0] == b[0] && IsSubsequence(a[1..], b[1..]) {
          SubsequenceTransitive(a[1..], b[1..], c[1..]);
        } else {
          SubsequenceTransitive(a, b[1..], c[1..]);
        }
      } else {
        SubsequenceTransitive(a, b, c[1..]);
      }
    }
  }

  /**
   * `Model.__init__`: sort the table newest first, read the newest timestamp
   * (`iloc[0]`, which fails on an empty table), scan for the first stale row
   * and keep the rows before it.
   */
  method NewTimeBiasedModel(name: string, data: seq<Review>) returns (r: Result<TimeBiasedModel>)
    ensures data == [] ==> r == Err(IndexError)
    ensures data != [] ==> r == Ok(TimeBiasedModel(name, data, LATEST_RATING_RANGE, Window(data)))
  {
    var df := SortDesc(data, Timestamp);
    var newest :- ILoc(df, 0);
    var latest := newest.timestamp;
    var firstInvalid := 0;
    var index := 0;
    while index < |df|
      invariant 0 <= index <= |df|
      invariant forall j :: 0 <= j < index ==> !Stale(latest, df[j])
      invariant firstInvalid == 0
    {
      if DaysBetween(latest, df[index].timestamp) > LATEST_RATING_RANGE {
        firstInvalid := index;
        break;
      }
      index := index + 1;
    }
    assert firstInvalid == FirstStale(df, latest);
    r := Ok(TimeBiasedModel(name, data, LATEST_RATING_RANGE, Head(df, firstInvalid)));
  }

  /** The newest timestamp is the first of the sorted table and bounds every row. */
  lemma {:induction false} NewestBoundsAll(data: seq<Review>)
    requires data != []
    ensures var df := SortDesc(data, Timestamp);
      forall x :: x in data ==> x.timestamp <= df[0].timestamp
  {
    var df := SortDesc(data, Timestamp);
    forall x | x in data ensures x.timestamp <= df[0].timestamp {
      assert x in multiset(df);
      var i :| 0 <= i < |df| && df[i] == x;
      if i > 0 {
        assert Timestamp(df[0]) >= Timestamp(df[i]);
      }
    }
  }

  /**
   * The window is a prefix of the table sorted newest first, and every kept
   * row is at most the window's length in whole days older than the newest
   * row of the whole table.
   */
  lemma {:induction false} WindowKeepsRecentPrefix(data: seq<Review>)
    requires data != []
    ensures var df := SortDesc(data, Timestamp);
      && Window(data) <= df
      && forall x :: x in Window(data) ==> DaysBetween(df[0].timestamp, x.timestamp) <= LATEST_RATING_RANGE
  {
    var df := SortDesc(data, Timestamp);
    var w := Window(data);
    forall x | x in w ensures DaysBetween(df[0].timestamp, x.timestamp) <= LATEST_RATING_RANGE {
      var i :| 0 <= i < |w| && w[i] == x;
      assert df[i] == x;
    }
  }

  /** When some row is older than the window, the window ends right before the first one. */
  lemma {:induction false} WindowStopsAtFirstStale(data: seq<Review>)
    requires data != []
    requires exists x :: x in data && Stale(SortDesc(data, Timestamp)[0].timestamp, x)
    ensures var df := SortDesc(data, Timestamp);
      |Window(data)| < |df| && Stale(df[0].timestamp, df[|Window(data)|])
  {
    var df := SortDesc(data, Timestamp);
    var x :| x in data && Stale(df[0].timestamp, x);
    assert x in multiset(df);
    var i :| 0 <= i < |df| && df[i] == x;
  }

  /** When no row is older than the window, `first_invalid` stays 0 and nothing is kept. */
  lemma {:induction false} WindowEmptyWithoutStale(data: seq<Review>)
    requires data != []
    requires forall x :: x in data ==> !Stale(SortDesc(data, Timestamp)[0].timestamp, x)
    ensures Window(data) == []
  {
    var df := SortDesc(data, Timestamp);
    forall j | 0 <= j < |df| ensures !Stale(df[0].timestamp, df[j]) {
      assert df[j] in multiset(data);
    }
  }

  /** With removal and `k > 0`, the answer is the start of the answer for all rows. */
  lemma {:induction false} TopKIsPrefixOfAll(m: TimeBiasedModel, als: Scorer, user: int, k: int)
    requires k > 0
    ensures var all := m.Predict(als, user, 0, true);
      m.Predict(als, user, k, true) == all[..(if k <= |all| then k else |all|)]
  {
  }
}
