/**
 * Review post-processing (main/preprocessor.py, `evaluate_feature_ids` and
 * `load_dedup_filtered_reviews`). Both walk the filtered reviews once and
 * keep, in a dictionary of dictionaries keyed by user and then by feature
 * id, a value per (user, feature id) pair that each further review of the
 * pair updates. Here that shape is captured once (`AccumulateAll`) and proved
 * equal, pair by pair, to a fold over just that pair's reviews.
 */
module ReviewDedup {
  import opened Wrappers
  import opened Collections
  import opened IdAssignment

  /** `[int_user_id, feature_id, rating, timestamp]` with a numeric rating. */
  type Review = Row<nat, real>

  /** `[timestamp, rating]` */
  type Stamped = (int, real)

  function Stamp(r: Review): Stamped {
    (r.timestamp, r.rating)
  }

  // ---------------------------------------------------------------------------
  // The per-pair accumulation both functions share
  // ---------------------------------------------------------------------------

  type Nested<V> = Dict<nat, Dict<nat, V>>

  ghost predicate NestedValid<V>(d: Nested<V>) {
    d.Valid() && forall u :: u in d.entries ==> d.entries[u].Valid()
  }

  /** The value kept for `(u, i)`, if any. */
  function ValueAt<V>(d: Nested<V>, u: nat, i: nat): Option<V> {
    if u in d.entries && i in d.entries[u].entries then Some(d.entries[u].entries[i]) else None
  }

  /**
   * One review: create the user's dictionary if needed, then start the
   * pair's value or update it.
   */
  function Accumulate<V>(d: Nested<V>, r: Review, start: Stamped -> V, step: (V, Stamped) -> V): (d': Nested<V>)
    requires NestedValid(d)
    ensures NestedValid(d')
  {
    var inner := if r.user in d.entries then d.entries[r.user] else EmptyDict();
    var v := if r.item in inner.entries then step(inner.entries[r.item], Stamp(r)) else start(Stamp(r));
    d.Put(r.user, inner.Put(r.item, v))
  }

  function AccumulateAll<V>(rs: seq<Review>, start: Stamped -> V, step: (V, Stamped) -> V): (d: Nested<V>)
    ensures NestedValid(d)
  {
    if rs == [] then EmptyDict()
    else Accumulate(AccumulateAll(rs[..|rs| - 1], start, step), rs[|rs| - 1], start, step)
  }

  lemma {:induction false} AccumulateAllSnoc<V>(rs: seq<Review>, r: Review, start: Stamped -> V, step: (V, Stamped) -> V)
    ensures AccumulateAll(rs + [r], start, step) == Accumulate(AccumulateAll(rs, start, step), r, start, step)
  {
    assert (rs + [r])[..|rs|] == rs;
  }

  /** The `[timestamp, rating]` of every review of `(u, i)`, in input order. */
  function PairRecords(rs: seq<Review>, u: nat, i: nat): (s: seq<Stamped>)
    ensures |s| <= |rs|
  {
    if rs == [] then []
    else
      var last := rs[|rs| - 1];
      PairRecords(rs[..|rs| - 1], u, i) + (if last.user == u && last.item == i then [Stamp(last)] else [])
  }

  lemma {:induction false} PairRecordsSnoc(rs: seq<Review>, r: Review, u: nat, i: nat)
    ensures PairRecords(rs + [r], u, i) == PairRecords(rs, u, i) + (if r.user == u && r.item == i then [Stamp(r)] else [])
  {
    assert (rs + [r])[..|rs|] == rs;
  }

  /** The pair's records are exactly those of the reviews of the pair. */
  lemma {:induction false} PairRecordsMembers(rs: seq<Review>, u: nat, i: nat)
    ensures forall x :: x in PairRecords(rs, u, i) <==>
      exists j :: 0 <= j < |rs| && rs[j].user == u && rs[j].item == i && Stamp(rs[j]) == x
  {
    if rs != [] {
      var init := rs[..|rs| - 1];
      PairRecordsMembers(init, u, i);
      assert forall j :: 0 <= j < |init| ==> init[j] == rs[j];
    }
  }

  /** The fold of one pair's records: `start` on the first, `step` on each later one. */
  function Fold<V>(s: seq<Stamped>, start: Stamped -> V, step: (V, Stamped) -> V): V
    requires s != []
  {
    if |s| == 1 then start(s[0]) else step(Fold(s[..|s| - 1], start, step), s[|s| - 1])
  }

  lemma {:induction false} FoldSnoc<V>(s: seq<Stamped>, x: Stamped, start: Stamped -> V, step: (V, Stamped) -> V)
    requires s != []
    ensures Fold(s + [x], start, step) == step(Fold(s, start, step), x)
  {
    assert (s + [x])[..|s|] == s;
  }

  /** One review changes the value of its own pair only. */
  lemma {:induction false} AccumulateStep<V>(d: Nested<V>, r: Review, start: Stamped -> V, step: (V, Stamped) -> V, u: nat, i: nat)
    requires NestedValid(d)
    ensures ValueAt(Accumulate(d, r, start, step), u, i) ==
      if u == r.user && i == r.item then
        Some(if ValueAt(d, u, i).Some? then step(ValueAt(d, u, i).value, Stamp(r)) else start(Stamp(r)))
      else ValueAt(d, u, i)
  {
  }

  /**
   * After all reviews, a pair has a value exactly when it was reviewed, and
   * the value is the fold of that pair's records alone.
   */
  lemma {:induction false} AccumulateAllPerPair<V>(rs: seq<Review>, start: Stamped -> V, step: (V, Stamped) -> V, u: nat, i: nat)
    ensures ValueAt(AccumulateAll(rs, start, step), u, i) ==
      if PairRecords(rs, u, i) == [] then None else Some(Fold(PairRecords(rs, u, i), start, step))
  {
    if rs != [] {
      var init := rs[..|rs| - 1];
      var r := rs[|rs| - 1];
      assert rs == init + [r];
      var prev := AccumulateAll(init, start, step);
      var s := PairRecords(init, u, i);
      AccumulateAllPerPair(init, start, step, u, i);
      assert ValueAt(prev, u, i) == if s == [] then None else Some(Fold(s, start, step));
      AccumulateAllSnoc(init, r, start, step);
      assert AccumulateAll(rs, start, step) == Accumulate(prev, r, start, step);
      PairRecordsSnoc(init, r, u, i);
      AccumulateStep(prev, r, start, step, u, i);
      if u == r.user && i == r.item {
        assert PairRecords(rs, u, i) == s + [Stamp(r)];
        if s != [] {
          FoldSnoc(s, Stamp(r), start, step);
        } else {
          assert s + [Stamp(r)] == [Stamp(r)];
        }
      } else {
        assert PairRecords(rs, u, i) == s;
      }
    }
  }

  // ---------------------------------------------------------------------------
  // load_dedup_filtered_reviews
  // ---------------------------------------------------------------------------

  const LATEST: string := "latest"
  const AVERAGE: string := "average"

  function FirstBucket(x: Stamped): seq<Stamped> {
    [x]
  }

  /** A strictly newer record goes to the front (`insert(0, …)`), any other to the back. */
  function AddToBucket(bucket: seq<Stamped>, x: Stamped): seq<Stamped> {
    if bucket != [] && x.0 > bucket[0].0 then [x] + bucket else bucket + [x]
  }

  /** `user_restaurant_timestamp_rating` after the first loop. */
  function Buckets(rs: seq<Review>): Nested<seq<Stamped>> {
    AccumulateAll(rs, FirstBucket, AddToBucket)
  }

  function Ratings(s: seq<Stamped>): (r: seq<real>)
    ensures |r| == |s| && forall k :: 0 <= k < |s| ==> r[k] == s[k].1
  {
    seq(|s|, k requires 0 <= k < |s| => s[k].1)
  }

  lemma {:induction false} SumCons(x: real, s: seq<real>)
    ensures Sum([x] + s) == x + Sum(s)
  {
    if s != [] {
      var init := s[..|s| - 1];
      SumCons(x, init);
      assert ([x] + s)[..|s|] == [x] + init;
    }
  }

  /** `s[k]` is the first record of `s` with the greatest timestamp. */
  ghost predicate FirstLatestAt(s: seq<Stamped>, k: int) {
    && 0 <= k < |s|
    && (forall m :: 0 <= m < |s| ==> s[m].0 <= s[k].0)
    && (forall m :: 0 <= m < k ==> s[m].0 < s[k].0)
  }

  /** `x` is the first record of `s` with the greatest timestamp. */
  ghost predicate IsFirstLatest(s: seq<Stamped>, x: Stamped) {
    exists k :: FirstLatestAt(s, k) && s[k] == x
  }

  /** A pair's bucket holds exactly the pair's records, in some order. */
  lemma {:induction false} BucketPermutes(s: seq<Stamped>)
    requires s != []
    ensures multiset(Fold(s, FirstBucket, AddToBucket)) == multiset(s)
  {
    if |s| > 1 {
      var init := s[..|s| - 1];
      var x := s[|s| - 1];
      assert s == init + [x];
      BucketPermutes(init);
      var prev := Fold(init, FirstBucket, AddToBucket);
      assert Fold(s, FirstBucket, AddToBucket) == AddToBucket(prev, x);
    }
  }

  /** The bucket's ratings add up to the pair's ratings. */
  lemma {:induction false} BucketSum(s: seq<Stamped>)
    requires s != []
    ensures var b := Fold(s, FirstBucket, AddToBucket);
      |b| == |s| && Sum(Ratings(b)) == Sum(Ratings(s))
  {
    if |s| == 1 {
      assert Ratings(s) == [s[0].1] == [] + [s[0].1];
    } else {
      var init := s[..|s| - 1];
      var x := s[|s| - 1];
      assert s == init + [x];
      BucketSum(init);
      var prev := Fold(init, FirstBucket, AddToBucket);
      var b := AddToBucket(prev, x);
      assert Fold(s, FirstBucket, AddToBucket) == b;
      assert Ratings(s) == Ratings(init) + [x.1];
      SumSnoc(Ratings(init), x.1);
      if prev != [] && x.0 > prev[0].0 {
        assert Ratings(b) == [x.1] + Ratings(prev);
        SumCons(x.1, Ratings(prev));
      } else {
        assert Ratings(b) == Ratings(prev) + [x.1];
        SumSnoc(Ratings(prev), x.1);
      }
    }
  }

  /** The bucket's front is the first record of the pair with the greatest timestamp. */
  lemma {:induction false} BucketFront(s: seq<Stamped>)
    requires s != []
    ensures var b := Fold(s, FirstBucket, AddToBucket);
      b != [] && exists k :: FirstLatestAt(s, k) && b[0] == s[k]
  {
    if |s| == 1 {
      assert FirstLatestAt(s, 0);
    } else {
      var init := s[..|s| - 1];
      var x := s[|s| - 1];
      assert s == init + [x];
      BucketFront(init);
      var prev := Fold(init, FirstBucket, AddToBucket);
      var k :| FirstLatestAt(init, k) && prev[0] == init[k];
      var b := AddToBucket(prev, x);
      assert Fold(s, FirstBucket, AddToBucket) == b;
      if x.0 > prev[0].0 {
        assert b[0] == x;
        assert FirstLatestAt(s, |s| - 1);
      } else {
        assert b[0] == prev[0];
        assert FirstLatestAt(s, k);
      }
    }
  }

  /** Every bucket holds at least one record. */
  ghost predicate NonEmptyBuckets(b: Nested<seq<Stamped>>) {
    forall u, i :: u in b.entries && i in b.entries[u].entries ==> b.entries[u].entries[i] != []
  }

  lemma {:induction false} BucketsNonEmpty(rs: seq<Review>)
    ensures NonEmptyBuckets(Buckets(rs))
  {
    var b := Buckets(rs);
    forall u, i | u in b.entries && i in b.entries[u].entries
      ensures b.entries[u].entries[i] != []
    {
      AccumulateAllPerPair(rs, FirstBucket, AddToBucket, u, i);
      assert ValueAt(b, u, i) == Some(b.entries[u].entries[i]);
      BucketFront(PairRecords(rs, u, i));
    }
  }

  /** The `[timestamp, rating]` one bucket contributes: its front record, or the front timestamp with the mean rating. */
  function Choose(bucket: seq<Stamped>, byLatest: bool): Stamped
    requires bucket != []
  {
    if byLatest then bucket[0] else (bucket[0].0, Sum(Ratings(bucket)) / |bucket| as real)
  }

  function ChooseInner(inner: Dict<nat, seq<Stamped>>, byLatest: bool): (r: Dict<nat, Stamped>)
    requires inner.Valid() && forall i :: i in inner.entries ==> inner.entries[i] != []
    ensures r.Valid() && r.keys == inner.keys
  {
    Dict(inner.keys, map i | i in inner.entries :: Choose(inner.entries[i], byLatest))
  }

  /** Each bucket replaced by the record it contributes; the order of users and items is kept. */
  function ChooseAll(b: Nested<seq<Stamped>>, byLatest: bool): (r: Latest<nat, real>)
    requires NestedValid(b) && NonEmptyBuckets(b)
    ensures LatestValid(r) && r.keys == b.keys
  {
    Dict(b.keys, map u | u in b.entries :: ChooseInner(b.entries[u], byLatest))
  }

  /**
   * What `load_dedup_filtered_reviews` returns: `ValueError` for an unknown
   * mode, otherwise one row per reviewed (user, item) pair, users in order
   * of first review and each user's items in order of first review.
   */
  function DedupSpec(rs: seq<Review>, dedupBy: string): Result<seq<Review>> {
    if dedupBy != LATEST && dedupBy != AVERAGE then Err(ValueError)
    else Ok(Dedupped(rs, dedupBy == LATEST))
  }

  /** The rows of the second loop, over the buckets of `rs`. */
  function Dedupped(rs: seq<Review>, byLatest: bool): seq<Review> {
    BucketsNonEmpty(rs);
    var chosen := ChooseAll(Buckets(rs), byLatest);
    Rows(chosen, |chosen.keys|)
  }

  /** The first loop's body for one review, as the source writes it. */
  method AddReviewToBuckets(b: Nested<seq<Stamped>>, r: Review) returns (b': Nested<seq<Stamped>>)
    requires NestedValid(b) && NonEmptyBuckets(b)
    ensures b' == Accumulate(b, r, FirstBucket, AddToBucket)
  {
    b' := b;
    if r.user !in b'.entries {
      b' := b'.Put(r.user, EmptyDict());
    }
    var inner := b'.entries[r.user];
    var x := (r.timestamp, r.rating);
    if r.item !in inner.entries {
      inner := inner.Put(r.item, [x]);
    } else if x.0 > inner.entries[r.item][0].0 {
      inner := inner.Put(r.item, [x] + inner.entries[r.item]);
    } else {
      inner := inner.Put(r.item, inner.entries[r.item] + [x]);
    }
    b' := b'.Put(r.user, inner);
  }

  /** `sum_rating / count_rating` over one bucket. */
  method Average(bucket: seq<Stamped>) returns (rating: real)
    requires bucket != []
    ensures rating == Sum(Ratings(bucket)) / |bucket| as real
  {
    var sumRating := 0.0;
    var countRating := 0;
    while countRating < |bucket|
      invariant 0 <= countRating <= |bucket|
      invariant sumRating == Sum(Ratings(bucket[..countRating]))
    {
      assert Ratings(bucket[..countRating + 1]) == Ratings(bucket[..countRating]) + [bucket[countRating].1];
      SumSnoc(Ratings(bucket[..countRating]), bucket[countRating].1);
      sumRating := sumRating + bucket[countRating].1;
      countRating := countRating + 1;
    }
    assert bucket[..countRating] == bucket;
    rating := sumRating / countRating as real;
  }

  /** The second loop's inner loop over one user's items. */
  method DedupUser(b: Nested<seq<Stamped>>, user: nat, byLatest: bool, out: seq<Review>) returns (out': seq<Review>)
    requires NestedValid(b) && NonEmptyBuckets(b) && user in b.entries
    ensures out' == out + InnerRows(user, ChooseInner(b.entries[user], byLatest), |b.entries[user].keys|)
  {
    var inner := b.entries[user];
    ghost var chosen := ChooseInner(inner, byLatest);
    out' := out;
    var j := 0;
    while j < |inner.keys|
      invariant 0 <= j <= |inner.keys|
      invariant out' == out + InnerRows(user, chosen, j)
    {
      var restaurant := inner.keys[j];
      var latestRating := inner.entries[restaurant];
      var timestamp := latestRating[0].0;
      var rating: real;
      if byLatest {
        rating := latestRating[0].1;
      } else {
        rating := Average(latestRating);
      }
      assert chosen.entries[restaurant] == (timestamp, rating);
      out' := out' + [Row(user, restaurant, rating, timestamp)];
      j := j + 1;
    }
  }

  /** The first loop: every review into its pair's bucket. */
  method BuildBuckets(rs: seq<Review>) returns (b: Nested<seq<Stamped>>)
    ensures b == Buckets(rs)
  {
    b := EmptyDict();
    var i := 0;
    while i < |rs|
      invariant 0 <= i <= |rs|
      invariant b == Buckets(rs[..i])
    {
      assert rs[..i + 1] == rs[..i] + [rs[i]];
      AccumulateAllSnoc(rs[..i], rs[i], FirstBucket, AddToBucket);
      BucketsNonEmpty(rs[..i]);
      b := AddReviewToBuckets(b, rs[i]);
      i := i + 1;
    }
    assert rs[..i] == rs;
  }

  /** One user's rows extend the rows of the users before. */
  lemma {:induction false} FlattenStep(b: Nested<seq<Stamped>>, byLatest: bool, k: nat)
    requires NestedValid(b) && NonEmptyBuckets(b) && k < |b.keys|
    ensures b.keys[k] in b.entries
    ensures Rows(ChooseAll(b, byLatest), k + 1)
         == Rows(ChooseAll(b, byLatest), k) + InnerRows(b.keys[k], ChooseInner(b.entries[b.keys[k]], byLatest), |b.entries[b.keys[k]].keys|)
  {
    var chosen := ChooseAll(b, byLatest);
    var user := b.keys[k];
    assert chosen.keys[k] == user;
    assert chosen.entries[user] == ChooseInner(b.entries[user], byLatest);
  }

  /** The second loop: one row per bucket, users and items in insertion order. */
  method FlattenBuckets(b: Nested<seq<Stamped>>, byLatest: bool) returns (out: seq<Review>)
    requires NestedValid(b) && NonEmptyBuckets(b)
    ensures out == Rows(ChooseAll(b, byLatest), |b.keys|)
  {
    out := [];
    var k := 0;
    while k < |b.keys|
      invariant 0 <= k <= |b.keys| && out == Rows(ChooseAll(b, byLatest), k)
    {
      out := FlattenUser(b, byLatest, k, out);
      k := k + 1;
    }
  }

  /** One user of the second loop: the rows of their chosen buckets. */
  method FlattenUser(b: Nested<seq<Stamped>>, byLatest: bool, k: nat, out: seq<Review>) returns (out': seq<Review>)
    requires NestedValid(b) && NonEmptyBuckets(b) && k < |b.keys|
    requires out == Rows(ChooseAll(b, byLatest), k)
    ensures out' == Rows(ChooseAll(b, byLatest), k + 1)
  {
    FlattenStep(b, byLatest, k);
    out' := DedupUser(b, b.keys[k], byLatest, out);
  }

  method LoadDedupFilteredReviews(rs: seq<Review>, dedupBy: string) returns (r: Result<seq<Review>>)
    ensures r == DedupSpec(rs, dedupBy)
  {
    if dedupBy != LATEST && dedupBy != AVERAGE {
      return Err(ValueError);
    }
    var b := BuildBuckets(rs);
    BucketsNonEmpty(rs);
    var out := FlattenBuckets(b, dedupBy == LATEST);
    r := Ok(out);
  }

  /** A pair is stored after choosing exactly when it has a bucket, and holds that bucket's choice. */
  lemma {:induction false} ChooseAllStored(b: Nested<seq<Stamped>>, byLatest: bool, u: nat, i: nat, v: Stamped)
    requires NestedValid(b) && NonEmptyBuckets(b)
    ensures Stored(ChooseAll(b, byLatest), u, i, v) <==>
      ValueAt(b, u, i).Some? && v == Choose(ValueAt(b, u, i).value, byLatest)
  {
  }

  /** Each row of the chosen buckets holds its pair's choice. */
  lemma {:induction false} ChosenRows(b: Nested<seq<Stamped>>, byLatest: bool)
    requires NestedValid(b) && NonEmptyBuckets(b)
    ensures forall row :: row in Rows(ChooseAll(b, byLatest), |b.keys|) ==>
      ValueAt(b, row.user, row.item).Some? && Stamp(row) == Choose(ValueAt(b, row.user, row.item).value, byLatest)
  {
    var chosen := ChooseAll(b, byLatest);
    RowsContents(chosen, |chosen.keys|);
    forall row | row in Rows(chosen, |b.keys|)
      ensures ValueAt(b, row.user, row.item).Some? && Stamp(row) == Choose(ValueAt(b, row.user, row.item).value, byLatest)
    {
      assert Stored(chosen, row.user, row.item, (row.timestamp, row.rating));
      ChooseAllStored(b, byLatest, row.user, row.item, Stamp(row));
    }
  }

  /** A row belongs to a reviewed pair and holds the choice over that pair's records. */
  lemma {:induction false} DedupRowChosen(rs: seq<Review>, byLatest: bool, row: Review)
    requires row in Dedupped(rs, byLatest)
    ensures PairRecords(rs, row.user, row.item) != []
    ensures Stamp(row) == Choose(Fold(PairRecords(rs, row.user, row.item), FirstBucket, AddToBucket), byLatest)
  {
    BucketsNonEmpty(rs);
    var b := Buckets(rs);
    ChosenRows(b, byLatest);
    assert row in Rows(ChooseAll(b, byLatest), |b.keys|);
    AccumulateAllPerPair(rs, FirstBucket, AddToBucket, row.user, row.item);
  }

  /** Every reviewed pair has its row. */
  lemma {:induction false} DedupPairsPresent(rs: seq<Review>, byLatest: bool, u: nat, i: nat)
    requires PairRecords(rs, u, i) != []
    ensures exists row :: row in Dedupped(rs, byLatest) && row.user == u && row.item == i
  {
    BucketsNonEmpty(rs);
    var b := Buckets(rs);
    var chosen := ChooseAll(b, byLatest);
    var c := Choose(Fold(PairRecords(rs, u, i), FirstBucket, AddToBucket), byLatest);
    AccumulateAllPerPair(rs, FirstBucket, AddToBucket, u, i);
    ChooseAllStored(b, byLatest, u, i, c);
    RowsContents(chosen, |chosen.keys|);
    assert chosen.keys[..|chosen.keys|] == chosen.keys;
    assert u in chosen.keys[..|chosen.keys|];
    assert Row(u, i, c.1, c.0) in Rows(chosen, |chosen.keys|);
  }

  /** At most one row per (user, item) pair. */
  lemma {:induction false} DedupOnePerPair(rs: seq<Review>, dedupBy: string)
    requires DedupSpec(rs, dedupBy).Ok?
    ensures forall a, b :: 0 <= a < b < |DedupSpec(rs, dedupBy).value| ==>
      DedupSpec(rs, dedupBy).value[a].user != DedupSpec(rs, dedupBy).value[b].user
      || DedupSpec(rs, dedupBy).value[a].item != DedupSpec(rs, dedupBy).value[b].item
  {
    BucketsNonEmpty(rs);
    var chosen := ChooseAll(Buckets(rs), dedupBy == LATEST);
    RowsPairsDistinct(chosen, |chosen.keys|);
  }

  /** Every reviewed pair has a row, and every row's pair was reviewed. */
  lemma {:induction false} DedupCoversPairs(rs: seq<Review>, dedupBy: string)
    requires DedupSpec(rs, dedupBy).Ok?
    ensures forall j :: 0 <= j < |rs| ==>
      exists row :: row in DedupSpec(rs, dedupBy).value && row.user == rs[j].user && row.item == rs[j].item
    ensures forall row :: row in DedupSpec(rs, dedupBy).value ==>
      exists j :: 0 <= j < |rs| && row.user == rs[j].user && row.item == rs[j].item
  {
    var out := DedupSpec(rs, dedupBy).value;
    forall j | 0 <= j < |rs|
      ensures exists row :: row in out && row.user == rs[j].user && row.item == rs[j].item
    {
      PairRecordsMembers(rs, rs[j].user, rs[j].item);
      assert Stamp(rs[j]) in PairRecords(rs, rs[j].user, rs[j].item);
      DedupPairsPresent(rs, dedupBy == LATEST, rs[j].user, rs[j].item);
    }
    forall row | row in out
      ensures exists j :: 0 <= j < |rs| && row.user == rs[j].user && row.item == rs[j].item
    {
      var s := PairRecords(rs, row.user, row.item);
      DedupRowChosen(rs, dedupBy == LATEST, row);
      PairRecordsMembers(rs, row.user, row.item);
      assert s[0] in s;
    }
  }

  /** By "latest", a pair's row is its first review with the greatest timestamp. */
  lemma {:induction false} DedupLatest(rs: seq<Review>)
    ensures DedupSpec(rs, LATEST).Ok?
    ensures forall row :: row in DedupSpec(rs, LATEST).value ==>
      IsFirstLatest(PairRecords(rs, row.user, row.item), Stamp(row))
  {
    assert DedupSpec(rs, LATEST) == Ok(Dedupped(rs, true));
    forall row | row in Dedupped(rs, true)
      ensures IsFirstLatest(PairRecords(rs, row.user, row.item), Stamp(row))
    {
      var s := PairRecords(rs, row.user, row.item);
      DedupRowChosen(rs, true, row);
      BucketFront(s);
      var k :| FirstLatestAt(s, k) && Fold(s, FirstBucket, AddToBucket)[0] == s[k];
      assert Stamp(row) == s[k];
    }
  }

  /**
   * By "average", a pair's row has the mean of all its ratings and the
   * greatest timestamp among its reviews.
   */
  lemma {:induction false} DedupAverage(rs: seq<Review>)
    ensures DedupSpec(rs, AVERAGE).Ok?
    ensures forall row :: row in DedupSpec(rs, AVERAGE).value ==>
      var s := PairRecords(rs, row.user, row.item);
      && s != []
      && row.rating == Sum(Ratings(s)) / |s| as real
      && exists k :: FirstLatestAt(s, k) && row.timestamp == s[k].0
  {
    assert DedupSpec(rs, AVERAGE) == Ok(Dedupped(rs, false));
    forall row | row in Dedupped(rs, false)
      ensures var s := PairRecords(rs, row.user, row.item);
        && s != []
        && row.rating == Sum(Ratings(s)) / |s| as real
        && exists k :: FirstLatestAt(s, k) && row.timestamp == s[k].0
    {
      var s := PairRecords(rs, row.user, row.item);
      DedupRowChosen(rs, false, row);
      BucketFront(s);
      BucketSum(s);
    }
  }

  // ---------------------------------------------------------------------------
  // evaluate_feature_ids
  // ---------------------------------------------------------------------------

  /** The default `threshold`: the largest rating spread tolerated for one pair. */
  const DEFAULT_THRESHOLD: real := 2.0

  /** Python's `max(a, b)` and `min(a, b)` on numbers. */
  function Max(a: real, b: real): real { if b > a then b else a }
  function Min(a: real, b: real): real { if b < a then b else a }

  /** The first review of a pair sets both its greatest and its least rating. */
  function FirstExtremes(x: Stamped): (real, real) {
    (x.1, x.1)
  }

  function AddExtremes(v: (real, real), x: Stamped): (real, real) {
    (Max(x.1, v.0), Min(x.1, v.1))
  }

  /** `user_restaurant_max` and `user_restaurant_min`, side by side. */
  function Extremes(rs: seq<Review>): Nested<(real, real)> {
    AccumulateAll(rs, FirstExtremes, AddExtremes)
  }

  ghost predicate IsMaxRating(s: seq<Stamped>, m: real) {
    (exists j :: 0 <= j < |s| && s[j].1 == m) && forall j :: 0 <= j < |s| ==> s[j].1 <= m
  }

  ghost predicate IsMinRating(s: seq<Stamped>, m: real) {
    (exists j :: 0 <= j < |s| && s[j].1 == m) && forall j :: 0 <= j < |s| ==> m <= s[j].1
  }

  /** A pair's kept values are the greatest and the least of its ratings. */
  lemma {:induction false} ExtremesFold(s: seq<Stamped>)
    requires s != []
    ensures IsMaxRating(s, Fold(s, FirstExtremes, AddExtremes).0)
    ensures IsMinRating(s, Fold(s, FirstExtremes, AddExtremes).1)
  {
    if |s| == 1 {
      assert s[0].1 == Fold(s, FirstExtremes, AddExtremes).0;
    } else {
      var init := s[..|s| - 1];
      var x := s[|s| - 1];
      assert s == init + [x];
      ExtremesFold(init);
      var v := Fold(init, FirstExtremes, AddExtremes);
      assert Fold(s, FirstExtremes, AddExtremes) == AddExtremes(v, x);
      var jmax :| 0 <= jmax < |init| && init[jmax].1 == v.0;
      var jmin :| 0 <= jmin < |init| && init[jmin].1 == v.1;
      assert s[jmax] == init[jmax] && s[jmin] == init[jmin];
      assert s[|s| - 1] == x;
    }
  }

  /** The feature ids some user rated with a spread above `threshold`. */
  function BadIds(e: Nested<(real, real)>, threshold: real): set<nat> {
    set u, i | u in e.entries && i in e.entries[u].entries
      && e.entries[u].entries[i].0 - e.entries[u].entries[i].1 > threshold :: i
  }

  /**
   * What `evaluate_feature_ids` returns. Review `i` also reads
   * `original_reviews[i]`, so a shorter list of original reviews raises
   * `IndexError`.
   */
  function EvaluateFeatureIdsSpec<O>(filtered: seq<Review>, original: seq<O>, threshold: real): Result<set<nat>> {
    if |original| < |filtered| then Err(IndexError)
    else Ok(BadIds(Extremes(filtered), threshold))
  }

  /** The first loop's body for one review, as the source writes it. */
  method AddReviewToExtremes(e: Nested<(real, real)>, r: Review) returns (e': Nested<(real, real)>)
    requires NestedValid(e)
    ensures e' == Accumulate(e, r, FirstExtremes, AddExtremes)
  {
    e' := e;
    if r.user !in e'.entries {
      e' := e'.Put(r.user, EmptyDict());
    }
    var inner := e'.entries[r.user];
    if r.item !in inner.entries {
      inner := inner.Put(r.item, (r.rating, r.rating));
    } else {
      var v := inner.entries[r.item];
      inner := inner.Put(r.item, (Max(r.rating, v.0), Min(r.rating, v.1)));
    }
    e' := e'.Put(r.user, inner);
  }

  /** The bad feature ids among one user's pairs. */
  function UserBadIds(inner: Dict<nat, (real, real)>, threshold: real): set<nat> {
    set i | i in inner.entries && inner.entries[i].0 - inner.entries[i].1 > threshold
  }

  /** The inner loop of the second pass: one user's pairs. */
  method CollectUserBadIds(inner: Dict<nat, (real, real)>, threshold: real, bad: set<nat>) returns (bad': set<nat>)
    requires inner.Valid()
    ensures bad' == bad + UserBadIds(inner, threshold)
  {
    bad' := bad;
    var j := 0;
    while j < |inner.keys|
      invariant 0 <= j <= |inner.keys|
      invariant bad' == bad + set i | i in inner.keys[..j] && i in inner.entries && inner.entries[i].0 - inner.entries[i].1 > threshold
    {
      var restaurant := inner.keys[j];
      var maxMin := inner.entries[restaurant];
      assert inner.keys[..j + 1] == inner.keys[..j] + [restaurant];
      if maxMin.0 - maxMin.1 > threshold {
        bad' := bad' + {restaurant};
      }
      j := j + 1;
    }
    assert inner.keys[..j] == inner.keys;
  }

  lemma {:induction false} BadIdsByUser(e: Nested<(real, real)>, threshold: real, k: nat)
    requires NestedValid(e) && k < |e.keys|
    ensures (set u, i | u in e.keys[..k + 1] && u in e.entries && i in e.entries[u].entries
               && e.entries[u].entries[i].0 - e.entries[u].entries[i].1 > threshold :: i)
         == (set u, i | u in e.keys[..k] && u in e.entries && i in e.entries[u].entries
               && e.entries[u].entries[i].0 - e.entries[u].entries[i].1 > threshold :: i)
            + UserBadIds(e.entries[e.keys[k]], threshold)
  {
    assert e.keys[..k + 1] == e.keys[..k] + [e.keys[k]];
  }

  lemma {:induction false} BadIdsAllKeys(e: Nested<(real, real)>, threshold: real)
    requires NestedValid(e)
    ensures (set u, i | u in e.keys && u in e.entries && i in e.entries[u].entries
               && e.entries[u].entries[i].0 - e.entries[u].entries[i].1 > threshold :: i)
         == BadIds(e, threshold)
  {
  }

  method EvaluateFeatureIds<O>(filtered: seq<Review>, original: seq<O>, threshold: real) returns (r: Result<set<nat>>)
    ensures r == EvaluateFeatureIdsSpec(filtered, original, threshold)
  {
    var e: Nested<(real, real)> := EmptyDict();
    var i := 0;
    while i < |filtered|
      invariant 0 <= i <= |filtered|
      invariant i <= |original|
      invariant e == Extremes(filtered[..i])
    {
      assert filtered[..i + 1] == filtered[..i] + [filtered[i]];
      AccumulateAllSnoc(filtered[..i], filtered[i], FirstExtremes, AddExtremes);
      e := AddReviewToExtremes(e, filtered[i]);
      if i >= |original| {
        return Err(IndexError);
      }
      i := i + 1;
    }
    assert filtered[..i] == filtered;
    var bad: set<nat> := {};
    var k := 0;
    while k < |e.keys|
      invariant 0 <= k <= |e.keys|
      invariant bad == set u, i | u in e.keys[..k] && u in e.entries && i in e.entries[u].entries
        && e.entries[u].entries[i].0 - e.entries[u].entries[i].1 > threshold :: i
    {
      BadIdsByUser(e, threshold, k);
      bad := CollectUserBadIds(e.entries[e.keys[k]], threshold, bad);
      k := k + 1;
    }
    assert e.keys[..k] == e.keys;
    BadIdsAllKeys(e, threshold);
    r := Ok(bad);
  }

  /** A bad feature id has two ratings of one user more than `threshold` apart. */
  lemma {:induction false} BadIdHasSpread(filtered: seq<Review>, threshold: real, id: nat)
    requires id in BadIds(Extremes(filtered), threshold)
    ensures exists j, k :: 0 <= j < |filtered| && 0 <= k < |filtered|
              && filtered[j].user == filtered[k].user && filtered[j].item == id && filtered[k].item == id
              && filtered[j].rating - filtered[k].rating > threshold
  {
    var e := Extremes(filtered);
    var u :| u in e.entries && id in e.entries[u].entries
      && e.entries[u].entries[id].0 - e.entries[u].entries[id].1 > threshold;
    var s := PairRecords(filtered, u, id);
    AccumulateAllPerPair(filtered, FirstExtremes, AddExtremes, u, id);
    ExtremesFold(s);
    PairRecordsMembers(filtered, u, id);
    var a :| 0 <= a < |s| && s[a].1 == e.entries[u].entries[id].0;
    var b :| 0 <= b < |s| && s[b].1 == e.entries[u].entries[id].1;
    assert s[a] in s && s[b] in s;
    var j :| 0 <= j < |filtered| && filtered[j].user == u && filtered[j].item == id && Stamp(filtered[j]) == s[a];
    var k :| 0 <= k < |filtered| && filtered[k].user == u && filtered[k].item == id && Stamp(filtered[k]) == s[b];
    assert filtered[j].rating - filtered[k].rating > threshold;
  }

  /** Two ratings of one user more than `threshold` apart make the feature id bad. */
  lemma {:induction false} SpreadMakesBadId(filtered: seq<Review>, threshold: real, j: nat, k: nat)
    requires j < |filtered| && k < |filtered|
    requires filtered[j].user == filtered[k].user && filtered[j].item == filtered[k].item
    requires filtered[j].rating - filtered[k].rating > threshold
    ensures filtered[j].item in BadIds(Extremes(filtered), threshold)
  {
    var e := Extremes(filtered);
    var u, id := filtered[j].user, filtered[j].item;
    var s := PairRecords(filtered, u, id);
    PairRecordsMembers(filtered, u, id);
    assert Stamp(filtered[j]) in s && Stamp(filtered[k]) in s;
    AccumulateAllPerPair(filtered, FirstExtremes, AddExtremes, u, id);
    ExtremesFold(s);
    var a :| 0 <= a < |s| && s[a] == Stamp(filtered[j]);
    var b :| 0 <= b < |s| && s[b] == Stamp(filtered[k]);
    assert s[a].1 <= e.entries[u].entries[id].0 && e.entries[u].entries[id].1 <= s[b].1;
  }

  /**
   * A feature id is bad exactly when one user gave it two ratings more than
   * `threshold` apart.
   */
  lemma {:induction false} EvaluateFeatureIdsMeaning<O>(filtered: seq<Review>, original: seq<O>, threshold: real, id: nat)
    requires |filtered| <= |original|
    ensures EvaluateFeatureIdsSpec(filtered, original, threshold).Ok?
    ensures id in EvaluateFeatureIdsSpec(filtered, original, threshold).value <==>
      exists j, k :: 0 <= j < |filtered| && 0 <= k < |filtered|
        && filtered[j].user == filtered[k].user && filtered[j].item == id && filtered[k].item == id
        && filtered[j].rating - filtered[k].rating > threshold
  {
    if id in BadIds(Extremes(filtered), threshold) {
      BadIdHasSpread(filtered, threshold, id);
    }
    if exists j, k :: 0 <= j < |filtered| && 0 <= k < |filtered|
        && filtered[j].user == filtered[k].user && filtered[j].item == id && filtered[k].item == id
        && filtered[j].rating - filtered[k].rating > threshold {
      var j, k :| 0 <= j < |filtered| && 0 <= k < |filtered|
        && filtered[j].user == filtered[k].user && filtered[j].item == id && filtered[k].item == id
        && filtered[j].rating - filtered[k].rating > threshold;
      SpreadMakesBadId(filtered, threshold, j, k);
    }
  }
}
