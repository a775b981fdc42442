/**
 * The naive hybrid model (main/model/naive_hybrid_baseline_als_model.py):
 * every rating is multiplied by the popularity (review count) of its item,
 * and the collaborative-filtering back-end is fitted on the rescaled table.
 */
module NaiveHybrid {
  import opened Collections
  import opened Types
  import opened BaselineModel

  /** The row with its rating multiplied by `m`. */
  function Scaled(r: Review, m: real): Review {
    r.(rating := r.rating * m)
  }

  /**
   * The rows of `rows` about `item`, in order, with the rating multiplied by
   * `m`: what the inner merge contributes for one count row.
   */
  function Multiplied(rows: seq<Review>, item: int, m: real): (r: seq<Review>)
    ensures |r| <= |rows|
  {
    if rows == [] then []
    else
      (if rows[0].item == item then [Scaled(rows[0], m)] else [])
      + Multiplied(rows[1..], item, m)
  }

  /**
   * `pd.merge(item_counts, data, on=item, how='inner')` followed by
   * `rating := rating * prediction`: the rows of each count row's item, in
   * the order of the count frame.
   */
  function MergeRescale(counts: seq<ItemScore>, data: seq<Review>): seq<Review> {
    if counts == [] then []
    else Multiplied(data, counts[0].item, counts[0].prediction) + MergeRescale(counts[1..], data)
  }

  /** The table the wrapped back-end is fitted on (`__init__`, lines 23-26). */
  function Rescale(data: seq<Review>): seq<Review> {
    MergeRescale(RankRestaurantsByRates(data), data)
  }

  /** Reference definition: each row in place, rating times its item's review count. */
  function ScaleByPopularity(data: seq<Review>): (r: seq<Review>)
    ensures |r| == |data|
    ensures forall i :: 0 <= i < |r| ==>
      r[i] == Scaled(data[i], ReviewCount(data, data[i].item) as real)
  {
    seq(|data|, i requires 0 <= i < |data| =>
      Scaled(data[i], ReviewCount(data, data[i].item) as real))
  }

  /** The rows of `s` about `item`, in order. */
  function ItemRows(s: seq<Review>, item: int): (r: seq<Review>)
    ensures forall x :: x in r <==> x in s && x.item == item
  {
    if s == [] then [] else (if s[0].item == item then [s[0]] else []) + ItemRows(s[1..], item)
  }

  /** The rows of `s` grouped by the items of `its`, one group after another. */
  function GroupedRows(s: seq<Review>, its: seq<int>): seq<Review> {
    if its == [] then [] else ItemRows(s, its[0]) + GroupedRows(s, its[1..])
  }

  /** Rescaling `rows` row by row with the review counts of `data`. */
  function ScaledRows(rows: seq<Review>, data: seq<Review>): seq<Review> {
    if rows == [] then []
    else
      [Scaled(rows[0], ReviewCount(data, rows[0].item) as real)]
      + ScaledRows(rows[1..], data)
  }

  lemma {:induction false} MultipliedCons(rows: seq<Review>, item: int, m: real)
    requires rows != []
    ensures Multiplied(rows, item, m)
      == (if rows[0].item == item then [Scaled(rows[0], m)] else [])
         + Multiplied(rows[1..], item, m)
  {
  }

  lemma {:induction false} MultipliedIsScaledGroup(rows: seq<Review>, data: seq<Review>, c: ItemScore)
    requires c.prediction == ReviewCount(data, c.item) as real
    ensures Multiplied(rows, c.item, c.prediction) == ItemRows(ScaledRows(rows, data), c.item)
  {
    if rows != [] {
      MultipliedIsScaledGroup(rows[1..], data, c);
      var s := ScaledRows(rows, data);
      var x := Scaled(rows[0], ReviewCount(data, rows[0].item) as real);
      assert s == [x] + ScaledRows(rows[1..], data);
      assert s[1..] == ScaledRows(rows[1..], data);
      MultipliedCons(rows, c.item, c.prediction);
      if rows[0].item == c.item {
        assert ItemRows(s, c.item) == [x] + ItemRows(s[1..], c.item);
      } else {
        assert ItemRows(s, c.item) == ItemRows(s[1..], c.item);
      }
    }
  }

  lemma {:induction false} MergeRescaleIsGrouped(counts: seq<ItemScore>, data: seq<Review>)
    requires forall i :: 0 <= i < |counts| ==> counts[i].prediction == ReviewCount(data, counts[i].item) as real
    ensures MergeRescale(counts, data) == GroupedRows(ScaledRows(data, data), ItemColumn(counts))
  {
    if counts != [] {
      MultipliedIsScaledGroup(data, data, counts[0]);
      assert forall i :: 0 <= i < |counts[1..]| ==> counts[1..][i] == counts[i + 1];
      MergeRescaleIsGrouped(counts[1..], data);
      assert ItemColumn(counts)[1..] == ItemColumn(counts[1..]);
    }
  }

  /** Grouping by a list of distinct items counts each row once when its item is listed. */
  lemma {:induction false} GroupedRowsCons(x: Review, t: seq<Review>, its: seq<int>)
    requires Distinct(its)
    ensures multiset(GroupedRows([x] + t, its))
      == multiset(GroupedRows(t, its)) + (if x.item in its then multiset{x} else multiset{})
  {
    if its != [] {
      assert Distinct(its[1..]);
      GroupedRowsCons(x, t, its[1..]);
      assert ([x] + t)[1..] == t;
      assert x.item == its[0] ==> x.item !in its[1..];
      assert x.item in its <==> x.item == its[0] || x.item in its[1..];
    }
  }

  /** Grouping by distinct items that cover every row is a permutation. */
  lemma {:induction false} GroupedRowsPermutation(s: seq<Review>, its: seq<int>)
    requires Distinct(its)
    requires forall x :: x in s ==> x.item in its
    ensures multiset(GroupedRows(s, its)) == multiset(s)
  {
    if s == [] {
      EmptyGroups(its);
    } else {
      GroupedRowsPermutation(s[1..], its);
      GroupedRowsCons(s[0], s[1..], its);
      assert s == [s[0]] + s[1..];
    }
  }

  lemma {:induction false} EmptyGroups(its: seq<int>)
    ensures GroupedRows([], its) == []
  {
    if its != [] {
      EmptyGroups(its[1..]);
    }
  }

  lemma {:induction false} ScaledRowsIsScaleByPopularity(rows: seq<Review>, data: seq<Review>)
    ensures |ScaledRows(rows, data)| == |rows|
    ensures forall i :: 0 <= i < |rows| ==>
      ScaledRows(rows, data)[i] == Scaled(rows[i], ReviewCount(data, rows[i].item) as real)
  {
    if rows != [] {
      ScaledRowsIsScaleByPopularity(rows[1..], data);
    }
  }

  /**
   * The merge only reorders: the rescaled table holds exactly the input rows,
   * each with its rating multiplied by its item's review count, as many
   * times as the input holds them.
   */
  lemma {:induction false} RescaleIsPermutedScaling(data: seq<Review>)
    ensures multiset(Rescale(data)) == multiset(ScaleByPopularity(data))
    ensures |Rescale(data)| == |data|
  {
    var counts := RankRestaurantsByRates(data);
    RankingEntries(data);
    MergeRescaleIsGrouped(counts, data);
    ScaledRowsIsScaleByPopularity(data, data);
    var s := ScaledRows(data, data);
    assert s == ScaleByPopularity(data);
    ScaledItemsListed(data, ItemColumn(counts));
    GroupedRowsPermutation(s, ItemColumn(counts));
    assert |Rescale(data)| == |multiset(Rescale(data))|;
  }

  /** The reference scaling keeps each row's item, so a list of all items covers its rows. */
  lemma {:induction false} ScaledItemsListed(data: seq<Review>, its: seq<int>)
    requires forall it :: it in Items(data) ==> it in its
    ensures forall x :: x in ScaleByPopularity(data) ==> x.item in its
  {
    var s := ScaleByPopularity(data);
    forall x | x in s ensures x.item in its {
      var i :| 0 <= i < |s| && s[i] == x;
      assert Items(data)[i] == x.item;
    }
  }

  /** Row `i` of the reference scaling keeps the row and multiplies its rating by at least one. */
  lemma {:induction false} ScaledRowFacts(data: seq<Review>, i: nat)
    requires i < |data|
    ensures var x := ScaleByPopularity(data)[i];
      && x.user == data[i].user && x.item == data[i].item && x.timestamp == data[i].timestamp
      && x.rating == data[i].rating * ReviewCount(data, data[i].item) as real
      && (data[i].rating >= 0.0 ==> x.rating >= data[i].rating)
  {
    assert Items(data)[i] == data[i].item;
    assert data[i].item in multiset(Items(data));
    MultiplierAtLeastOne(data[i].rating, ReviewCount(data, data[i].item) as real);
  }

  /**
   * Each rescaled row keeps a row's user, item and timestamp, and its rating
   * is that row's rating times the item's count; for a non-negative rating
   * it is at least the original.
   */
  lemma {:induction false} RescaledRowsComeFromInput(data: seq<Review>)
    ensures forall x :: x in Rescale(data) ==>
      exists i ::
        0 <= i < |data|
        && x.user == data[i].user && x.item == data[i].item && x.timestamp == data[i].timestamp
        && x.rating == data[i].rating * ReviewCount(data, data[i].item) as real
        && (data[i].rating >= 0.0 ==> x.rating >= data[i].rating)
  {
    RescaleIsPermutedScaling(data);
    var s := ScaleByPopularity(data);
    forall x | x in Rescale(data)
      ensures exists i ::
        0 <= i < |data|
        && x.user == data[i].user && x.item == data[i].item && x.timestamp == data[i].timestamp
        && x.rating == data[i].rating * ReviewCount(data, data[i].item) as real
        && (data[i].rating >= 0.0 ==> x.rating >= data[i].rating)
    {
      assert x in multiset(s);
      var i :| 0 <= i < |s| && s[i] == x;
      ScaledRowFacts(data, i);
    }
  }

  lemma {:induction false} MultiplierAtLeastOne(rating: real, m: real)
    requires m >= 1.0
    ensures rating >= 0.0 ==> rating * m >= rating
  {
    if rating >= 0.0 {
      assert rating * m - rating == rating * (m - 1.0);
    }
  }

  /**
   * The naive hybrid as a back-end: `train` and `predict` go to the wrapped
   * back-end fitted on the rescaled table, with the caller's arguments.
   */
  function NaiveHybridScorer(als: Scorer): (s: Scorer)
    ensures forall d, u, k, rs :: s(d, u, k, rs) == als(Rescale(d), u, k, rs)
  {
    (d: seq<Review>, u: int, k: int, rs: bool) => als(Rescale(d), u, k, rs)
  }
}
