/**
 * Ranking metrics of one user (main/evaluation.py): precision@k, recall@k
 * and the repository's own, un-normalised average precision@k, computed by
 * one pass over the prediction frame that stops at the row labelled `k`.
 */
module Evaluation {
  import opened Wrappers
  import opened Types

  datatype Metrics = Metrics(pk: real, rk: real, apk: real)

  /** Running totals of the metric loop. */
  datatype Tally = Tally(hits: nat, sumPrecision: real)

  /** The truth rows whose rating is at least `threshold` (`>=`, not `>`). */
  function Relevant(truth: seq<Review>, threshold: real): (r: seq<Review>)
    ensures |r| <= |truth|
    ensures forall t :: t in r <==> t in truth && t.rating >= threshold
  {
    if truth == [] then []
    else (if truth[0].rating >= threshold then [truth[0]] else []) + Relevant(truth[1..], threshold)
  }

  /**
   * The filter keeps every relevant truth row as many times as it occurs,
   * so duplicate rows count in recall's denominator.
   */
  lemma {:induction false} RelevantMultiplicity(truth: seq<Review>, threshold: real)
    ensures forall t :: multiset(Relevant(truth, threshold))[t] == if t.rating >= threshold then multiset(truth)[t] else 0
  {
    if truth != [] {
      RelevantMultiplicity(truth[1..], threshold);
      assert truth == [truth[0]] + truth[1..];
    }
  }

  /** The prediction row's (user, item) pair occurs among the relevant rows. */
  predicate IsHit(relevant: seq<Review>, row: PredRow) {
    exists t :: t in relevant && t.user == row.user && t.item == row.item
  }

  /** How many rows the loop scores: those before the first row labelled `k`. */
  function ScoredLength(preds: seq<PredRow>, k: int): (n: nat)
    ensures n <= |preds|
    ensures forall j :: 0 <= j < n ==> preds[j].rowLabel != k
    ensures n < |preds| ==> preds[n].rowLabel == k
  {
    if preds == [] || preds[0].rowLabel == k then 0 else 1 + ScoredLength(preds[1..], k)
  }

  /** Totals after scoring `rows` in order: each hit adds hits / (label + 1). */
  function Scan(relevant: seq<Review>, rows: seq<PredRow>): Tally {
    if rows == [] then Tally(0, 0.0)
    else
      var t := Scan(relevant, rows[..|rows| - 1]);
      var row := rows[|rows| - 1];
      if IsHit(relevant, row) then
        Tally(t.hits + 1, t.sumPrecision + (t.hits + 1) as real / (row.rowLabel + 1) as real)
      else t
  }

  /** What `evaluate_top_k_for_user` returns, or the error it raises. */
  function TopK(truth: seq<Review>, preds: seq<PredRow>, k: int, threshold: real): Result<Metrics> {
    var relevant := Relevant(truth, threshold);
    var t := Scan(relevant, preds[..ScoredLength(preds, k)]);
    if k == 0 then Err(ZeroDivisionError)
    else Ok(Metrics(
      t.hits as real / k as real,
      if |relevant| == 0 then 0.0 else t.hits as real / |relevant| as real,
      if t.hits == 0 then 0.0 else t.sumPrecision / t.hits as real))
  }

  /**
   * The metric loop. Inputs are values, so the call cannot modify them and
   * equal inputs give equal results.
   */
  method EvaluateTopKForUser(truth: seq<Review>, preds: seq<PredRow>, k: int, threshold: real)
    returns (r: Result<Metrics>)
    ensures r == TopK(truth, preds, k, threshold)
    ensures r.Err? <==> k == 0
  {
    var relevant := Relevant(truth, threshold);
    var totalRelevant := |relevant|;
    var hitCount: nat := 0;
    var sumPrecision: real := 0.0;
    var i := 0;
    while i < |preds|
      invariant i <= |preds|
      invariant forall j :: 0 <= j < i ==> preds[j].rowLabel != k
      invariant Tally(hitCount, sumPrecision) == Scan(relevant, preds[..i])
    {
      var row := preds[i];
      if row.rowLabel == k {
        break;
      }
      assert preds[..i + 1][..i] == preds[..i];
      if IsHit(relevant, row) {
        hitCount := hitCount + 1;
        sumPrecision := sumPrecision + hitCount as real / (row.rowLabel + 1) as real;
      }
      i := i + 1;
    }
    assert i == ScoredLength(preds, k);
    if k == 0 {
      return Err(ZeroDivisionError);
    }
    var pk := hitCount as real / k as real;
    var rk := if totalRelevant == 0 then 0.0 else hitCount as real / totalRelevant as real;
    var apk := if hitCount == 0 then 0.0 else sumPrecision / hitCount as real;
    r := Ok(Metrics(pk, rk, apk));
  }

  // ---------------------------------------------------------------------------
  // Properties
  // ---------------------------------------------------------------------------

  /** The frame's labels are its positions 0..n-1 (a freshly reset index). */
  predicate PositionalLabels(preds: seq<PredRow>) {
    forall i :: 0 <= i < |preds| ==> preds[i].rowLabel == i
  }

  /** With positional labels the loop scores exactly the first min(k, n) rows. */
  lemma {:induction false} ScoredLengthPositional(preds: seq<PredRow>, k: int)
    requires PositionalLabels(preds) && k >= 0
    ensures ScoredLength(preds, k) == if k <= |preds| then k else |preds|
  {
    var n := ScoredLength(preds, k);
    if n < |preds| {
      assert preds[n].rowLabel == n;
    }
    if k < |preds| {
      assert preds[k].rowLabel == k;
    }
  }

  /**
   * With positional labels the j-th hit sits at position at least j - 1, so
   * every term hits / (label + 1) lies in (0, 1].
   */
  lemma {:induction false} ScanBounds(relevant: seq<Review>, rows: seq<PredRow>)
    requires PositionalLabels(rows)
    ensures Scan(relevant, rows).hits <= |rows|
    ensures 0.0 <= Scan(relevant, rows).sumPrecision <= Scan(relevant, rows).hits as real
    ensures Scan(relevant, rows).hits > 0 ==> Scan(relevant, rows).sumPrecision > 0.0
  {
    if rows != [] {
      var init := rows[..|rows| - 1];
      var row := rows[|rows| - 1];
      assert PositionalLabels(init);
      ScanBounds(relevant, init);
      var t := Scan(relevant, init);
      if IsHit(relevant, row) {
        var h := (t.hits + 1) as real;
        var d := (row.rowLabel + 1) as real;
        assert row.rowLabel == |init|;
        assert 0.0 < h <= d;
        assert 0.0 < h / d <= 1.0 by {
          assert h / d * d == h;
        }
      }
    }
  }

  lemma {:induction false} PrefixPositional(preds: seq<PredRow>, n: nat)
    requires PositionalLabels(preds) && n <= |preds|
    ensures PositionalLabels(preds[..n])
  {
  }

  /** For k >= 1 and positional labels, precision@k = hits / k lies in [0, 1]. */
  lemma {:induction false} PrecisionInUnitInterval(truth: seq<Review>, preds: seq<PredRow>, k: int, threshold: real)
    requires PositionalLabels(preds) && k >= 1
    ensures TopK(truth, preds, k, threshold).Ok?
    ensures 0.0 <= TopK(truth, preds, k, threshold).value.pk <= 1.0
  {
    var n := ScoredLength(preds, k);
    ScoredLengthPositional(preds, k);
    PrefixPositional(preds, n);
    var t := Scan(Relevant(truth, threshold), preds[..n]);
    ScanBounds(Relevant(truth, threshold), preds[..n]);
    RatioInUnitInterval(t.hits as real, k as real);
  }

  lemma {:induction false} RatioInUnitInterval(h: real, d: real)
    requires 0.0 <= h <= d && d > 0.0
    ensures 0.0 <= h / d <= 1.0
  {
    assert h / d * d == h;
  }

  /**
   * Average precision@k is 0 without hits and otherwise lies in (0, 1] when
   * the labels are positional.
   */
  lemma {:induction false} AveragePrecisionBounds(truth: seq<Review>, preds: seq<PredRow>, k: int, threshold: real)
    requires PositionalLabels(preds) && k != 0
    ensures var n := ScoredLength(preds, k);
      var t := Scan(Relevant(truth, threshold), preds[..n]);
      var apk := TopK(truth, preds, k, threshold).value.apk;
      (t.hits == 0 ==> apk == 0.0) && (t.hits > 0 ==> 0.0 < apk <= 1.0)
  {
    var n := ScoredLength(preds, k);
    PrefixPositional(preds, n);
    var t := Scan(Relevant(truth, threshold), preds[..n]);
    ScanBounds(Relevant(truth, threshold), preds[..n]);
    if t.hits > 0 {
      PositiveRatioAtMostOne(t.sumPrecision, t.hits as real);
    }
  }

  lemma {:induction false} PositiveRatioAtMostOne(h: real, d: real)
    requires 0.0 < h <= d
    ensures 0.0 < h / d <= 1.0
  {
    RatioInUnitInterval(h, d);
    assert h / d * d == h;
  }

  /** Recall is 0, not undefined, when no truth row reaches the threshold. */
  lemma {:induction false} RecallWithoutRelevantRows(truth: seq<Review>, preds: seq<PredRow>, k: int, threshold: real)
    requires k != 0
    requires forall t :: t in truth ==> t.rating < threshold
    ensures TopK(truth, preds, k, threshold).value.rk == 0.0
  {
    NoRelevantRows(truth, threshold);
  }

  lemma {:induction false} NoRelevantRows(truth: seq<Review>, threshold: real)
    requires forall t :: t in truth ==> t.rating < threshold
    ensures Relevant(truth, threshold) == []
  {
    if truth != [] {
      NoRelevantRows(truth[1..], threshold);
    }
  }

  /**
   * Truth {(u1, i1, 5), (u1, i2, 1)}, threshold 3, predictions i1, i2, i3 with
   * labels 0..2 and k = 3 give (1/3, 1, 1).
   */
  lemma {:induction false} WorkedExample()
    ensures TopK([Review(1, 1, 5.0, 0), Review(1, 2, 1.0, 0)],
                 [PredRow(0, 1, 1, 0.0), PredRow(1, 1, 2, 0.0), PredRow(2, 1, 3, 0.0)],
                 3, 3.0)
            == Ok(Metrics(1.0 / 3.0, 1.0, 1.0))
  {
    var truth := [Review(1, 1, 5.0, 0), Review(1, 2, 1.0, 0)];
    var preds := [PredRow(0, 1, 1, 0.0), PredRow(1, 1, 2, 0.0), PredRow(2, 1, 3, 0.0)];
    assert Relevant(truth, 3.0) == [Review(1, 1, 5.0, 0)];
    assert ScoredLength(preds, 3) == 3;
    assert preds[..3] == preds;
    ExampleScan();
  }

  /**
   * Without positional labels the bound fails: two relevant rows whose
   * labels 1 and 0 were swapped by an unstable sort give, for k = 2, an
   * average precision of (1/2 + 2/1) / 2 = 1.25.
   */
  lemma {:induction false} SwappedLabelsExample()
    ensures TopK([Review(1, 1, 5.0, 0), Review(1, 2, 5.0, 0)],
                 [PredRow(1, 1, 1, 0.0), PredRow(0, 1, 2, 0.0)],
                 2, 3.0)
            == Ok(Metrics(1.0, 1.0, 1.25))
  {
    var truth := [Review(1, 1, 5.0, 0), Review(1, 2, 5.0, 0)];
    var preds := [PredRow(1, 1, 1, 0.0), PredRow(0, 1, 2, 0.0)];
    var relevant := Relevant(truth, 3.0);
    assert relevant == truth;
    assert ScoredLength(preds, 2) == 2;
    assert preds[..2] == preds;
    assert IsHit(relevant, preds[0]) && IsHit(relevant, preds[1]);
    assert preds[..1] == [preds[0]] && [preds[0]][..0] == [];
    assert Scan(relevant, [preds[0]]) == Tally(1, 0.5);
    assert Scan(relevant, preds) == Tally(2, 2.5);
  }

  /** Of the three predictions only the first is relevant, at rank 1. */
  lemma {:induction false} ExampleScan()
    ensures Scan([Review(1, 1, 5.0, 0)], [PredRow(0, 1, 1, 0.0), PredRow(1, 1, 2, 0.0), PredRow(2, 1, 3, 0.0)])
         == Tally(1, 1.0)
  {
    var relevant := [Review(1, 1, 5.0, 0)];
    var preds := [PredRow(0, 1, 1, 0.0), PredRow(1, 1, 2, 0.0), PredRow(2, 1, 3, 0.0)];
    assert IsHit(relevant, preds[0]);
    assert !IsHit(relevant, preds[1]);
    assert !IsHit(relevant, preds[2]);
    assert preds[..1] == [preds[0]] && preds[..2] == [preds[0], preds[1]];
    assert [preds[0]][..0] == [];
    assert Scan(relevant, [preds[0]]) == Tally(1, 1.0);
    assert Scan(relevant, preds[..2]) == Tally(1, 1.0);
  }
}
