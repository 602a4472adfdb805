/**
 * Schema enforcement before prediction (app/model_utils.py): the canonical
 * feature columns, filling and reordering them, and imputing missing lags.
 */
module ModelUtils {
  import opened Tables

  /** The columns the model was trained on, in training order. */
  const FeatureCols: seq<string> := ["lag_1", "lag_2", "hour", "day_of_week", "month", "is_weekend", "is_festival"]

  lemma FeatureColsDistinct()
    ensures Distinct(FeatureCols)
  {
  }

  /** The columns whose nulls are imputed. */
  const LagCols: seq<string> := ["lag_1", "lag_2"]

  predicate IsLag(c: string) {
    c == "lag_1" || c == "lag_2"
  }

  /** What `_ensure_columns` puts in a missing column: null for a lag, 0 otherwise. */
  function DefaultColumn(c: string, n: nat): (cells: seq<Cell>)
    ensures |cells| == n
    ensures forall i :: 0 <= i < n ==> cells[i] == if IsLag(c) then Null else Num(0.0)
  {
    seq(n, _ => if IsLag(c) then Null else Num(0.0))
  }

  /** The copied table once the fill loop of `_ensure_columns` has visited `cols`. */
  function AddMissing(t: Table, cols: seq<string>): (r: Table)
    requires WellFormed(t)
    ensures WellFormed(r) && |r.rows| == |t.rows|
    ensures forall c :: c in t.names ==> c in r.names && Column(r, c) == Column(t, c)
    ensures forall c :: c in cols ==> c in r.names
    ensures forall c :: c in r.names ==> c in t.names || c in cols
    ensures forall c :: c in cols && c !in t.names ==> Column(r, c) == DefaultColumn(c, |t.rows|)
    decreases |cols|
  {
    if cols == [] then t
    else
      var prev := AddMissing(t, cols[..|cols| - 1]);
      var c := cols[|cols| - 1];
      assert forall d :: d in cols ==> d in cols[..|cols| - 1] || d == c;
      if c in prev.names then prev else Assign(prev, c, DefaultColumn(c, |t.rows|))
  }

  /** The fill loop's next pass, seen from the fold. */
  lemma AddMissingStep(t: Table, cols: seq<string>, c: string)
    requires WellFormed(t)
    ensures var prev := AddMissing(t, cols);
            AddMissing(t, cols + [c]) == if c in prev.names then prev else Assign(prev, c, DefaultColumn(c, |t.rows|))
  {
    assert (cols + [c])[..|cols|] == cols;
  }

  /**
   * What `_ensure_columns` returns: exactly the feature columns in canonical
   * order and as many rows as the input; a column the input has keeps its
   * cells, a missing one gets its default, and any other input column is gone.
   */
  function EnsuredColumns(t: Table): (r: Table)
    requires WellFormed(t)
    ensures WellFormed(r) && r.names == FeatureCols && |r.rows| == |t.rows|
    ensures forall c :: c in FeatureCols && c in t.names ==> Column(r, c) == Column(t, c)
    ensures forall c :: c in FeatureCols && c !in t.names ==> Column(r, c) == DefaultColumn(c, |t.rows|)
  {
    Select(AddMissing(t, FeatureCols), FeatureCols)
  }

  /** `_ensure_columns`: fills a copy, then reorders it; the caller's frame is left as it was. */
  method EnsureColumns(x: Frame) returns (r: Frame)
    requires x.Valid()
    ensures unchanged(x)
    ensures fresh(r) && r.Valid() && r.Value() == EnsuredColumns(x.Value())
  {
    ghost var t := x.Value();
    var y := x.Copy();
    var i := 0;
    while i < |FeatureCols|
      invariant 0 <= i <= |FeatureCols|
      invariant fresh(y) && y.Valid()
      invariant y.Value() == AddMissing(t, FeatureCols[..i])
    {
      var col := FeatureCols[i];
      assert FeatureCols[..i + 1] == FeatureCols[..i] + [col];
      AddMissingStep(t, FeatureCols[..i], col);
      if col !in y.names {
        y.SetColumn(col, DefaultColumn(col, |y.rows|));
      }
      i := i + 1;
    }
    assert FeatureCols[..|FeatureCols|] == FeatureCols;
    FeatureColsDistinct();
    r := y.SelectColumns(FeatureCols);
  }

  /** Reordering is idempotent: a table already in canonical form comes back unchanged. */
  lemma EnsuredColumnsIdempotent(t: Table)
    requires WellFormed(t) && t.names == FeatureCols
    ensures EnsuredColumns(t) == t
  {
    TablesEqual(EnsuredColumns(t), t);
  }

  /** `isna().all()` */
  predicate AllNull(cells: seq<Cell>) {
    forall i :: 0 <= i < |cells| ==> cells[i].Null?
  }

  /** `fillna(v)` */
  function FillNA(cells: seq<Cell>, v: real): (r: seq<Cell>)
    ensures |r| == |cells|
    ensures forall i :: 0 <= i < |cells| ==> r[i] == if cells[i].Null? then Num(v) else cells[i]
  {
    if cells == [] then []
    else [if cells[0].Null? then Num(v) else cells[0]] + FillNA(cells[1..], v)
  }

  /** A numeric column that is not all null has a value to average. */
  lemma {:induction false} SomeValue(cells: seq<Cell>)
    requires NoTimes(cells) && !AllNull(cells)
    ensures |NumValues(cells)| > 0
  {
    if cells[0].Null? {
      assert !AllNull(cells[1..]) by {
        var i :| 0 <= i < |cells| && !cells[i].Null?;
        assert cells[1..][i - 1] == cells[i];
      }
      SomeValue(cells[1..]);
    }
  }

  /** One lag column after imputation: all zeros if it was all null, else nulls replaced by the mean of the rest. */
  function ImputeColumn(cells: seq<Cell>): (r: seq<Cell>)
    requires NoTimes(cells)
    ensures |r| == |cells|
    ensures forall i :: 0 <= i < |r| ==> r[i].Num?
    ensures AllNull(cells) ==> forall i :: 0 <= i < |r| ==> r[i] == Num(0.0)
    ensures !AllNull(cells) ==>
              (&& |NumValues(cells)| > 0
               && forall i :: 0 <= i < |r| ==> r[i] == if cells[i].Null? then Num(Mean(NumValues(cells))) else cells[i])
  {
    if AllNull(cells) then seq(|cells|, _ => Num(0.0))
    else
      SomeValue(cells);
      FillNA(cells, Mean(NumValues(cells)))
  }

  /** A batch of [null, 80] imputes to [80, 80]. */
  lemma ImputeNullAndEighty()
    ensures ImputeColumn([Null, Num(80.0)]) == [Num(80.0), Num(80.0)]
  {
    assert NumValues([Null, Num(80.0)]) == [80.0] by {
      assert [Null, Num(80.0)][1..] == [Num(80.0)];
      assert [Num(80.0)][1..] == [];
    }
    assert Mean([80.0]) == 80.0 by { assert [80.0][1..] == []; }
    assert !AllNull([Null, Num(80.0)]) by { assert [Null, Num(80.0)][1] == Num(80.0); }
  }

  /** A single row whose lag is null imputes to 0.0: there is no other row to average. */
  lemma ImputeSingleNull()
    ensures ImputeColumn([Null]) == [Num(0.0)]
  {
  }

  function NullCount(cells: seq<Cell>): nat {
    if cells == [] then 0 else (if cells[0].Null? then 1 else 0) + NullCount(cells[1..])
  }

  /** Filling nulls adds one value per null to the values the mean sees. */
  lemma {:induction false} FillNACount(cells: seq<Cell>, v: real)
    requires NoTimes(cells)
    ensures |NumValues(FillNA(cells, v))| == |NumValues(cells)| + NullCount(cells)
  {
    if cells != [] {
      FillNACount(cells[1..], v);
    }
  }

  /** `k` copies of `v` added up. */
  function Times(k: nat, v: real): real {
    if k == 0 then 0.0 else v + Times(k - 1, v)
  }

  lemma {:induction false} TimesIsProduct(k: nat, v: real)
    ensures Times(k, v) == k as real * v
  {
    if k > 0 {
      TimesIsProduct(k - 1, v);
      assert (k - 1) as real * v + v == k as real * v;
    }
  }

  /** ... and each added value is `v`. */
  lemma {:induction false} FillNASum(cells: seq<Cell>, v: real)
    requires NoTimes(cells)
    ensures Sum(NumValues(FillNA(cells, v))) == Sum(NumValues(cells)) + Times(NullCount(cells), v)
  {
    if cells != [] {
      FillNASum(cells[1..], v);
    }
  }

  /** The arithmetic of padding: `n` values with sum `sum`, plus `k` copies of their mean, have the same mean. */
  lemma PaddedMean(sum: real, padded: real, n: real, k: real, total: real)
    requires n > 0.0 && k >= 0.0 && padded == sum + k * (sum / n) && total == n + k
    ensures padded / total == sum / n
  {
    var m := sum / n;
    assert sum == n * m;
    assert padded == total * m;
  }

  /** Padding a sequence of values with `k` copies of their mean keeps the mean. */
  lemma MeanAfterPadding(after: seq<real>, values: seq<real>, k: nat)
    requires |values| > 0 && |after| == |values| + k
    requires Sum(after) == Sum(values) + k as real * Mean(values)
    ensures Mean(after) == Mean(values)
  {
    PaddedMean(Sum(values), Sum(after), |values| as real, k as real, |after| as real);
  }

  /** Mean imputation leaves the column's mean where it was. */
  lemma ImputationKeepsMean(cells: seq<Cell>)
    requires NoTimes(cells) && !AllNull(cells)
    ensures |NumValues(cells)| > 0 && |NumValues(ImputeColumn(cells))| > 0
    ensures Mean(NumValues(ImputeColumn(cells))) == Mean(NumValues(cells))
  {
    SomeValue(cells);
    var m := Mean(NumValues(cells));
    assert ImputeColumn(cells) == FillNA(cells, m);
    FillNACount(cells, m);
    FillNASum(cells, m);
    TimesIsProduct(NullCount(cells), m);
    MeanAfterPadding(NumValues(FillNA(cells, m)), NumValues(cells), NullCount(cells));
  }

  /** The lag columns exist and hold numbers or nulls. */
  predicate ImputableLags(t: Table) {
    && WellFormed(t)
    && "lag_1" in t.names && "lag_2" in t.names
    && NoTimes(Column(t, "lag_1")) && NoTimes(Column(t, "lag_2"))
  }

  /** `Xp[["lag_1","lag_2"]].isna().any().any()` */
  predicate LagsHaveNull(t: Table)
    requires ImputableLags(t)
  {
    Null in Column(t, "lag_1") || Null in Column(t, "lag_2")
  }

  /** One pass of the imputation loop: lag column `c` replaced by its imputed cells. */
  function ImputeStep(t: Table, c: string): (r: Table)
    requires ImputableLags(t) && IsLag(c)
    ensures ImputableLags(r) && r.names == t.names && |r.rows| == |t.rows|
    ensures Column(r, c) == ImputeColumn(Column(t, c))
    ensures forall d :: d in t.names && d != c ==> Column(r, d) == Column(t, d)
  {
    Assign(t, c, ImputeColumn(Column(t, c)))
  }

  /** The loop's passes over `cols` in order, one `ImputeStep` per lag column. */
  function ImputeAll(t: Table, cols: seq<string>): (r: Table)
    requires ImputableLags(t) && forall c :: c in cols ==> IsLag(c)
    ensures ImputableLags(r) && r.names == t.names && |r.rows| == |t.rows|
    decreases |cols|
  {
    if cols == [] then t
    else ImputeStep(ImputeAll(t, cols[..|cols| - 1]), cols[|cols| - 1])
  }

  /** One more pass of the loop: the prefix of `LagCols` grows by the column just imputed. */
  lemma ImputeAllStep(t: Table, i: nat)
    requires ImputableLags(t) && i < |LagCols|
    ensures ImputeAll(t, LagCols[..i + 1]) == ImputeStep(ImputeAll(t, LagCols[..i]), LagCols[i])
  {
    assert LagCols[..i + 1][..i] == LagCols[..i];
  }

  /** All passes of the loop impute `lag_1` and then `lag_2`, which is what `ImputedLags` does when a lag is null. */
  lemma ImputeAllLags(t: Table)
    requires ImputableLags(t) && LagsHaveNull(t)
    ensures ImputeAll(t, LagCols) == ImputedLags(t)
  {
    assert LagCols[..1] == ["lag_1"] && LagCols[..0] == [];
    assert ImputeAll(t, ["lag_1"]) == ImputeStep(t, "lag_1");
  }

  /** Imputing a column that has no null and at least one row changes nothing. */
  lemma ImputeColumnWithoutNulls(cells: seq<Cell>)
    requires NoTimes(cells) && Null !in cells
    ensures ImputeColumn(cells) == cells
  {
    if cells != [] {
      assert !cells[0].Null? by { assert cells[0] in cells; }
    }
  }

  /**
   * The imputation block of `predict_from_df`: when a lag has a null, every lag
   * column is imputed on its own batch; afterwards no lag is null and no other
   * column has changed.
   */
  function ImputedLags(t: Table): (r: Table)
    requires ImputableLags(t)
    ensures ImputableLags(r) && r.names == t.names && |r.rows| == |t.rows|
    ensures forall c :: c in LagCols ==> Column(r, c) == ImputeColumn(Column(t, c))
    ensures forall c :: c in LagCols ==> Null !in Column(r, c)
    ensures forall c :: c in t.names && !IsLag(c) ==> Column(r, c) == Column(t, c)
  {
    if LagsHaveNull(t) then ImputeStep(ImputeStep(t, "lag_1"), "lag_2")
    else
      ImputeColumnWithoutNulls(Column(t, "lag_1"));
      ImputeColumnWithoutNulls(Column(t, "lag_2"));
      t
  }

  /** With no null in either lag the block is skipped: the table comes back as it was. */
  lemma ImputationWithoutNulls(t: Table)
    requires ImputableLags(t) && !LagsHaveNull(t)
    ensures ImputedLags(t) == t
  {
  }

  /** Imputing twice is imputing once: after one pass no lag is null. */
  lemma ImputationIdempotent(t: Table)
    requires ImputableLags(t)
    ensures ImputedLags(ImputedLags(t)) == ImputedLags(t)
  {
    var r := ImputedLags(t);
    assert "lag_1" in LagCols && "lag_2" in LagCols;
    ImputationWithoutNulls(r);
  }

  /** The imputation loop of `predict_from_df`, overwriting the lag columns of `xp` in place. */
  method ImputeLags(xp: Frame)
    requires xp.Valid() && ImputableLags(xp.Value())
    modifies xp
    ensures xp.Valid() && xp.Value() == ImputedLags(old(xp.Value()))
  {
    if Null in xp.Get("lag_1") || Null in xp.Get("lag_2") {
      var i := 0;
      while i < |LagCols|
        invariant 0 <= i <= |LagCols|
        invariant xp.Valid() && ImputableLags(xp.Value())
        invariant xp.Value() == ImputeAll(old(xp.Value()), LagCols[..i])
      {
        var col := LagCols[i];
        ghost var before := xp.Value();
        var cells := xp.Get(col);
        if AllNull(cells) {
          xp.SetColumn(col, seq(|cells|, _ => Num(0.0)));
        } else {
          SomeValue(cells);
          var meanValue := Mean(NumValues(cells));
          xp.SetColumn(col, FillNA(cells, meanValue));
        }
        assert xp.Value() == ImputeStep(before, col);
        ImputeAllStep(old(xp.Value()), i);
        i := i + 1;
      }
      assert LagCols[..i] == LagCols;
      ImputeAllLags(old(xp.Value()));
    }
  }

  /** Every table that reaches the model: canonical columns, then lags imputed. */
  function Prepared(t: Table): (r: Table)
    requires WellFormed(t)
    requires "lag_1" in t.names ==> NoTimes(Column(t, "lag_1"))
    requires "lag_2" in t.names ==> NoTimes(Column(t, "lag_2"))
    ensures WellFormed(r) && r.names == FeatureCols && |r.rows| == |t.rows|
    ensures forall c :: c in LagCols ==> Null !in Column(r, c)
  {
    EnsuredLagsImputable(t);
    ImputedLags(EnsuredColumns(t))
  }

  /** Both lag columns exist after `_ensure_columns`, holding numbers or nulls. */
  lemma EnsuredLagsImputable(t: Table)
    requires WellFormed(t)
    requires "lag_1" in t.names ==> NoTimes(Column(t, "lag_1"))
    requires "lag_2" in t.names ==> NoTimes(Column(t, "lag_2"))
    ensures ImputableLags(EnsuredColumns(t))
  {
    var e := EnsuredColumns(t);
    assert "lag_1" in FeatureCols && "lag_2" in FeatureCols;
    assert NoTimes(DefaultColumn("lag_1", |t.rows|)) && NoTimes(DefaultColumn("lag_2", |t.rows|));
  }

  /**
   * `predict_from_df`: the model (a parameter here) sees the prepared table;
   * the caller's frame is not changed.
   */
  method PredictFromFrame(x: Frame, predict: Table -> seq<real>) returns (preds: seq<real>)
    requires x.Valid()
    requires "lag_1" in x.names ==> NoTimes(x.Get("lag_1"))
    requires "lag_2" in x.names ==> NoTimes(x.Get("lag_2"))
    ensures unchanged(x)
    ensures preds == predict(Prepared(x.Value()))
  {
    var xp := EnsureColumns(x);
    ImputeLags(xp);
    preds := predict(xp.Value());
  }
}
