/** `normalize_rfms_components`: min-max rescaling of the four RFMS columns
    of the caller's table, one column at a time, and the RFMS score as their
    unweighted mean. */
module Normalization {
  import opened Numeric
  import opened Frames

  /** `(v - min) / (max - min)` for one value. */
  function Scaled(v: real, lo: real, hi: real): real
    requires lo < hi
  {
    (v - lo) / (hi - lo)
  }

  /** A value between the bounds lands in [0, 1], hitting 0 exactly at the
      lower bound and 1 exactly at the upper one. */
  lemma ScaledFacts(v: real, lo: real, hi: real)
    requires lo < hi
    ensures lo <= v <= hi ==> 0.0 <= Scaled(v, lo, hi) <= 1.0
    ensures Scaled(v, lo, hi) == 0.0 <==> v == lo
    ensures Scaled(v, lo, hi) == 1.0 <==> v == hi
  {
    if lo <= v <= hi {
      QuotientBounds(v - lo, hi - lo);
    }
    QuotientEndpoints(v - lo, hi - lo);
  }

  lemma ScaledMonotone(v: real, w: real, lo: real, hi: real)
    requires lo < hi
    ensures v <= w <==> Scaled(v, lo, hi) <= Scaled(w, lo, hi)
    ensures v < w <==> Scaled(v, lo, hi) < Scaled(w, lo, hi)
  {
    QuotientMonotone(v - lo, w - lo, hi - lo);
  }

  /** The column is not empty and its maximum exceeds its minimum. */
  ghost predicate HasSpread(col: seq<real>)
  {
    |col| > 0 && Min(col) < Max(col)
  }

  /** Min-max rescaling of one column. The source does not guard a column
      whose maximum equals its minimum, so neither does the model. */
  function Rescale(col: seq<real>): (r: seq<real>)
    requires HasSpread(col)
    ensures |r| == |col|
    ensures InUnitRange(r)
  {
    var lo, hi := Min(col), Max(col);
    assert forall i :: 0 <= i < |col| ==> 0.0 <= Scaled(col[i], lo, hi) <= 1.0 by {
      forall i | 0 <= i < |col| ensures 0.0 <= Scaled(col[i], lo, hi) <= 1.0 {
        ScaledFacts(col[i], lo, hi);
      }
    }
    seq(|col|, i requires 0 <= i < |col| => Scaled(col[i], lo, hi))
  }

  /** The RFMS score: the mean of the four rescaled components. */
  function Score(recency: real, frequency: real, monetary: real, stability: real): real
  {
    (recency + frequency + monetary + stability) / 4.0
  }

  /** Four columns of one common length, in the order of `Components`. */
  ghost predicate Rectangular(cols: seq<seq<real>>)
  {
    && |cols| == |Components|
    && forall j :: 0 <= j < |cols| ==> |cols[j]| == |cols[0]|
  }

  /** Every value of the column lies in [0, 1]. */
  ghost predicate InUnitRange(col: seq<real>)
  {
    forall i :: 0 <= i < |col| ==> 0.0 <= col[i] <= 1.0
  }

  /** The score of every row, from the columns Recency, Frequency, Monetary
      and Stability (positions 0 to 3 of `Components`). */
  function ScoreColumn(cols: seq<seq<real>>): (r: seq<real>)
    requires Rectangular(cols)
    ensures |r| == |cols[0]|
  {
    seq(|cols[0]|, i requires 0 <= i < |cols[0]| => Score(cols[0][i], cols[1][i], cols[2][i], cols[3][i]))
  }

  /** Every RFMS column has some spread. */
  ghost predicate NonDegenerate(df: RfmsFrame)
    reads df
  {
    && df.Valid()
    && forall j :: 0 <= j < |df.rfms| ==> HasSpread(df.rfms[j])
  }

  /** The loop of `normalize_rfms_components`: each RFMS column of the
      caller's table is replaced by its rescaling, one column at a time. */
  method RescaleColumns(df: RfmsFrame)
    requires NonDegenerate(df)
    modifies df`rfms
    ensures df.Valid()
    ensures forall j :: 0 <= j < |Components| ==> df.rfms[j] == Rescale(old(df.rfms[j]))
  {
    for k := 0 to |Components|
      invariant df.Valid()
      invariant forall j :: 0 <= j < k ==> df.rfms[j] == Rescale(old(df.rfms[j]))
      invariant forall j :: k <= j < |Components| ==> df.rfms[j] == old(df.rfms[j])
    {
      var c := Components[k];
      df.SetColumn(c, Rescale(df.Column(c)));
    }
  }

  /** `normalize_rfms_components`: the RFMS columns are rescaled and the
      score column is added; every score lies in [0, 1]. */
  method NormalizeRfmsComponents(df: RfmsFrame)
    requires NonDegenerate(df)
    modifies df
    ensures df.Valid() && df.customer == old(df.customer)
    ensures forall j :: 0 <= j < |Components| ==> df.rfms[j] == Rescale(old(df.rfms[j]))
    ensures df.score == ScoreColumn(df.rfms)
    ensures InUnitRange(df.score)
    ensures df.riskLabel == old(df.riskLabel) && df.bin == old(df.bin)
  {
    RescaleColumns(df);
    ScoreColumnBounds(df.rfms);
    df.score := ScoreColumn(df.rfms);
  }

  // ---------------------------------------------------------------------

  /** A row maps to 0 exactly when it holds the column's minimum, and to 1
      exactly when it holds the maximum. */
  lemma RescaleEndpoints(col: seq<real>, i: nat)
    requires HasSpread(col) && i < |col|
    ensures Rescale(col)[i] == 0.0 <==> col[i] == Min(col)
    ensures Rescale(col)[i] == 1.0 <==> col[i] == Max(col)
  {
    var lo, hi := Min(col), Max(col);
    assert Rescale(col)[i] == Scaled(col[i], lo, hi);
    ScaledFacts(col[i], lo, hi);
  }

  /** Some row maps to 0 and some row maps to 1. */
  lemma RescaleAttainsBounds(col: seq<real>)
    requires HasSpread(col)
    ensures exists i :: 0 <= i < |col| && Rescale(col)[i] == 0.0
    ensures exists i :: 0 <= i < |col| && Rescale(col)[i] == 1.0
  {
    var lo :| lo in col && lo == Min(col);
    var i :| 0 <= i < |col| && col[i] == lo;
    RescaleEndpoints(col, i);
    var j :| 0 <= j < |col| && col[j] == Max(col);
    RescaleEndpoints(col, j);
  }

  /** Rescaling keeps the order between any two rows, ties included. */
  lemma RescalePreservesOrder(col: seq<real>, i: nat, j: nat)
    requires HasSpread(col) && i < |col| && j < |col|
    ensures col[i] <= col[j] <==> Rescale(col)[i] <= Rescale(col)[j]
    ensures col[i] < col[j] <==> Rescale(col)[i] < Rescale(col)[j]
  {
    var lo, hi := Min(col), Max(col);
    assert Rescale(col)[i] == Scaled(col[i], lo, hi);
    assert Rescale(col)[j] == Scaled(col[j], lo, hi);
    ScaledMonotone(col[i], col[j], lo, hi);
  }

  /** Four columns of values in [0, 1] give scores in [0, 1]. */
  lemma ScoreColumnBounds(cols: seq<seq<real>>)
    requires Rectangular(cols)
    requires forall j :: 0 <= j < |cols| ==> InUnitRange(cols[j])
    ensures InUnitRange(ScoreColumn(cols))
  {
    assert InUnitRange(cols[0]) && InUnitRange(cols[1]) && InUnitRange(cols[2]) && InUnitRange(cols[3]);
    forall i | 0 <= i < |cols[0]|
      ensures 0.0 <= ScoreColumn(cols)[i] <= 1.0
    {
      ScoreBounds(cols[0][i], cols[1][i], cols[2][i], cols[3][i]);
    }
  }

  /** The mean of four values in [0, 1] is in [0, 1]; it is 1 only when all
      four are 1 and 0 only when all four are 0. */
  lemma ScoreBounds(recency: real, frequency: real, monetary: real, stability: real)
    requires 0.0 <= recency <= 1.0 && 0.0 <= frequency <= 1.0
    requires 0.0 <= monetary <= 1.0 && 0.0 <= stability <= 1.0
    ensures 0.0 <= Score(recency, frequency, monetary, stability) <= 1.0
    ensures Score(recency, frequency, monetary, stability) == 1.0 <==>
      recency == 1.0 && frequency == 1.0 && monetary == 1.0 && stability == 1.0
    ensures Score(recency, frequency, monetary, stability) == 0.0 <==>
      recency == 0.0 && frequency == 0.0 && monetary == 0.0 && stability == 0.0
  {
  }
}
