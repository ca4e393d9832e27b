/** `assign_risk_labels`: a row whose RFMS score is strictly above the
    threshold is labelled Good, every other row Bad. */
module RiskLabels {
  import opened Frames

  /** The threshold used when the caller gives none. */
  const DefaultThreshold: real := 0.5

  function Label(score: real, threshold: real): RiskLabel
  {
    if score > threshold then Good else Bad
  }

  /** The label column for a score column. */
  function LabelColumn(scores: seq<real>, threshold: real): (r: seq<RiskLabel>)
    ensures |r| == |scores|
    ensures forall i :: 0 <= i < |r| ==> (r[i] == Good <==> scores[i] > threshold)
    ensures forall i :: 0 <= i < |r| ==> (r[i] == Bad <==> scores[i] <= threshold)
  {
    seq(|scores|, i requires 0 <= i < |scores| => Label(scores[i], threshold))
  }

  /** The number of rows carrying label `l`. */
  function Count(labels: seq<RiskLabel>, l: RiskLabel): (n: nat)
    ensures n <= |labels|
  {
    if |labels| == 0 then 0
    else Count(labels[..|labels| - 1], l) + (if labels[|labels| - 1] == l then 1 else 0)
  }

  /** Every row is labelled either Good or Bad. */
  lemma {:induction false} CountsPartition(labels: seq<RiskLabel>)
    ensures Count(labels, Good) + Count(labels, Bad) == |labels|
  {
    if |labels| > 0 {
      CountsPartition(labels[..|labels| - 1]);
    }
  }

  /** A score equal to the default threshold is Bad; any score above it is Good. */
  lemma DefaultThresholdTie(score: real)
    ensures Label(DefaultThreshold, DefaultThreshold) == Bad
    ensures score > 0.5 ==> Label(score, DefaultThreshold) == Good
    ensures score <= 0.5 ==> Label(score, DefaultThreshold) == Bad
  {
  }

  /** Raising the threshold never turns a Bad row Good, so the number of
      Good rows can only fall. */
  lemma {:induction false} RaisingThresholdLosesGood(scores: seq<real>, low: real, high: real)
    requires low <= high
    ensures Count(LabelColumn(scores, high), Good) <= Count(LabelColumn(scores, low), Good)
    ensures Count(LabelColumn(scores, low), Bad) <= Count(LabelColumn(scores, high), Bad)
  {
    if |scores| > 0 {
      var p := scores[..|scores| - 1];
      assert LabelColumn(scores, high)[..|scores| - 1] == LabelColumn(p, high);
      assert LabelColumn(scores, low)[..|scores| - 1] == LabelColumn(p, low);
      RaisingThresholdLosesGood(p, low, high);
    }
  }

  /** `assign_risk_labels`: the Risk_Label column of the caller's table is
      written from its score column; no other column changes. */
  method AssignRiskLabels(df: RfmsFrame, threshold: real := DefaultThreshold)
    requires df.Valid() && |df.score| == df.Size()
    modifies df`riskLabel
    ensures df.riskLabel == LabelColumn(df.score, threshold)
    ensures |df.riskLabel| == df.Size()
    ensures df.Valid()
  {
    df.riskLabel := LabelColumn(df.score, threshold);
  }
}
