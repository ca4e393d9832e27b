/** `woe_binning`: the rows of one RFMS column are put in quantile bins, each
    bin counts its Bad and Good rows, and each bin's share of all Bad and
    of all Good rows gives its weight of evidence (WoE) and its
    information value (IV); the IVs add up to the column's IV.

    The quantile edges are an input: how `qcut` interpolates them is not
    modelled, only the interval each row falls into. */
module WoeBinning {
  import opened Numeric
  import opened Frames
  import opened RiskLabels

  /** `q=10`: the number of quantiles asked of `qcut`. */
  const Quantiles: nat := 10

  ghost predicate Increasing(edges: seq<real>)
  {
    forall i, j :: 0 <= i < j < |edges| ==> edges[i] < edges[j]
  }

  /** Edges `qcut` can leave once duplicate edges are dropped: strictly
      increasing, at least one bin and at most `Quantiles` of them. */
  ghost predicate IsEdges(edges: seq<real>)
  {
    2 <= |edges| <= Quantiles + 1 && Increasing(edges)
  }

  /** Quantile edges of `values` start at its minimum and end at its maximum. */
  ghost predicate Spans(edges: seq<real>, values: seq<real>)
  {
    && |edges| > 0 && |values| > 0
    && edges[0] == Min(values) && edges[|edges| - 1] == Max(values)
  }

  /** Bin `k` is the interval (edges[k], edges[k+1]]; the first bin also
      holds its lower edge. */
  predicate InBin(edges: seq<real>, k: nat, v: real)
  {
    && k + 1 < |edges|
    && (if k == 0 then edges[0] <= v else edges[k] < v)
    && v <= edges[k + 1]
  }

  /** The first edge at or after position `k` that is not below `v`. */
  function SearchFrom(edges: seq<real>, v: real, k: nat): (j: nat)
    requires 1 <= k < |edges| && v <= edges[|edges| - 1]
    ensures k <= j < |edges| && v <= edges[j]
    ensures forall i :: k <= i < j ==> edges[i] < v
    decreases |edges| - k
  {
    if v <= edges[k] then k else SearchFrom(edges, v, k + 1)
  }

  /** The bin of one value, or None (pandas' missing category) for a value
      outside the edges. */
  function BinOf(edges: seq<real>, v: real): (b: Option<nat>)
    ensures b.Some? <==> 2 <= |edges| && edges[0] <= v <= edges[|edges| - 1]
    ensures b.Some? ==> b.value + 1 < |edges| && v <= edges[b.value + 1]
    ensures b.Some? && 0 < b.value ==> edges[b.value] < v
  {
    if |edges| < 2 || v < edges[0] || edges[|edges| - 1] < v then None
    else Some(SearchFrom(edges, v, 1) - 1)
  }

  /** `df['bin']`: the bin of every row. */
  function BinColumn(edges: seq<real>, values: seq<real>): (r: seq<Option<nat>>)
    ensures |r| == |values|
  {
    seq(|values|, i requires 0 <= i < |values| => BinOf(edges, values[i]))
  }

  /** A value in bin `k` is above the edges up to `k` (the lowest edge
      aside) and at most every edge after it. */
  lemma InBinSplits(edges: seq<real>, k: nat, v: real)
    requires Increasing(edges) && InBin(edges, k, v)
    ensures forall i :: 1 <= i <= k ==> edges[i] < v
    ensures forall i :: k + 1 <= i < |edges| ==> v <= edges[i]
  {
    forall i | 1 <= i <= k
      ensures edges[i] < v
    {
      assert edges[i] <= edges[k];
    }
    forall i | k + 1 <= i < |edges|
      ensures v <= edges[i]
    {
      assert edges[k + 1] <= edges[i];
    }
  }

  /** With increasing edges, a value lies in at most one bin. */
  lemma InBinUnique(edges: seq<real>, k: nat, k': nat, v: real)
    requires Increasing(edges) && InBin(edges, k, v) && InBin(edges, k', v)
    ensures k == k'
  {
    InBinSplits(edges, k, v);
    InBinSplits(edges, k', v);
  }

  /** The bin found for a value is exactly the bin whose interval holds it. */
  lemma BinOfInBin(edges: seq<real>, v: real, k: nat)
    requires Increasing(edges)
    ensures BinOf(edges, v) == Some(k) <==> InBin(edges, k, v)
  {
    if 2 <= |edges| && edges[0] <= v <= edges[|edges| - 1] {
      var j := SearchFrom(edges, v, 1);
      assert InBin(edges, j - 1, v) by {
        if j - 1 > 0 {
          assert edges[j - 1] < v;
        }
      }
      if InBin(edges, k, v) {
        InBinUnique(edges, k, j - 1, v);
      }
    }
  }

  /** A value outside the edges falls in no bin. */
  lemma BinOfOutside(edges: seq<real>, v: real)
    requires Increasing(edges)
    ensures BinOf(edges, v) == None <==> (|edges| < 2 || v < edges[0] || edges[|edges| - 1] < v)
    ensures BinOf(edges, v).Some? ==> BinOf(edges, v).value + 1 < |edges|
  {
    if BinOf(edges, v).Some? {
      BinOfInBin(edges, v, BinOf(edges, v).value);
    }
  }

  /** Quantile edges put every row of the column in exactly one bin. */
  lemma EveryRowInOneBin(edges: seq<real>, values: seq<real>, i: nat)
    requires IsEdges(edges) && Spans(edges, values) && i < |values|
    ensures BinColumn(edges, values)[i].Some?
    ensures InBin(edges, BinColumn(edges, values)[i].value, values[i])
    ensures forall k: nat :: InBin(edges, k, values[i]) ==> k == BinColumn(edges, values)[i].value
  {
    var b := BinOf(edges, values[i]);
    assert BinColumn(edges, values)[i] == b;
    assert b.Some?;
    BinOfInBin(edges, values[i], b.value);
    forall k: nat | InBin(edges, k, values[i])
      ensures k == b.value
    {
      InBinUnique(edges, k, b.value, values[i]);
    }
  }

  // ---------------------------------------------------------------------
  // The group-by over bins.

  /** `bad_count`, `good_count` and `total_count` of one bin. */
  datatype BinCount = BinCount(bad: nat, good: nat, total: nat)

  /** A bin's counts after one more row with label `l`. */
  function Tally(c: BinCount, l: RiskLabel): BinCount
  {
    BinCount(
      c.bad + (if l == Bad then 1 else 0),
      c.good + (if l == Good then 1 else 0),
      c.total + 1)
  }

  /** The counts of `n` bins over rows with bins `bins` and labels `labels`.
      A bin no row falls in stays in the table with zero counts, as the
      categories of a categorical group-by do; rows in no bin are dropped. */
  function Histogram(bins: seq<Option<nat>>, labels: seq<RiskLabel>, n: nat): (h: seq<BinCount>)
    requires |bins| == |labels|
    ensures |h| == n
  {
    if |bins| == 0 then seq(n, _ => BinCount(0, 0, 0))
    else
      var h := Histogram(bins[..|bins| - 1], labels[..|bins| - 1], n);
      var b := bins[|bins| - 1];
      if b.Some? && b.value < n then h[b.value := Tally(h[b.value], labels[|bins| - 1])] else h
  }

  /** The labels of the rows that fall in one of the `n` bins. */
  function Kept(bins: seq<Option<nat>>, labels: seq<RiskLabel>, n: nat): seq<RiskLabel>
    requires |bins| == |labels|
  {
    if |bins| == 0 then []
    else
      var b := bins[|bins| - 1];
      Kept(bins[..|bins| - 1], labels[..|bins| - 1], n)
        + (if b.Some? && b.value < n then [labels[|bins| - 1]] else [])
  }

  function Bads(h: seq<BinCount>): (r: seq<nat>)
    ensures |r| == |h|
  {
    seq(|h|, k requires 0 <= k < |h| => h[k].bad)
  }

  function Goods(h: seq<BinCount>): (r: seq<nat>)
    ensures |r| == |h|
  {
    seq(|h|, k requires 0 <= k < |h| => h[k].good)
  }

  function Totals(h: seq<BinCount>): (r: seq<nat>)
    ensures |r| == |h|
  {
    seq(|h|, k requires 0 <= k < |h| => h[k].total)
  }

  /** Every row counted in a bin is counted as exactly one of Bad or Good. */
  lemma {:induction false} HistogramBalanced(bins: seq<Option<nat>>, labels: seq<RiskLabel>, n: nat, k: nat)
    requires |bins| == |labels| && k < n
    ensures Histogram(bins, labels, n)[k].bad + Histogram(bins, labels, n)[k].good
      == Histogram(bins, labels, n)[k].total
  {
    if |bins| > 0 {
      HistogramBalanced(bins[..|bins| - 1], labels[..|bins| - 1], n, k);
    }
  }

  /** The rows whose bin is `k`. */
  function RowsIn(bins: seq<Option<nat>>, k: nat): set<nat>
  {
    set i: nat | i < |bins| && bins[i] == Some(k)
  }

  /** The rows whose bin is `k` and whose label is `l`. */
  function RowsWith(bins: seq<Option<nat>>, labels: seq<RiskLabel>, k: nat, l: RiskLabel): set<nat>
    requires |bins| == |labels|
  {
    set i: nat | i < |bins| && bins[i] == Some(k) && labels[i] == l
  }

  /** The last row joins the rows of its bin, and of its bin and label. */
  lemma RowsSnoc(bins: seq<Option<nat>>, labels: seq<RiskLabel>, k: nat, l: RiskLabel)
    requires |bins| == |labels| > 0
    ensures var m := |bins| - 1;
      && RowsIn(bins, k) == RowsIn(bins[..m], k) + (if bins[m] == Some(k) then {m} else {})
      && m !in RowsIn(bins[..m], k)
    ensures var m := |bins| - 1;
      && RowsWith(bins, labels, k, l)
        == RowsWith(bins[..m], labels[..m], k, l) + (if bins[m] == Some(k) && labels[m] == l then {m} else {})
      && m !in RowsWith(bins[..m], labels[..m], k, l)
  {
  }

  /** What the last row does to bin `k`. */
  lemma HistogramStep(bins: seq<Option<nat>>, labels: seq<RiskLabel>, n: nat, k: nat)
    requires |bins| == |labels| > 0 && k < n
    ensures var m := |bins| - 1;
      Histogram(bins, labels, n)[k]
        == if bins[m] == Some(k) then Tally(Histogram(bins[..m], labels[..m], n)[k], labels[m])
           else Histogram(bins[..m], labels[..m], n)[k]
  {
  }

  /** Adding a new element to a finite set raises its size by one. */
  lemma CardSnoc(a: set<nat>, m: nat, grow: bool)
    requires m !in a
    ensures |a + (if grow then {m} else {})| == |a| + (if grow then 1 else 0)
  {
    if !grow {
      assert a + {} == a;
    }
  }

  /** Bin `k` counts exactly the rows whose bin is `k`: all of them in
      `total_count`, those labelled Bad in `bad_count` and those labelled
      Good in `good_count`. */
  lemma {:induction false} HistogramCounts(bins: seq<Option<nat>>, labels: seq<RiskLabel>, n: nat, k: nat)
    requires |bins| == |labels| && k < n
    ensures Histogram(bins, labels, n)[k] == BinCount(
      |RowsWith(bins, labels, k, Bad)|, |RowsWith(bins, labels, k, Good)|, |RowsIn(bins, k)|)
  {
    if |bins| == 0 {
      assert RowsIn(bins, k) == {};
      assert RowsWith(bins, labels, k, Bad) == {};
      assert RowsWith(bins, labels, k, Good) == {};
    } else {
      var m := |bins| - 1;
      var pb, pl := bins[..m], labels[..m];
      HistogramCounts(pb, pl, n, k);
      HistogramStep(bins, labels, n, k);
      var here := bins[m] == Some(k);
      RowsSnoc(bins, labels, k, Bad);
      RowsSnoc(bins, labels, k, Good);
      CardSnoc(RowsIn(pb, k), m, here);
      CardSnoc(RowsWith(pb, pl, k, Bad), m, here && labels[m] == Bad);
      CardSnoc(RowsWith(pb, pl, k, Good), m, here && labels[m] == Good);
    }
  }

  lemma {:induction false} SumNatZeros(n: nat)
    ensures SumNat(seq(n, _ => 0)) == 0
  {
    if n > 0 {
      assert seq(n, _ => 0)[..n - 1] == seq(n - 1, _ => 0);
      SumNatZeros(n - 1);
    }
  }

  lemma CountSnoc(s: seq<RiskLabel>, x: RiskLabel, l: RiskLabel)
    ensures Count(s + [x], l) == Count(s, l) + (if x == l then 1 else 0)
  {
    assert (s + [x])[..|s|] == s;
  }

  /** The bins' totals add up to the number of binned rows, and their Bad and
      Good counts to the binned rows of each label. */
  lemma {:induction false} HistogramSums(bins: seq<Option<nat>>, labels: seq<RiskLabel>, n: nat)
    requires |bins| == |labels|
    ensures SumNat(Totals(Histogram(bins, labels, n))) == |Kept(bins, labels, n)|
    ensures SumNat(Bads(Histogram(bins, labels, n))) == Count(Kept(bins, labels, n), Bad)
    ensures SumNat(Goods(Histogram(bins, labels, n))) == Count(Kept(bins, labels, n), Good)
  {
    var h := Histogram(bins, labels, n);
    if |bins| == 0 {
      assert Totals(h) == seq(n, _ => 0);
      assert Bads(h) == seq(n, _ => 0);
      assert Goods(h) == seq(n, _ => 0);
      SumNatZeros(n);
    } else {
      var m := |bins| - 1;
      var pb, pl := bins[..m], labels[..m];
      var h' := Histogram(pb, pl, n);
      var kept' := Kept(pb, pl, n);
      HistogramSums(pb, pl, n);
      var b, l := bins[m], labels[m];
      if b.Some? && b.value < n {
        var k := b.value;
        var t := Tally(h'[k], l);
        assert h == h'[k := t];
        assert Totals(h) == Totals(h')[k := t.total];
        assert Bads(h) == Bads(h')[k := t.bad];
        assert Goods(h) == Goods(h')[k := t.good];
        SumNatUpdate(Totals(h'), k, t.total);
        SumNatUpdate(Bads(h'), k, t.bad);
        SumNatUpdate(Goods(h'), k, t.good);
        assert Kept(bins, labels, n) == kept' + [l];
        CountSnoc(kept', l, Bad);
        CountSnoc(kept', l, Good);
      } else {
        assert Kept(bins, labels, n) == kept' + [];
        assert kept' + [] == kept';
      }
    }
  }

  /** When every row falls in a bin, no label is dropped. */
  lemma {:induction false} KeptAll(bins: seq<Option<nat>>, labels: seq<RiskLabel>, n: nat)
    requires |bins| == |labels|
    requires forall i :: 0 <= i < |bins| ==> bins[i].Some? && bins[i].value < n
    ensures Kept(bins, labels, n) == labels
  {
    if |bins| > 0 {
      var m := |bins| - 1;
      KeptAll(bins[..m], labels[..m], n);
      assert labels[..m] + [labels[m]] == labels;
    }
  }

  /** With quantile edges there are at most ten bins, every row is counted
      once, and the Bad and Good counts add up to the labels of the rows. */
  lemma QuantileBinsCountEveryRow(edges: seq<real>, values: seq<real>, labels: seq<RiskLabel>)
    requires IsEdges(edges) && Spans(edges, values) && |labels| == |values|
    ensures |Histogram(BinColumn(edges, values), labels, |edges| - 1)| <= Quantiles
    ensures SumNat(Totals(Histogram(BinColumn(edges, values), labels, |edges| - 1))) == |values|
    ensures SumNat(Bads(Histogram(BinColumn(edges, values), labels, |edges| - 1))) == Count(labels, Bad)
    ensures SumNat(Goods(Histogram(BinColumn(edges, values), labels, |edges| - 1))) == Count(labels, Good)
  {
    var bins := BinColumn(edges, values);
    forall i | 0 <= i < |bins|
      ensures bins[i].Some? && bins[i].value < |edges| - 1
    {
      EveryRowInOneBin(edges, values, i);
    }
    KeptAll(bins, labels, |edges| - 1);
    HistogramSums(bins, labels, |edges| - 1);
  }

  // ---------------------------------------------------------------------
  // Rates, WoE and IV.

  lemma {:induction false} ElementAtMostSum(s: seq<nat>, k: nat)
    requires k < |s|
    ensures s[k] <= SumNat(s)
  {
    if k < |s| - 1 {
      ElementAtMostSum(s[..|s| - 1], k);
    }
  }

  /** Each count's share of the column total: `bad_rate` or `good_rate`. */
  function Rates(s: seq<nat>): (r: seq<real>)
    requires SumNat(s) > 0
    ensures |r| == |s|
  {
    Shares(s, SumNat(s) as real)
  }

  /** The shares of a column's total lie in [0, 1] and add up to 1; a count
      is positive exactly when its share is. */
  lemma RatesAreDistribution(s: seq<nat>)
    requires SumNat(s) > 0
    ensures Sum(Rates(s)) == 1.0
    ensures forall k :: 0 <= k < |s| ==> 0.0 <= Rates(s)[k] <= 1.0
    ensures forall k :: 0 <= k < |s| ==> (0.0 < Rates(s)[k] <==> 0 < s[k])
  {
    var d := SumNat(s) as real;
    SumShares(s, SumNat(s) as real);
    QuotientEndpoints(d, d);
    forall k | 0 <= k < |s|
      ensures 0.0 <= Rates(s)[k] <= 1.0 && (0.0 < Rates(s)[k] <==> 0 < s[k])
    {
      ElementAtMostSum(s, k);
      assert Rates(s)[k] == s[k] as real / d;
      QuotientBounds(s[k] as real, d);
      QuotientEndpoints(s[k] as real, d);
    }
  }

  /** `ln(good_rate / bad_rate)`. */
  function Woe(goodRate: real, badRate: real, ln: real -> real): real
    requires badRate != 0.0
  {
    ln(goodRate / badRate)
  }

  /** `(good_rate - bad_rate) * WoE`. */
  function Iv(goodRate: real, badRate: real, woe: real): real
  {
    (goodRate - badRate) * woe
  }

  /** The WoE of a bin is positive, zero or negative as its share of the Good
      rows is above, equal to or below its share of the Bad ones. */
  lemma WoeSign(goodRate: real, badRate: real, ln: real -> real)
    requires IsLogLike(ln) && 0.0 < goodRate && 0.0 < badRate
    ensures Woe(goodRate, badRate, ln) > 0.0 <==> goodRate > badRate
    ensures Woe(goodRate, badRate, ln) == 0.0 <==> goodRate == badRate
    ensures Woe(goodRate, badRate, ln) < 0.0 <==> goodRate < badRate
  {
    QuotientEndpoints(badRate, badRate);
    QuotientMonotone(goodRate, badRate, badRate);
    QuotientMonotone(badRate, goodRate, badRate);
    QuotientBounds(0.0, badRate);
    QuotientMonotone(0.0, goodRate, badRate);
  }

  /** The IV of a bin with rows of both classes is never negative. */
  lemma IvNonNegative(goodRate: real, badRate: real, ln: real -> real)
    requires IsLogLike(ln) && 0.0 < goodRate && 0.0 < badRate
    ensures 0.0 <= Iv(goodRate, badRate, Woe(goodRate, badRate, ln))
  {
    WoeSign(goodRate, badRate, ln);
  }

  /** Every bin holds rows of both classes, so no rate is zero and
      every WoE is finite. */
  ghost predicate BothClasses(h: seq<BinCount>)
  {
    && |h| > 0
    && forall k :: 0 <= k < |h| ==> h[k].bad > 0 && h[k].good > 0
  }

  /** Under `BothClasses` both rate columns are defined and positive. */
  lemma RatesPositive(h: seq<BinCount>)
    requires BothClasses(h)
    ensures SumNat(Bads(h)) > 0 && SumNat(Goods(h)) > 0
    ensures forall k :: 0 <= k < |h| ==> Rates(Bads(h))[k] > 0.0 && Rates(Goods(h))[k] > 0.0
  {
    ElementAtMostSum(Bads(h), 0);
    ElementAtMostSum(Goods(h), 0);
    RatesAreDistribution(Bads(h));
    RatesAreDistribution(Goods(h));
  }

  /** The WoE column. */
  function WoeColumn(h: seq<BinCount>, ln: real -> real): (r: seq<real>)
    requires BothClasses(h)
    ensures |r| == |h|
  {
    RatesPositive(h);
    var g, b := Rates(Goods(h)), Rates(Bads(h));
    seq(|h|, k requires 0 <= k < |h| => Woe(g[k], b[k], ln))
  }

  /** The IV column. */
  function IvColumn(h: seq<BinCount>, ln: real -> real): (r: seq<real>)
    requires BothClasses(h)
    ensures |r| == |h|
  {
    RatesPositive(h);
    var g, b := Rates(Goods(h)), Rates(Bads(h));
    seq(|h|, k requires 0 <= k < |h| => Iv(g[k], b[k], Woe(g[k], b[k], ln)))
  }

  /** `bin_stats['IV'].sum()`: with a log function, never negative. */
  function TotalIv(h: seq<BinCount>, ln: real -> real): (t: real)
    requires BothClasses(h)
    ensures IsLogLike(ln) ==> 0.0 <= t
  {
    IvColumnNonNegative(h, ln);
    Sum(IvColumn(h, ln))
  }

  /** A bin's WoE has the sign of its Good share minus its Bad share. */
  lemma WoeColumnSign(h: seq<BinCount>, ln: real -> real, k: nat)
    requires IsLogLike(ln) && BothClasses(h) && k < |h|
    ensures WoeColumn(h, ln)[k] > 0.0 <==> Rates(Goods(h))[k] > Rates(Bads(h))[k]
    ensures WoeColumn(h, ln)[k] == 0.0 <==> Rates(Goods(h))[k] == Rates(Bads(h))[k]
    ensures WoeColumn(h, ln)[k] < 0.0 <==> Rates(Goods(h))[k] < Rates(Bads(h))[k]
  {
    RatesPositive(h);
    WoeSign(Rates(Goods(h))[k], Rates(Bads(h))[k], ln);
  }

  /** With a log function every bin's IV, and so the column's sum, is
      non-negative. */
  lemma IvColumnNonNegative(h: seq<BinCount>, ln: real -> real)
    requires BothClasses(h)
    ensures IsLogLike(ln) ==> forall k :: 0 <= k < |h| ==> 0.0 <= IvColumn(h, ln)[k]
    ensures IsLogLike(ln) ==> 0.0 <= Sum(IvColumn(h, ln))
  {
    if IsLogLike(ln) {
      RatesPositive(h);
      forall k | 0 <= k < |h|
        ensures 0.0 <= IvColumn(h, ln)[k]
      {
        IvNonNegative(Rates(Goods(h))[k], Rates(Bads(h))[k], ln);
      }
      SumNonNegative(IvColumn(h, ln));
    }
  }

  /** One row of the returned table: the bin's interval, its counts, its WoE
      and its IV. */
  datatype WoeRow = WoeRow(lower: real, upper: real, badCount: nat, goodCount: nat, woe: real, iv: real)

  /** The IV column of a result table. */
  function IvsOf(rows: seq<WoeRow>): (v: seq<real>)
    ensures |v| == |rows|
    ensures forall k :: 0 <= k < |rows| ==> v[k] == rows[k].iv
  {
    seq(|rows|, k requires 0 <= k < |rows| => rows[k].iv)
  }

  /** `bin_stats[['bin', 'bad_count', 'good_count', 'WoE', 'IV']]`: row k is
      bin k's interval, counts and WoE, its IV is computed from that WoE and
      the bin's two rates, and the rows' IVs add up to the total IV. */
  function WoeTable(edges: seq<real>, h: seq<BinCount>, ln: real -> real): (r: seq<WoeRow>)
    requires BothClasses(h) && |edges| == |h| + 1
    ensures |r| == |h|
    ensures forall k :: 0 <= k < |r| ==>
      && r[k].lower == edges[k] && r[k].upper == edges[k + 1]
      && r[k].badCount == h[k].bad && r[k].goodCount == h[k].good
    ensures forall k :: 0 <= k < |r| ==>
      && r[k].woe == WoeColumn(h, ln)[k]
      && r[k].iv == Iv(Rates(Goods(h))[k], Rates(Bads(h))[k], r[k].woe)
    ensures Sum(IvsOf(r)) == TotalIv(h, ln)
  {
    var w, v := WoeColumn(h, ln), IvColumn(h, ln);
    var r := seq(|h|, k requires 0 <= k < |h| => WoeRow(edges[k], edges[k + 1], h[k].bad, h[k].good, w[k], v[k]));
    assert IvsOf(r) == v;
    r
  }

  /** With a log function every row of the result table has a non-negative
      IV and a WoE whose sign is that of its Good rate minus its Bad rate. */
  lemma WoeTableMeasures(edges: seq<real>, h: seq<BinCount>, ln: real -> real)
    requires IsLogLike(ln) && BothClasses(h) && |edges| == |h| + 1
    ensures forall k :: 0 <= k < |h| ==>
      var row, g, b := WoeTable(edges, h, ln)[k], Rates(Goods(h))[k], Rates(Bads(h))[k];
      && 0.0 <= row.iv
      && row.iv == Iv(g, b, row.woe)
      && (row.woe > 0.0 <==> g > b)
      && (row.woe == 0.0 <==> g == b)
      && (row.woe < 0.0 <==> g < b)
    ensures 0.0 <= Sum(IvsOf(WoeTable(edges, h, ln)))
  {
    var r := WoeTable(edges, h, ln);
    IvColumnNonNegative(h, ln);
    forall k | 0 <= k < |h|
      ensures
        var row, g, b := r[k], Rates(Goods(h))[k], Rates(Bads(h))[k];
        && (row.woe > 0.0 <==> g > b)
        && (row.woe == 0.0 <==> g == b)
        && (row.woe < 0.0 <==> g < b)
    {
      WoeColumnSign(h, ln, k);
    }
  }

  /** `woe_binning(df, feature, 'Risk_Label')`: the bin column is written into
      the caller's table from the feature column; the bin table and the total
      IV are returned. Each returned row counts the Bad and Good rows of its
      bin, has a non-negative IV and a WoE with the sign of its Good rate minus
      its Bad rate; the bins together count every row of the table once, and
      the total IV is the sum of the rows' IVs. */
  method WoeBinning(df: RfmsFrame, feature: Component, edges: seq<real>, ln: real -> real)
    returns (stats: seq<WoeRow>, iv: real)
    requires df.Valid() && |df.riskLabel| == df.Size()
    requires IsEdges(edges) && Spans(edges, df.Column(feature))
    requires BothClasses(Histogram(BinColumn(edges, df.Column(feature)), df.riskLabel, |edges| - 1))
    requires IsLogLike(ln)
    modifies df`bin
    ensures df.bin == BinColumn(edges, df.Column(feature))
    ensures stats == WoeTable(edges, Histogram(df.bin, df.riskLabel, |edges| - 1), ln)
    ensures iv == TotalIv(Histogram(df.bin, df.riskLabel, |edges| - 1), ln)
    ensures 0 < |stats| <= Quantiles && 0.0 <= iv
    ensures forall k :: 0 <= k < |stats| ==>
      && stats[k].lower == edges[k] && stats[k].upper == edges[k + 1]
      && stats[k].badCount == |RowsWith(df.bin, df.riskLabel, k, Bad)|
      && stats[k].goodCount == |RowsWith(df.bin, df.riskLabel, k, Good)|
    ensures SumNat(Totals(Histogram(df.bin, df.riskLabel, |edges| - 1))) == df.Size()
    ensures SumNat(Bads(Histogram(df.bin, df.riskLabel, |edges| - 1))) == Count(df.riskLabel, Bad)
    ensures SumNat(Goods(Histogram(df.bin, df.riskLabel, |edges| - 1))) == Count(df.riskLabel, Good)
    ensures iv == Sum(IvsOf(stats))
    ensures var h := Histogram(df.bin, df.riskLabel, |edges| - 1);
      forall k :: 0 <= k < |stats| ==>
        var g, b := Rates(Goods(h))[k], Rates(Bads(h))[k];
        && 0.0 <= stats[k].iv
        && stats[k].iv == Iv(g, b, stats[k].woe)
        && (stats[k].woe > 0.0 <==> g > b)
        && (stats[k].woe == 0.0 <==> g == b)
        && (stats[k].woe < 0.0 <==> g < b)
    ensures df.Valid()
  {
    df.bin := BinColumn(edges, df.Column(feature));
    var h := Histogram(df.bin, df.riskLabel, |edges| - 1);
    stats := WoeTable(edges, h, ln);
    iv := TotalIv(h, ln);
    IvColumnNonNegative(h, ln);
    WoeTableMeasures(edges, h, ln);
    QuantileBinsCountEveryRow(edges, df.Column(feature), df.riskLabel);
    forall k | 0 <= k < |stats|
      ensures stats[k].badCount == |RowsWith(df.bin, df.riskLabel, k, Bad)|
      ensures stats[k].goodCount == |RowsWith(df.bin, df.riskLabel, k, Good)|
    {
      HistogramCounts(df.bin, df.riskLabel, |edges| - 1, k);
    }
  }
}
