/** The RFMS aggregation of `calculate_rfms_components`: a Recency per
    transaction, and per customer the count, the sum and the sample standard
    deviation of the amounts, joined onto the distinct (customer, Recency)
    pairs of the transaction table. */
module Aggregation {
  import opened Numeric
  import opened Frames

  /** The latest TransactionStartTime of the whole table. */
  function MaxTime(txs: seq<Transaction>): (m: int)
    requires |txs| > 0
    ensures forall i :: 0 <= i < |txs| ==> txs[i].time <= m
    ensures exists i :: 0 <= i < |txs| && txs[i].time == m
  {
    if |txs| == 1 then txs[0].time
    else
      var m' := MaxTime(txs[..|txs| - 1]);
      if txs[|txs| - 1].time > m' then txs[|txs| - 1].time else m'
  }

  /** The Recency column: whole days from the latest transaction back to
      each transaction's own time. */
  function RecencyColumn(txs: seq<Transaction>): (r: seq<int>)
    ensures |r| == |txs|
  {
    if |txs| == 0 then []
    else
      var latest := MaxTime(txs);
      seq(|txs|, i requires 0 <= i < |txs| => (latest - txs[i].time) / SecondsPerDay)
  }

  /** The amounts of customer `c`, in table order (one groupby group). */
  function AmountsOf(txs: seq<Transaction>, c: CustomerId): seq<real>
  {
    if |txs| == 0 then []
    else
      var last := txs[|txs| - 1];
      AmountsOf(txs[..|txs| - 1], c) + (if last.customer == c then [last.amount] else [])
  }

  /** groupby size. */
  function FrequencyOf(txs: seq<Transaction>, c: CustomerId): nat
  {
    |AmountsOf(txs, c)|
  }

  /** groupby Amount sum. */
  function MonetaryOf(txs: seq<Transaction>, c: CustomerId): real
  {
    Sum(AmountsOf(txs, c))
  }

  function Mean(a: seq<real>): real
    requires |a| > 0
  {
    Sum(a) / |a| as real
  }

  function SquaredDeviations(a: seq<real>, m: real): (r: seq<real>)
    ensures |r| == |a|
  {
    seq(|a|, i requires 0 <= i < |a| => (a[i] - m) * (a[i] - m))
  }

  /** Sample variance, with n - 1 in the denominator (pandas' ddof = 1). */
  function SampleVariance(a: seq<real>): real
    requires |a| >= 2
  {
    Sum(SquaredDeviations(a, Mean(a))) / (|a| - 1) as real
  }

  /** pandas `std()` followed by `fillna(0)`: the deviation of fewer than two
      amounts is missing and becomes 0. */
  function SampleStd(a: seq<real>, sqrt: real -> real): real
  {
    if |a| < 2 then 0.0 else sqrt(SampleVariance(a))
  }

  /** groupby Amount `std()` with `fillna(0)`: a customer with fewer than
      two transactions has Stability 0. */
  function StabilityOf(txs: seq<Transaction>, c: CustomerId, sqrt: real -> real): (s: real)
    ensures FrequencyOf(txs, c) <= 1 ==> s == 0.0
  {
    SampleStd(AmountsOf(txs, c), sqrt)
  }

  /** A (CustomerId, Recency) pair. */
  type Key = (CustomerId, int)

  /** The (CustomerId, Recency) pair of every transaction. */
  function Keys(txs: seq<Transaction>): (k: seq<Key>)
    ensures |k| == |txs|
  {
    var rec := RecencyColumn(txs);
    seq(|txs|, i requires 0 <= i < |txs| => (txs[i].customer, rec[i]))
  }

  /** `drop_duplicates()`: the first occurrence of each element, in order. */
  function Distinct(s: seq<Key>): (d: seq<Key>)
    ensures forall x :: x in d <==> x in s
    ensures forall i, j :: 0 <= i < j < |d| ==> d[i] != d[j]
  {
    if |s| == 0 then []
    else
      var d := Distinct(s[..|s| - 1]);
      assert forall x :: x in s[..|s| - 1] ==> x in s;
      assert forall x :: x in s ==> x in s[..|s| - 1] || x == s[|s| - 1];
      if s[|s| - 1] in d then d else d + [s[|s| - 1]]
  }

  function RowFor(txs: seq<Transaction>, key: Key, sqrt: real -> real): RfmsRow
  {
    RfmsRow(key.0, key.1, FrequencyOf(txs, key.0), MonetaryOf(txs, key.0), StabilityOf(txs, key.0, sqrt))
  }

  /** The merged RFMS table: one row per distinct (CustomerId, Recency)
      pair, carrying that customer's Frequency, Monetary and Stability. */
  function Aggregate(txs: seq<Transaction>, sqrt: real -> real): (r: seq<RfmsRow>)
    ensures |r| == |Distinct(Keys(txs))|
  {
    var keys := Distinct(Keys(txs));
    seq(|keys|, j requires 0 <= j < |keys| => RowFor(txs, keys[j], sqrt))
  }

  function RowKey(r: RfmsRow): Key
  {
    (r.customer, r.recency)
  }

  /** The CustomerIds of a transaction table. */
  function Customers(txs: seq<Transaction>): set<CustomerId>
  {
    set i | 0 <= i < |txs| :: txs[i].customer
  }

  /** The CustomerIds of an RFMS table. */
  function RowCustomers(rows: seq<RfmsRow>): set<CustomerId>
  {
    set j | 0 <= j < |rows| :: rows[j].customer
  }

  /** The transactions of customer `c`, by position. */
  function IndicesOf(txs: seq<Transaction>, c: CustomerId): set<nat>
  {
    set i: nat | i < |txs| && txs[i].customer == c
  }

  /** `calculate_rfms_components`: writes the Recency column into the caller's
      transaction table, then returns the merged RFMS table. */
  method CalculateRfmsComponents(df: TransactionFrame, sqrt: real -> real) returns (rfms: RfmsFrame)
    modifies df
    ensures df.recency == RecencyColumn(df.transactions)
    ensures fresh(rfms) && rfms.Holds(Aggregate(df.transactions, sqrt))
    ensures rfms.score == [] && rfms.riskLabel == [] && rfms.bin == []
  {
    df.recency := RecencyColumn(df.transactions);
    rfms := new RfmsFrame.FromRows(Aggregate(df.transactions, sqrt));
  }

  // ---------------------------------------------------------------------
  // Recency

  /** Recency is the whole number of days between the latest transaction
      and this one: never negative, and the remainder is under a day. */
  lemma RecencyWholeDays(txs: seq<Transaction>, i: nat)
    requires i < |txs|
    ensures 0 <= RecencyColumn(txs)[i]
    ensures RecencyColumn(txs)[i] * SecondsPerDay <= MaxTime(txs) - txs[i].time
    ensures MaxTime(txs) - txs[i].time < (RecencyColumn(txs)[i] + 1) * SecondsPerDay
  {
    var gap := MaxTime(txs) - txs[i].time;
    assert RecencyColumn(txs)[i] == gap / SecondsPerDay;
  }

  /** The latest transaction has Recency 0, and Recency is 0 exactly for the
      transactions less than a day older than it. */
  lemma RecencyAnchored(txs: seq<Transaction>)
    requires |txs| > 0
    ensures exists i :: 0 <= i < |txs| && txs[i].time == MaxTime(txs) && RecencyColumn(txs)[i] == 0
    ensures forall i :: 0 <= i < |txs| ==>
      (RecencyColumn(txs)[i] == 0 <==> MaxTime(txs) - txs[i].time < SecondsPerDay)
  {
    var i :| 0 <= i < |txs| && txs[i].time == MaxTime(txs);
    assert RecencyColumn(txs)[i] == 0;
    forall j | 0 <= j < |txs|
      ensures RecencyColumn(txs)[j] == 0 <==> MaxTime(txs) - txs[j].time < SecondsPerDay
    {
      RecencyWholeDays(txs, j);
    }
  }

  // ---------------------------------------------------------------------
  // Frequency, Monetary and Stability

  /** Grouping by customer does not depend on how the table is split:
      the amounts of `a + b` are those of `a` followed by those of `b`. */
  lemma {:induction false} AmountsOfAppend(a: seq<Transaction>, b: seq<Transaction>, c: CustomerId)
    ensures AmountsOf(a + b, c) == AmountsOf(a, c) + AmountsOf(b, c)
  {
    if |b| == 0 {
      assert a + b == a;
    } else {
      assert (a + b)[..|a + b| - 1] == a + b[..|b| - 1];
      AmountsOfAppend(a, b[..|b| - 1], c);
    }
  }

  /** Frequency and Monetary add up over the parts of a split table. */
  lemma GroupTotalsAdditive(a: seq<Transaction>, b: seq<Transaction>, c: CustomerId)
    ensures FrequencyOf(a + b, c) == FrequencyOf(a, c) + FrequencyOf(b, c)
    ensures MonetaryOf(a + b, c) == MonetaryOf(a, c) + MonetaryOf(b, c)
  {
    AmountsOfAppend(a, b, c);
    SumAppend(AmountsOf(a, c), AmountsOf(b, c));
  }

  /** Frequency is the number of the customer's transactions. */
  lemma {:induction false} FrequencyCountsTransactions(txs: seq<Transaction>, c: CustomerId)
    ensures FrequencyOf(txs, c) == |IndicesOf(txs, c)|
  {
    if |txs| > 0 {
      var n := |txs| - 1;
      FrequencyCountsTransactions(txs[..n], c);
      if txs[n].customer == c {
        assert IndicesOf(txs, c) == IndicesOf(txs[..n], c) + {n};
      } else {
        assert IndicesOf(txs, c) == IndicesOf(txs[..n], c);
      }
    }
  }

  /** A customer's amounts are exactly those of the transactions bearing
      that customer's id. */
  lemma {:induction false} AmountsOfMembers(txs: seq<Transaction>, c: CustomerId)
    ensures forall x :: x in AmountsOf(txs, c) <==> exists i :: 0 <= i < |txs| && txs[i].customer == c && txs[i].amount == x
  {
    if |txs| > 0 {
      var n := |txs| - 1;
      AmountsOfMembers(txs[..n], c);
      assert forall i :: 0 <= i < n ==> txs[..n][i] == txs[i];
    }
  }

  /** Every transaction's amount where it belongs to customer `c`, 0 elsewhere. */
  function CustomerAmounts(txs: seq<Transaction>, c: CustomerId): (r: seq<real>)
    ensures |r| == |txs|
  {
    seq(|txs|, i requires 0 <= i < |txs| => if txs[i].customer == c then txs[i].amount else 0.0)
  }

  /** Monetary adds every transaction amount of the customer once, repeated
      amounts included, and nothing else. */
  lemma {:induction false} MonetarySumsCustomerAmounts(txs: seq<Transaction>, c: CustomerId)
    ensures MonetaryOf(txs, c) == Sum(CustomerAmounts(txs, c))
  {
    if |txs| > 0 {
      var n := |txs| - 1;
      var last := txs[n];
      MonetarySumsCustomerAmounts(txs[..n], c);
      assert CustomerAmounts(txs, c)[..n] == CustomerAmounts(txs[..n], c);
      var tail := if last.customer == c then [last.amount] else [];
      SumAppend(AmountsOf(txs[..n], c), tail);
      assert Sum(tail) == (if last.customer == c then last.amount else 0.0) by {
        if last.customer == c {
          assert tail[..0] == [];
        }
      }
    }
  }

  lemma {:induction false} SquaresNonNegative(a: seq<real>, m: real)
    ensures 0.0 <= Sum(SquaredDeviations(a, m))
  {
    var d := SquaredDeviations(a, m);
    forall i | 0 <= i < |d| ensures 0.0 <= d[i] {
      var x := a[i] - m;
      assert d[i] == x * x;
      if x < 0.0 { assert (-x) * (-x) == x * x; }
    }
    SumNonNegative(d);
  }

  /** Stability is never negative, is exactly 0 for a customer with a single
      transaction, and otherwise squares to the sample variance. */
  lemma StabilityFacts(txs: seq<Transaction>, c: CustomerId, sqrt: real -> real)
    requires IsSqrt(sqrt)
    ensures 0.0 <= StabilityOf(txs, c, sqrt)
    ensures FrequencyOf(txs, c) <= 1 ==> StabilityOf(txs, c, sqrt) == 0.0
    ensures FrequencyOf(txs, c) >= 2 ==>
      StabilityOf(txs, c, sqrt) * StabilityOf(txs, c, sqrt) == SampleVariance(AmountsOf(txs, c))
  {
    var a := AmountsOf(txs, c);
    if |a| >= 2 {
      SquaresNonNegative(a, Mean(a));
      assert 0.0 <= SampleVariance(a);
    }
  }

  // ---------------------------------------------------------------------
  // The merged table

  lemma AggregateKeys(txs: seq<Transaction>, sqrt: real -> real, j: nat)
    requires j < |Aggregate(txs, sqrt)|
    ensures RowKey(Aggregate(txs, sqrt)[j]) == Distinct(Keys(txs))[j]
    ensures Aggregate(txs, sqrt)[j] == RowFor(txs, Distinct(Keys(txs))[j], sqrt)
  {
  }

  /** The rows of the merged table are exactly the distinct
      (CustomerId, Recency) pairs of the transactions, each once. */
  lemma AggregateRowsArePairs(txs: seq<Transaction>, sqrt: real -> real)
    ensures forall j :: 0 <= j < |Aggregate(txs, sqrt)| ==> RowKey(Aggregate(txs, sqrt)[j]) in Keys(txs)
    ensures forall i :: 0 <= i < |txs| ==>
      exists j :: 0 <= j < |Aggregate(txs, sqrt)| && RowKey(Aggregate(txs, sqrt)[j]) == Keys(txs)[i]
    ensures forall j1, j2 :: 0 <= j1 < j2 < |Aggregate(txs, sqrt)| ==>
      RowKey(Aggregate(txs, sqrt)[j1]) != RowKey(Aggregate(txs, sqrt)[j2])
  {
    var rows, keys := Aggregate(txs, sqrt), Distinct(Keys(txs));
    forall j | 0 <= j < |rows| ensures RowKey(rows[j]) == keys[j] {
      AggregateKeys(txs, sqrt, j);
    }
    forall i | 0 <= i < |txs|
      ensures exists j :: 0 <= j < |rows| && RowKey(rows[j]) == Keys(txs)[i]
    {
      assert Keys(txs)[i] in keys;
      var j :| 0 <= j < |keys| && keys[j] == Keys(txs)[i];
      assert RowKey(rows[j]) == keys[j];
    }
  }

  /** No customer is lost or invented by the aggregation. */
  lemma AggregateCoversCustomers(txs: seq<Transaction>, sqrt: real -> real)
    ensures RowCustomers(Aggregate(txs, sqrt)) == Customers(txs)
  {
    var rows := Aggregate(txs, sqrt);
    AggregateRowsArePairs(txs, sqrt);
    forall c | c in RowCustomers(rows) ensures c in Customers(txs) {
      var j :| 0 <= j < |rows| && rows[j].customer == c;
      var i :| 0 <= i < |txs| && Keys(txs)[i] == RowKey(rows[j]);
      assert txs[i].customer == Keys(txs)[i].0;
    }
    forall c | c in Customers(txs) ensures c in RowCustomers(rows) {
      var i :| 0 <= i < |txs| && txs[i].customer == c;
      var j :| 0 <= j < |rows| && RowKey(rows[j]) == Keys(txs)[i];
      assert rows[j].customer == RowKey(rows[j]).0;
    }
  }

  /** Every row of the merged table satisfies the RFMS record invariants:
      its Frequency counts the customer's transactions (at least one), its
      Monetary sums their amounts, its Recency is a non-negative Recency of
      one of them, and its Stability is the customer's `StabilityOf`, so it is
      non-negative and 0 for a single transaction. */
  lemma AggregateRowFacts(txs: seq<Transaction>, sqrt: real -> real, j: nat)
    requires IsSqrt(sqrt)
    requires j < |Aggregate(txs, sqrt)|
    ensures var r := Aggregate(txs, sqrt)[j];
      && r.frequency == |IndicesOf(txs, r.customer)| >= 1
      && r.monetary == Sum(AmountsOf(txs, r.customer))
      && (exists i :: 0 <= i < |txs| && txs[i].customer == r.customer && RecencyColumn(txs)[i] == r.recency)
      && 0 <= r.recency
      && r.stability == StabilityOf(txs, r.customer, sqrt)
      && 0.0 <= r.stability
      && (r.frequency == 1 ==> r.stability == 0.0)
  {
    var rows := Aggregate(txs, sqrt);
    var r := rows[j];
    AggregateRowsArePairs(txs, sqrt);
    var i :| 0 <= i < |txs| && Keys(txs)[i] == RowKey(r);
    AggregateKeys(txs, sqrt, j);
    FrequencyCountsTransactions(txs, r.customer);
    assert i in IndicesOf(txs, r.customer);
    RecencyWholeDays(txs, i);
    StabilityFacts(txs, r.customer, sqrt);
  }

  /** `r` has Recency 0 and belongs to the customer of the latest transaction. */
  ghost predicate HoldsLatest(txs: seq<Transaction>, r: RfmsRow)
    requires |txs| > 0
  {
    && r.recency == 0
    && exists i :: 0 <= i < |txs| && txs[i].customer == r.customer && txs[i].time == MaxTime(txs)
  }

  /** When there are transactions, some row carries Recency 0: that of the
      customer holding the latest transaction. */
  lemma AggregateHasZeroRecency(txs: seq<Transaction>, sqrt: real -> real)
    requires |txs| > 0
    ensures exists j :: 0 <= j < |Aggregate(txs, sqrt)| && HoldsLatest(txs, Aggregate(txs, sqrt)[j])
  {
    RecencyAnchored(txs);
    var i :| 0 <= i < |txs| && txs[i].time == MaxTime(txs) && RecencyColumn(txs)[i] == 0;
    AggregateRowsArePairs(txs, sqrt);
    var j :| 0 <= j < |Aggregate(txs, sqrt)| && RowKey(Aggregate(txs, sqrt)[j]) == Keys(txs)[i];
  }

  // ---------------------------------------------------------------------
  // A worked example: customer 1 buys for 100 on day 1 and for 300 on
  // day 2, customer 2 for 200 on day 5.

  const ScenarioTransactions: seq<Transaction> := [
    Transaction(1, 1 * SecondsPerDay, 100.0),
    Transaction(1, 2 * SecondsPerDay, 300.0),
    Transaction(2, 5 * SecondsPerDay, 200.0)
  ]

  /** The distinct (customer, Recency) pairs of the example, in order. */
  lemma ScenarioKeys()
    ensures Distinct(Keys(ScenarioTransactions)) == [(1, 4), (1, 3), (2, 0)]
  {
    var txs := ScenarioTransactions;
    assert MaxTime(txs[..1]) == SecondsPerDay;
    assert MaxTime(txs[..2]) == 2 * SecondsPerDay;
    assert MaxTime(txs) == 5 * SecondsPerDay;
    assert RecencyColumn(txs) == [4, 3, 0];
    var k := Keys(txs);
    assert k == [(1, 4), (1, 3), (2, 0)];
    assert k[..1] == [(1, 4)] && k[..2] == [(1, 4), (1, 3)];
    assert Distinct(k[..1][..0]) == [];
    assert Distinct(k[..1]) == [(1, 4)];
    assert k[..2][..1] == k[..1];
    assert Distinct(k[..2]) == [(1, 4), (1, 3)];
    assert k[..2] == k[..|k| - 1];
  }

  lemma ScenarioGroups()
    ensures AmountsOf(ScenarioTransactions, 1) == [100.0, 300.0]
    ensures AmountsOf(ScenarioTransactions, 2) == [200.0]
  {
    var txs := ScenarioTransactions;
    assert txs[..2][..1] == txs[..1] && txs[..1][..0] == [];
    assert AmountsOf(txs[..1], 1) == [100.0];
    assert AmountsOf(txs[..2], 1) == [100.0, 300.0];
    assert AmountsOf(txs[..1], 2) == [];
    assert AmountsOf(txs[..2], 2) == [];
  }

  lemma ScenarioDeviation()
    ensures Sum([100.0, 300.0]) == 400.0
    ensures SampleVariance([100.0, 300.0]) == 20000.0
  {
    var a := [100.0, 300.0];
    assert a[..1] == [100.0];
    assert Sum([100.0]) == 100.0 by { assert [100.0][..0] == []; }
    var d := SquaredDeviations(a, Mean(a));
    assert d == [10000.0, 10000.0];
    assert d[..1] == [10000.0];
    assert Sum([10000.0]) == 10000.0 by { assert [10000.0][..0] == []; }
  }

  /** The merged row each scenario pair gets. */
  lemma ScenarioRows(sqrt: real -> real)
    ensures RowFor(ScenarioTransactions, (1, 4), sqrt) == RfmsRow(1, 4, 2, 400.0, sqrt(20000.0))
    ensures RowFor(ScenarioTransactions, (1, 3), sqrt) == RfmsRow(1, 3, 2, 400.0, sqrt(20000.0))
    ensures RowFor(ScenarioTransactions, (2, 0), sqrt) == RfmsRow(2, 0, 1, 200.0, 0.0)
  {
    ScenarioGroups();
    ScenarioDeviation();
    assert Sum([200.0]) == 200.0 by { assert [200.0][..0] == []; }
  }

  /** Customer 1 gets one row per distinct Recency (4 and 3 days), both with
      Frequency 2, Monetary 400 and the deviation of [100, 300], whose square
      is 20000; customer 2 gets Recency 0, Frequency 1, Monetary 200 and
      Stability 0. */
  lemma ScenarioAggregate(sqrt: real -> real)
    requires IsSqrt(sqrt)
    ensures var rows := Aggregate(ScenarioTransactions, sqrt);
      && |rows| == 3
      && rows[0] == RfmsRow(1, 4, 2, 400.0, sqrt(20000.0))
      && rows[1] == RfmsRow(1, 3, 2, 400.0, sqrt(20000.0))
      && rows[2] == RfmsRow(2, 0, 1, 200.0, 0.0)
      && sqrt(20000.0) * sqrt(20000.0) == 20000.0 && sqrt(20000.0) >= 0.0
  {
    var txs := ScenarioTransactions;
    ScenarioKeys();
    ScenarioRows(sqrt);
    AggregateKeys(txs, sqrt, 0);
    AggregateKeys(txs, sqrt, 1);
    AggregateKeys(txs, sqrt, 2);
  }
}
