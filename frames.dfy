/** The records and tables the scoring pipeline passes from stage to stage.
    The two pandas DataFrames that the functions of src/woe_binning.py write
    columns into are classes here: a transaction table that gains a Recency
    column, and the RFMS table (one row per distinct customer and Recency
    pair) that is normalised, labelled and binned in place. */
module Frames {

  type CustomerId = int

  /** Seconds in a day: a pandas Timedelta's `.days` is the number of whole
      days it spans. */
  const SecondsPerDay: int := 86400

  /** One input transaction; `time` counts seconds on a common time line. */
  datatype Transaction = Transaction(customer: CustomerId, time: int, amount: real)

  /** One row of the aggregated RFMS table, before normalisation. */
  datatype RfmsRow = RfmsRow(
    customer: CustomerId,
    recency: int,
    frequency: nat,
    monetary: real,
    stability: real)

  /** The four RFMS columns, in the order the normalisation loop visits them. */
  datatype Component = Recency | Frequency | Monetary | Stability

  const Components: seq<Component> := [Recency, Frequency, Monetary, Stability]

  datatype RiskLabel = Good | Bad

  /** A bin index, or the missing value pandas gives a row outside every bin. */
  datatype Option<T> = None | Some(value: T)

  /** The position of a column in `Components`. */
  function Index(c: Component): (j: nat)
    ensures j < |Components| && Components[j] == c
  {
    match c
    case Recency => 0
    case Frequency => 1
    case Monetary => 2
    case Stability => 3
  }

  /** The transaction DataFrame handed to `calculate_rfms_components`. Its
      input columns never change; `recency` is the column the aggregation
      adds, empty until then. */
  class TransactionFrame {
    const transactions: seq<Transaction>
    var recency: seq<int>

    constructor (txs: seq<Transaction>)
      ensures transactions == txs && recency == []
    {
      transactions := txs;
      recency := [];
    }
  }

  /** The RFMS DataFrame. `rfms` holds the four RFMS columns in the order of
      `Components`, each with one entry per row; `score`,
      `riskLabel` and `bin` are the columns added by the later stages, empty
      until each stage has run. */
  class RfmsFrame {
    var customer: seq<CustomerId>
    var rfms: seq<seq<real>>
    var score: seq<real>
    var riskLabel: seq<RiskLabel>
    var bin: seq<Option<nat>>

    ghost predicate Valid()
      reads this
    {
      && |rfms| == |Components|
      && forall j :: 0 <= j < |rfms| ==> |rfms[j]| == |customer|
    }

    function Size(): nat
      reads this
    {
      |customer|
    }

    /** The column `df[c]` for one of the four RFMS names. */
    function Column(c: Component): (col: seq<real>)
      requires Valid()
      reads this
      ensures |col| == Size()
    {
      rfms[Index(c)]
    }

    /** The RFMS columns hold exactly `rows`, one table row per record. */
    ghost predicate Holds(rows: seq<RfmsRow>)
      reads this
    {
      && Valid() && Size() == |rows|
      && forall i :: 0 <= i < |rows| ==>
        && customer[i] == rows[i].customer
        && Column(Recency)[i] == rows[i].recency as real
        && Column(Frequency)[i] == rows[i].frequency as real
        && Column(Monetary)[i] == rows[i].monetary
        && Column(Stability)[i] == rows[i].stability
    }

    /** The table a merge produces from aggregated rows. */
    constructor FromRows(rows: seq<RfmsRow>)
      ensures Holds(rows)
      ensures score == [] && riskLabel == [] && bin == []
    {
      customer := seq(|rows|, i requires 0 <= i < |rows| => rows[i].customer);
      rfms := [
        seq(|rows|, i requires 0 <= i < |rows| => rows[i].recency as real),
        seq(|rows|, i requires 0 <= i < |rows| => rows[i].frequency as real),
        seq(|rows|, i requires 0 <= i < |rows| => rows[i].monetary),
        seq(|rows|, i requires 0 <= i < |rows| => rows[i].stability)];
      score, riskLabel, bin := [], [], [];
    }

    /** `df[c] = v`: overwrite one RFMS column, leaving every other column. */
    method SetColumn(c: Component, v: seq<real>)
      requires Valid() && |v| == Size()
      modifies this`rfms
      ensures Valid() && rfms == old(rfms)[Index(c) := v]
    {
      rfms := rfms[Index(c) := v];
    }
  }
}
