# Credit-score RFMS and WoE model

This project models the credit-risk scoring pipeline of `src/woe_binning.py`
and proves properties of it in Dafny. The pipeline has four stages:

1. **RFMS aggregation** (`calculate_rfms_components`).
   - A Recency column is written into the transaction table. It holds the whole days between each transaction and the latest transaction in the table.
   - Transactions are grouped by customer. The groups give Frequency (the number of transactions), Monetary (the sum of amounts) and Stability (the sample standard deviation of the amounts, 0 for a single transaction).
   - The groups are merged with the distinct (CustomerId, Recency) pairs of the transactions.
2. **Normalisation** (`normalize_rfms_components`).
   - Each of the four columns is rescaled in place to `(x - min) / (max - min)`, one column at a time.
   - The RFMS score is the mean of the four rescaled columns.
3. **Risk labelling** (`assign_risk_labels`). A row is labelled Good when its score is strictly above the threshold, which defaults to 0.5. Otherwise it is Bad.
4. **WoE/IV binning** (`woe_binning`).
   - Rows are put in quantile bins of one RFMS column, and the bin column is written into the table.
   - Each bin counts its Bad, Good and total rows.
   - A bin's `bad_rate` and `good_rate` are its shares of all Bad and of all Good rows.
   - `WoE = ln(good_rate / bad_rate)` and `IV = (good_rate - bad_rate) * WoE`. The IVs add up to the column's IV, which is returned with the table.

Modules:
- `Numeric`: sums, minimum and maximum, and division facts. Natural log and square root are parameters. They are constrained by `IsLogLike` and `IsSqrt` and never computed.
- `Frames`: the records and the two DataFrames. The DataFrames are classes, because the source writes columns into them in place.
- `Aggregation`, `Normalization`, `RiskLabels`, `WoeBinning`: one module per stage.

Each stage whose source writes into its table is a method.
- Its `ensures` ties the new columns to specification functions.
- Lemmas state what the source promises about those functions.

### One row per (customer, Recency) pair

One might expect one RFMS row per customer, with Recency measured from that customer's latest transaction.

`calculate_rfms_components` does something else. It merges the customer aggregates with `df[['CustomerId', 'Recency']].drop_duplicates()`, which is one row per distinct (customer, per-transaction Recency) pair. So a customer with k distinct Recency values gets k rows.

The model follows the code:
- `Aggregation.AggregateRowsArePairs` and `Aggregation.ScenarioAggregate` state this behaviour.
- In the scenario, customer 1 has transactions on days 1 and 2, and gets two rows, with Recency 4 and 3.

`normalize_rfms_components` does not guard a column whose minimum equals its maximum, and the model does not either (see "Left out").

## Model

| member | source | states |
|---|---|---|
| Aggregation.CalculateRfmsComponents | src/woe_binning.py:6-17 | the transaction table gains the Recency column and nothing else changes; the returned fresh table holds exactly the merged rows |
| Aggregation.MaxTime | src/woe_binning.py:8 | `TransactionStartTime.max()`: a transaction time of the table that no transaction exceeds |
| Aggregation.RecencyColumn | src/woe_binning.py:8 | one Recency per transaction; `RecencyWholeDays`, `RecencyAnchored` and `AggregateHasZeroRecency` state its values |
| Aggregation.RecencyWholeDays | src/woe_binning.py:8 | every Recency is a non-negative whole number of days: the largest count of whole days that fits in the gap to the latest transaction |
| Aggregation.RecencyAnchored | src/woe_binning.py:8 | the latest transaction has Recency 0, and a transaction has Recency 0 exactly when it is less than a day older than the latest one |
| Aggregation.FrequencyCountsTransactions | src/woe_binning.py:9 | a customer's Frequency is the number of that customer's transactions |
| Aggregation.AmountsOfMembers | src/woe_binning.py:10 | an amount occurs among a customer's grouped amounts exactly when some transaction of that customer has it |
| Aggregation.MonetarySumsCustomerAmounts | src/woe_binning.py:10 | Monetary is the sum, over every transaction of the table, of its amount when it belongs to the customer and 0 otherwise, so repeated amounts are each counted once per transaction |
| Aggregation.GroupTotalsAdditive | src/woe_binning.py:9-10 | Frequency and Monetary of a table split in two are the sums of those of the parts |
| Aggregation.StabilityOf | src/woe_binning.py:11 | `fillna(0)`: a customer with at most one transaction has Stability 0; `StabilityFacts` states the rest |
| Aggregation.StabilityFacts | src/woe_binning.py:11 | Stability is never negative; it is 0 for a customer with at most one transaction; otherwise its square is the sample variance of the amounts |
| Aggregation.Keys | src/woe_binning.py:15 | `df[['CustomerId', 'Recency']]`: one (customer, Recency) pair per transaction; `AggregateRowsArePairs` and `AggregateCoversCustomers` state how the merge uses them |
| Aggregation.Distinct | src/woe_binning.py:15 | drop_duplicates keeps every pair once: same members as the input and no repeats |
| Aggregation.Aggregate | src/woe_binning.py:13-15 | one merged row per distinct (customer, Recency) pair; `AggregateRowsArePairs`, `AggregateCoversCustomers` and `AggregateRowFacts` state which pairs and what each row carries |
| Aggregation.AggregateRowsArePairs | src/woe_binning.py:13-15 | the rows are exactly the distinct (customer, Recency) pairs of the transactions, each once |
| Aggregation.AggregateCoversCustomers | src/woe_binning.py:9-15 | the set of customers in the merged table equals the set in the transactions |
| Aggregation.AggregateRowFacts | src/woe_binning.py:9-15 | every row has Frequency = the customer's transaction count (at least 1), Monetary = the sum of the customer's amounts, Stability = the customer's `StabilityOf` (so non-negative, 0 for one transaction, and squaring to the sample variance of the amounts otherwise, by `StabilityFacts`), and a Recency that is one of the customer's transaction recencies and is not negative |
| Aggregation.AggregateHasZeroRecency | src/woe_binning.py:8 | some row of a non-empty table has Recency 0 and belongs to the customer holding the latest transaction |
| Aggregation.ScenarioAggregate | src/woe_binning.py:6-17 | for two customers' transactions on days 1, 2 and 5, the merged rows are (1, 4, 2, 400, sqrt 20000), (1, 3, 2, 400, sqrt 20000) and (2, 0, 1, 200, 0) |
| Frames.RfmsFrame.FromRows | src/woe_binning.py:13-15 | the table built from the merged rows holds them column by column, and its later columns are empty |
| Frames.RfmsFrame.SetColumn | src/woe_binning.py:22 | assigning `df[c]` replaces that one RFMS column and leaves the others and the table's length |
| Numeric.Min | src/woe_binning.py:22 | `Series.min`: a value of the column that is at most every value |
| Numeric.Max | src/woe_binning.py:22 | `Series.max`: a value of the column that is at least every value |
| Normalization.ScaledFacts | src/woe_binning.py:22 | a value between the bounds scales into [0, 1], to 0 exactly at the minimum and to 1 exactly at the maximum |
| Normalization.ScaledMonotone | src/woe_binning.py:22 | scaling keeps both the order and the strict order of two values |
| Normalization.Rescale | src/woe_binning.py:22 | a column with spread rescales to a column of the same length with every value in [0, 1] |
| Normalization.RescaleEndpoints | src/woe_binning.py:22 | a row rescales to 0 exactly when it holds the column minimum, and to 1 exactly when it holds the maximum |
| Normalization.RescaleAttainsBounds | src/woe_binning.py:22 | some row of a rescaled column is 0 and some row is 1 |
| Normalization.RescalePreservesOrder | src/woe_binning.py:22 | two rows compare after rescaling as they did before, ties included |
| Normalization.RescaleColumns | src/woe_binning.py:21-22 | the loop leaves each of the four columns equal to the rescaling of its old value |
| Normalization.NormalizeRfmsComponents | src/woe_binning.py:19-25 | the four columns are rescaled and the score column is their row-wise mean, with every score in [0, 1]; customers, labels and bins are unchanged |
| Normalization.ScoreColumn | src/woe_binning.py:24 | one score per row; `ScoreBounds` and `ScoreColumnBounds` state its range |
| Normalization.ScoreColumnBounds | src/woe_binning.py:24 | four columns in [0, 1] give a score column in [0, 1] |
| Normalization.ScoreBounds | src/woe_binning.py:24 | a score is in [0, 1]; it is 1 only when all four components are 1 and 0 only when all four are 0 |
| RiskLabels.LabelColumn | src/woe_binning.py:72 | one label per score; Good exactly when the score is above the threshold, Bad exactly when it is at or below it |
| RiskLabels.Count | src/woe_binning.py:79-80 | `(x == label).sum()`: at most the number of rows; `CountsPartition`, `HistogramCounts` and `HistogramSums` state what it counts |
| RiskLabels.CountsPartition | src/woe_binning.py:72 | every row is either Good or Bad: the two counts add up to the row count |
| RiskLabels.DefaultThresholdTie | src/woe_binning.py:70 | with the default threshold 0.5, a score of exactly 0.5 is Bad and any higher score is Good |
| RiskLabels.RaisingThresholdLosesGood | src/woe_binning.py:72 | a higher threshold gives no more Good rows and no fewer Bad rows |
| RiskLabels.AssignRiskLabels | src/woe_binning.py:70-73 | the Risk_Label column is written from the score column with the given or the default threshold; nothing else changes and the table stays well-formed |
| WoeBinning.SearchFrom | src/woe_binning.py:77 | the edge found is the first edge from the start position that is not below the value |
| WoeBinning.BinOf | src/woe_binning.py:77 | a value gets a bin exactly when it lies between the lowest and the highest edge; bin k is the interval (edge k, edge k+1], with the lowest edge itself in bin 0 |
| WoeBinning.BinColumn | src/woe_binning.py:77 | one bin entry per row |
| WoeBinning.InBinSplits | src/woe_binning.py:77 | a value in bin k is above the edges before bin k's upper edge and at most every later edge |
| WoeBinning.InBinUnique | src/woe_binning.py:77 | with increasing edges no value lies in two bins |
| WoeBinning.BinOfInBin | src/woe_binning.py:77 | the bin assigned to a value is exactly the interval that holds it: right-closed, with the lowest edge in the first bin |
| WoeBinning.BinOfOutside | src/woe_binning.py:77 | a value gets no bin exactly when it lies outside the edges, and an assigned bin is one of the intervals |
| WoeBinning.EveryRowInOneBin | src/woe_binning.py:77 | with quantile edges of the column every row falls in a bin, and in no other |
| WoeBinning.Histogram | src/woe_binning.py:78-82 | the group-by has one entry per bin, empty bins included |
| WoeBinning.HistogramCounts | src/woe_binning.py:78-82 | entry k counts exactly the rows whose bin is k: all of them as total_count, those labelled Bad as bad_count and those labelled Good as good_count |
| WoeBinning.HistogramBalanced | src/woe_binning.py:78-82 | in every bin bad_count + good_count = total_count |
| WoeBinning.HistogramSums | src/woe_binning.py:78-82 | the bins' totals add up to the number of binned rows, and their Bad and Good counts to those rows' labels |
| WoeBinning.KeptAll | src/woe_binning.py:78-82 | when every row has a bin, the group-by drops no row |
| WoeBinning.QuantileBinsCountEveryRow | src/woe_binning.py:77-82 | with quantile edges there are at most ten bins, their totals add up to the row count, and their Bad and Good counts to the table's Bad and Good labels |
| WoeBinning.Rates | src/woe_binning.py:85-86 | one rate per bin |
| WoeBinning.RatesAreDistribution | src/woe_binning.py:85-86 | each rate column lies in [0, 1] and adds up to 1, and a rate is positive exactly when the bin's count is |
| WoeBinning.RatesPositive | src/woe_binning.py:85-86 | when every bin holds both classes, both class totals and all rates are positive |
| WoeBinning.WoeSign | src/woe_binning.py:87 | WoE is positive, zero or negative exactly as good_rate is above, equal to or below bad_rate |
| WoeBinning.WoeColumnSign | src/woe_binning.py:87 | each bin's WoE has the sign of its good_rate minus its bad_rate |
| WoeBinning.IvNonNegative | src/woe_binning.py:88 | a bin's IV is never negative |
| WoeBinning.WoeColumn | src/woe_binning.py:87 | one WoE per bin |
| WoeBinning.IvColumn | src/woe_binning.py:88 | one IV per bin |
| WoeBinning.IvColumnNonNegative | src/woe_binning.py:88-90 | with a log function, when every bin holds both classes, every bin's IV and their sum are non-negative |
| WoeBinning.TotalIv | src/woe_binning.py:90 | with a log function `bin_stats['IV'].sum()` is non-negative; `WoeTable` states that it is the sum of the returned rows' IVs |
| WoeBinning.WoeTable | src/woe_binning.py:83-90 | one result row per bin, holding that bin's two edges, its Bad and Good counts and its WoE; the row's IV is computed from that WoE and the bin's two rates; the rows' IVs add up to the total IV |
| WoeBinning.WoeTableMeasures | src/woe_binning.py:85-90 | every result row's IV is non-negative and equals (good_rate - bad_rate) * WoE; its WoE is positive, zero or negative exactly as its good_rate is above, equal to or below its bad_rate; the rows' IVs add up to a non-negative number |
| WoeBinning.WoeBinning | src/woe_binning.py:75-90 | writes the bin column from the feature column; returns at least one and at most ten bin rows, each with its two edges, the numbers of Bad and Good rows in its bin, a non-negative IV equal to (good_rate - bad_rate) * WoE and a WoE with the sign of good_rate - bad_rate; returns the total IV, which is the sum of the rows' IVs and is non-negative; the table stays well-formed; the bins' totals add up to the table's row count and their Bad and Good counts to the table's labels |

## Left out

- The plotting functions (`plot_rfms_distribution`, `plot_rfms_components`, `visualize_rfms_space`). They only draw charts.
- `apply_woe_binning`. It runs `woe_binning` over the four columns and prints the results.
- `src/modeling.py` and `scripts/main.py` are not part of this model.
- How `qcut` computes quantile edges by interpolation, and how duplicate edges are dropped. The edges are a parameter of `WoeBinning.WoeBinning`, which requires what quantile edges always satisfy: strictly increasing, 2 to 11 of them (`WoeBinning.IsEdges`), running from the column's minimum to its maximum (`WoeBinning.Spans`). Because the edges are an input, the model does not prove that quantile bins are non-empty.
- A column `qcut` reduces to a single edge, because all its values are equal. `WoeBinning.IsEdges` requires at least two edges.
- Natural log and square root are not computed. They are parameters constrained by `Numeric.IsLogLike` and `Numeric.IsSqrt`.
- Floating point: values are exact reals. NaN and infinity do not exist in the model.
- Normalization.NormalizeRfmsComponents: requires every column to have max > min, which also excludes an empty table. With max == min the source divides by zero and pandas yields NaN; an empty table pandas normalises to an empty one, which the model does not cover.
- WoeBinning.WoeBinning: requires every bin to hold both Bad and Good rows. Otherwise the source takes the log of 0 or divides by 0.
- WoeBinning.WoeBinning: the target column is fixed to the Risk_Label column, which is the one the pipeline passes.
- WoeBinning.WoeTable: pandas labels each bin with an Interval whose breaks are rounded for display. A break of magnitude at least 1 is rounded to 3 decimals; a break below 1 in magnitude is rounded to 3 significant digits of its fraction. More digits are used where needed to keep the breaks distinct, and the first break is then lowered by 10^-precision. The model gives the exact edges. In both, rows are assigned to bins by the exact edges.
- Aggregation.CalculateRfmsComponents: rows come in first-occurrence order of their (customer, Recency) pair. pandas' merge orders them by CustomerId. Row order is therefore not modelled; the row contents are.
- Timestamp parsing. A transaction time is an integer number of seconds on a common time line. `.dt.days` is whole-day division of the non-negative gap.
- Frames.RfmsFrame: only the columns the four stages read or write are modelled. Other input columns are not.
