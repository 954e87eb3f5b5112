# RFM customer segmentation, modelled in Dafny

The system reads a table of customer transactions and computes three metrics per customer:

- **Recency**: whole days from the latest transaction in the whole table to the customer's own latest one.
- **Frequency**: the number of transactions.
- **Monetary**: the sum of the amounts.

Each metric is then binned into quartiles and labelled 1..4. Recency uses the labels `[4, 3, 2, 1]`, and Frequency and Monetary use `[1, 2, 3, 4]`. Quartile boundaries that coincide are dropped. The label list is right-aligned to the bins that remain, so the top label always survives.

The three labels are joined into a segment code such as `"314"` and added into a composite score in 3..12. Finally each customer gets a status from the mean and the spread of all scores: Platinum, Altın, Gümüş or Bronz. Each status gets a fixed Turkish description, with "Tanımsız" as the fallback for an unknown status.

Modules:

- `Results`: `Option` and `Result`.
- `RealSeqs`: sums, order predicates, minimum and maximum, and insertion sort with its permutation lemma.
- `Aggregation`: the per-customer `groupby` and `agg`, with conservation of rows and amounts.
- `Binning`: quartile edges by linear interpolation, dropping duplicate edges, `cut` with `include_lowest`, right-aligned labels, and `DynamicQcut`.
- `Scoring`: segment codes, scores and `CalculateRfm`.
- `Classification`: status bands, descriptions, the mean and `CalculateCustomerValue`.

Representation choices:

- Timestamps are integer nanoseconds, because `datetime64[ns]` is. A day is `86_400_000_000_000` ns. For a positive divisor, Dafny's Euclidean division rounds down, as `Timedelta.days` does.
- Amounts and binned columns are exact `real`s.

## Model

| member | source | states |
|---|---|---|
| Aggregation.CustomerIds | RFMAnalysis.py:60 | the group keys: no identifier twice, and an identifier is listed exactly when some transaction carries it |
| Aggregation.Group | RFMAnalysis.py:60 | the group `groupby('id')` hands to `agg`: every transaction in it carries the customer's identifier, and it is no longer than the table |
| Aggregation.GroupMembers | RFMAnalysis.py:60 | a customer's group holds exactly the transactions with that identifier, and nothing else |
| Aggregation.GroupMultiplicity | RFMAnalysis.py:60-62 | a group holds each of the customer's transactions exactly as often as the table does, so identical rows are all counted, as `'count'` counts them |
| Aggregation.GroupNonEmpty | RFMAnalysis.py:60 | a group is non-empty exactly when the customer occurs in the table |
| Aggregation.MaxTimestamp | RFMAnalysis.py:15 | the latest date bounds every transaction's date and is itself one of them |
| Aggregation.DaysBetween | RFMAnalysis.py:61 | `.days` of a time difference: the largest whole number of days not exceeding it; non-negative when the later time is not before the earlier one |
| Aggregation.DaysMonotone | RFMAnalysis.py:61 | a later own date never gives more days to the global latest date |
| Aggregation.Summarize | RFMAnalysis.py:60-64 | a group's row: Recency is non-negative, attained by one transaction and at most the day count of every transaction; Frequency is the group size; Monetary is the sum of the group's amounts |
| Aggregation.SummarizeDescribes | RFMAnalysis.py:60-64 | the summary of a customer's group describes that customer in terms of the whole table |
| Aggregation.SummarizeAllDescribes | RFMAnalysis.py:60-64 | the k-th summary describes the k-th listed customer |
| Aggregation.SummarizeAll | RFMAnalysis.py:60-64 | `agg` over the listed groups: one row per listed customer, in the same order, carrying that identifier, with Recency at least 0 and Frequency at least 1 |
| Aggregation.Aggregate | RFMAnalysis.py:60-64 | one row per distinct customer; each row's Recency, Frequency and Monetary are those of that customer's transactions, measured against the table's latest date; Recency is at least 0 and Frequency at least 1 |
| Aggregation.AggregateOneRowPerCustomer | RFMAnalysis.py:60 | customers are never merged or split: row identifiers are pairwise distinct, and there is a row for an identifier exactly when it occurs in the input |
| Aggregation.AggregateConservesCount | RFMAnalysis.py:62 | the Frequencies add up to the number of input rows |
| Aggregation.AggregateConservesAmount | RFMAnalysis.py:63 | the Monetary values add up to the total of all input amounts |
| RealSeqs.Sort | RFMAnalysis.py:47 | the order statistics that `qcut` takes its quantiles from: a sorted sequence of the same length |
| RealSeqs.SortPermutes | RFMAnalysis.py:47 | sorting only reorders: the same values, each as often |
| RealSeqs.SortEnds | RFMAnalysis.py:47 | the first order statistic is the column's minimum and the last its maximum |
| Binning.Lerp | RFMAnalysis.py:47 | linear interpolation a quarter, a half or three quarters of the way from a to b: the matching weighted average of a and b, lying between them |
| Binning.ValueAt | RFMAnalysis.py:47 | linear interpolation between neighbouring order statistics lies between them, and is exact at whole indices |
| Binning.ValueAtMonotone | RFMAnalysis.py:47 | the interpolated quantile never decreases as the fraction grows |
| Binning.Quartile | RFMAnalysis.py:47 | every quartile lies between the minimum and the maximum; the 0 and 1 quantiles are exactly those |
| Binning.QuarterPositionIs | RFMAnalysis.py:47 | four times the virtual index of the k-th quartile is (n - 1) * k, for a sample of n values |
| Binning.QuartileRank | RFMAnalysis.py:47 | with virtual index p = (n - 1) * k / 4 for a sample of n values, the floor(p) + 1 smallest order statistics lie at or below the quartile, and the n - ceil(p) largest at or above it |
| Binning.QuartileValue | RFMAnalysis.py:47 | the quartile is the order statistic at a whole virtual index, and otherwise the weighted average of the two order statistics around it, weighted by the fractional part of the index |
| Binning.QuartileStep | RFMAnalysis.py:47 | consecutive quartiles are ordered |
| Binning.QuartilesSorted | RFMAnalysis.py:47 | the five quartiles of a sorted sample are in order |
| Binning.QuartileEdges | RFMAnalysis.py:47 | `q=4` gives five ordered edges running from the column's minimum to its maximum |
| Binning.Unique | RFMAnalysis.py:47 | `duplicates='drop'`: the edges become strictly increasing and no longer, with first and last edges kept |
| Binning.UniqueKeepsValues | RFMAnalysis.py:47 | dropping duplicates loses no edge value and invents none |
| Binning.Edges | RFMAnalysis.py:47 | the surviving edges: 1 to 5 strictly increasing values, from the column's minimum to its maximum |
| Binning.CountBelow | RFMAnalysis.py:49 | the bin search: edges before the result are below the value, and edges from it on are not |
| Binning.CutCode | RFMAnalysis.py:49 | a value gets a bin code exactly when it lies within the first and last edge, and then lies in that bin (`include_lowest` admits the first edge) |
| Binning.CutLabel | RFMAnalysis.py:49 | a value is labelled exactly when it lies within the edges, and then with the label of its bin |
| Binning.Bin | RFMAnalysis.py:49 | a value within the edges lies in some bin |
| Binning.BinOrder | RFMAnalysis.py:49 | bins are ordered like the values they hold |
| Binning.LastBinOnly | RFMAnalysis.py:49 | the last edge lies in the last bin only |
| Binning.RightAlign | RFMAnalysis.py:48-49 | `labels[-n:]`: the last n labels in order, so only leading labels are dropped and the top label is kept |
| Binning.SpreadIffTwoEdges | RFMAnalysis.py:47-48 | at least two edges survive exactly when the column holds two different values |
| Binning.CutAll | RFMAnalysis.py:49 | a column lying within the edges gets a label for every value |
| Binning.DynamicQcut | RFMAnalysis.py:47-49 | fails on an empty column or one without spread, and only then; otherwise every value gets the label of its bin from the right-aligned labels |
| Binning.QcutCharacterized | RFMAnalysis.py:47-49 | `DynamicQcut` returns `out` exactly when the column has spread and `out` is the column binned by its quartile edges |
| Binning.BinnedByUnique | RFMAnalysis.py:49 | the edges determine the labels: two binnings of a column by the same edges agree |
| Binning.BinOf | RFMAnalysis.py:48-49 | a labelled value lies in bin b and carries label `labels[5 - edges + b]` |
| Binning.QcutLabelsFrom | RFMAnalysis.py:48-49 | in any binning by edges spanning the column, which is what `DynamicQcut` returns, every label handed out is one of the supplied labels |
| Binning.QcutLabelsBetween | RFMAnalysis.py:48-49 | in such a binning every value is labelled, with a label between the smallest and the largest offered |
| Binning.QcutMonotone | RFMAnalysis.py:47-49 | such a binning is monotone: with ascending labels a larger value never gets a smaller label, and with descending labels never a larger one |
| Binning.LabelsMonotone | RFMAnalysis.py:48-49 | the same monotonicity for any strictly increasing edges |
| Binning.QcutTopLabel | RFMAnalysis.py:48-49 | in such a binning a largest value always gets the last label, however many bins survived |
| Binning.QcutBottomLabel | RFMAnalysis.py:48-49 | in such a binning a smallest value gets the first label that survived the right-alignment |
| Binning.FirstBinOnly | RFMAnalysis.py:49 | the first edge lies in the first bin only, because `include_lowest` puts it there |
| Scoring.LabelOrders | RFMAnalysis.py:66-68 | the Recency labels descend; the Frequency and Monetary labels ascend |
| Scoring.LabelsOf | RFMAnalysis.py:66-68 | each metric is binned with four labels, all in 1..4 |
| Scoring.Column | RFMAnalysis.py:66-68 | the column of one metric, `rfm['Recency']` and so on, with one value per customer |
| Scoring.Segment | RFMAnalysis.py:70 | the segment is three characters, each a digit in 1..4, and reading the digits back gives R, F and M |
| Scoring.SegmentInjective | RFMAnalysis.py:70 | different label triples never share a segment code |
| Scoring.ScoreRow | RFMAnalysis.py:70-71 | a row's segment spells out its labels, its score is the sum of the segment's digits, and 3 <= score <= 12 |
| Scoring.ScoreRows | RFMAnalysis.py:66-71 | each customer is joined with its own three labels, and every row is consistently scored |
| Scoring.BinMetric | RFMAnalysis.py:66-68 | a metric bins exactly when its column has spread, giving one label in 1..4 per customer; a failure names the metric |
| Scoring.ScoreCustomers | RFMAnalysis.py:66-71 | succeeds exactly when all three columns have spread; then it gives one row per customer whose labels are what binning each metric's column gives; a failure names a metric without spread |
| Scoring.CalculateRfm | RFMAnalysis.py:60-73 | `_calculate_rfm` from transactions to scored rows: at least two customers and one row each on success, otherwise the failing metric |
| Scoring.ScoresMonotone | RFMAnalysis.py:66-68 | a more recent customer never gets a lower R; more transactions or a larger total never give a lower F or M |
| Scoring.ScoredMonotone | RFMAnalysis.py:66-68 | the same for any table scored from its customers, which is what `CalculateRfm` returns |
| Scoring.LabelMonotone | RFMAnalysis.py:66-68 | the same for one metric |
| Scoring.ScoredExtremes | RFMAnalysis.py:48-49 | the top label always survives: the customer with the longest gap since the last purchase gets R = 1, and the one with the most transactions or the largest total gets F = 4 or M = 4 |
| Scoring.TopLabel | RFMAnalysis.py:66-68 | the largest value of one metric's column gets that metric's last label |
| Classification.GetRfmStatus | RFMAnalysis.py:93-100 | always a described status; exactly the scores at or above avg + std are Platinum; a score at or above the average is never Bronz |
| Classification.StatusBands | RFMAnalysis.py:93-100 | with std >= 0 the four statuses are exactly the four half-open bands, so they are total and exclusive |
| Classification.Rank | RFMAnalysis.py:93-100 | the order Bronz < Gümüş < Altın < Platinum, with Platinum the only top status and Bronz the only bottom one |
| Classification.StatusMonotone | RFMAnalysis.py:93-100 | a higher score never gets a lower status, for any mean and spread |
| Classification.Describe | RFMAnalysis.py:116-122 | a status's description from the fixed table, or "Tanımsız" |
| Classification.DescribeDefined | RFMAnalysis.py:116-122 | the fallback is reached exactly for strings that are not statuses, and distinct statuses have distinct descriptions |
| Classification.Mean | RFMAnalysis.py:128 | the average: the mean times the number of scores is their sum, and it lies between the smallest and the largest score |
| Classification.Scores | RFMAnalysis.py:128 | the score column, one entry per row |
| Classification.CalculateCustomerValue | RFMAnalysis.py:124-132 | each row keeps its data, gets the status of its score against the mean, and gets that status's description, which is never "Tanımsız" |
| Classification.ValueMonotone | RFMAnalysis.py:131 | a customer with a higher score never gets a lower status |
| Classification.TopCustomerAtLeastGold | RFMAnalysis.py:128-131 | a top-scoring customer is at or above the mean, so is Altın or Platinum |

## Left out

- Loading the Parquet file and converting the date column (RFMAnalysis.py:27-28) are left out. The model starts from a sequence of transactions with integer-nanosecond timestamps.
- Writing the result (RFMAnalysis.py:143) and the script entry point (RFMAnalysis.py:146-149) are file I/O and are left out.
- The constructor's wiring (RFMAnalysis.py:13-16) is not modelled. `Aggregate` computes the latest date itself, and `CalculateCustomerValue` takes the scored rows as its input.
- Classification.CalculateCustomerValue: the standard deviation (RFMAnalysis.py:129) is a parameter `std`. pandas' sample standard deviation needs a floating-point square root. The status properties hold for any `std`, and the bands lemma assumes `std >= 0`. The NaN that pandas gives for a single customer is not modelled, but `CalculateRfm` never succeeds with fewer than two customers.
- The mean of an empty table is NaN in pandas. `CalculateCustomerValue` returns no rows for an empty input instead.
- Floating-point rounding is not modelled. Amounts, sums, quantiles and the mean are exact reals.
- Row order: pandas' `groupby` sorts the customer keys, but `Aggregate` lists customers in order of first appearance. No stated property depends on the order.
- Missing identifiers, which `groupby` drops, and missing amounts are not modelled.
- Null transaction identifiers and missing dates are not modelled. `'IslemID': 'count'` (RFMAnalysis.py:62) counts only non-null identifiers, and `max()` (RFMAnalysis.py:15, 61) skips missing dates. The model takes every row to have both, so Frequency is the group size and `AggregateConservesCount` counts rows.
- Scoring.Segment: the model gives the three-digit code, such as `"413"`, that the code evidently intends. The f-string at RFMAnalysis.py:70 formats values taken from a row that `apply(..., axis=1)` builds. That row also holds Recency, Frequency and Monetary, and how pandas coerces such a mixed row is not modelled. A float common type would render a label as `4.0`.
- The labels are plain integers. pandas makes `R`, `F` and `M` categorical columns, and how `sum(axis=1)` (RFMAnalysis.py:71) treats them is not modelled; the score is taken as the integer sum the code evidently intends.
- Degenerate binning: an empty column (`EmptyColumn`) and a column whose quartile edges all coincide (`InsufficientVariance`) are explicit errors. In the source, a single surviving edge makes `labels[-0:]` the whole list of four labels, and `pd.cut` then rejects the mismatch between labels and bins by raising an exception. The model reports an error where the source raises.
- `duplicates='drop'` in the `cut` call (RFMAnalysis.py:49) is not modelled separately, because the edges it receives are already distinct.
