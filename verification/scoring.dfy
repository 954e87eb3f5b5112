/** Scoring: each metric binned into a 1..4 label, the three labels joined into a segment code
    and added into a composite score. */
module Scoring {
  import opened Results
  import opened Aggregation
  import opened Binning

  /** Recency labels run downwards: the longest gap since the last purchase gets 1. */
  const RecencyLabels: seq<int> := [4, 3, 2, 1]
  /** Frequency labels run upwards: the most transactions get 4. */
  const FrequencyLabels: seq<int> := [1, 2, 3, 4]
  /** Monetary labels run upwards: the largest total gets 4. */
  const MonetaryLabels: seq<int> := [1, 2, 3, 4]

  /** Recency labels descend, Frequency and Monetary labels ascend. */
  lemma LabelOrders()
    ensures Descending(RecencyLabels)
    ensures Ascending(FrequencyLabels) && Ascending(MonetaryLabels)
  {
    forall a, b | 0 <= a < b < 4
      ensures RecencyLabels[a] >= RecencyLabels[b] && FrequencyLabels[a] <= FrequencyLabels[b]
    {
      assert RecencyLabels[a] == 4 - a && RecencyLabels[b] == 4 - b;
      assert FrequencyLabels[a] == a + 1 && FrequencyLabels[b] == b + 1;
    }
  }

  /** The three aggregated metrics. */
  datatype Metric = Recency | Frequency | Monetary

  /** Scoring failed because the named metric's column could not be binned. */
  datatype RfmError = RfmError(metric: Metric, cause: BinningError)

  /** An aggregated customer with its three labels, segment code and composite score. */
  datatype RfmRow = RfmRow(metrics: CustomerMetrics, r: int, f: int, m: int, segment: string, score: int)

  /** The labels of `metric`, in the order the binning receives them. */
  function LabelsOf(metric: Metric): (labels: seq<int>)
    ensures |labels| == 4
    ensures forall i :: 0 <= i < 4 ==> 1 <= labels[i] <= 4
  {
    match metric
    case Recency => RecencyLabels
    case Frequency => FrequencyLabels
    case Monetary => MonetaryLabels
  }

  /** The column of `metric` across all customers, as reals. */
  function Column(customers: seq<CustomerMetrics>, metric: Metric): (col: seq<real>)
    ensures |col| == |customers|
  {
    seq(|customers|, k requires 0 <= k < |customers| =>
      match metric
      case Recency => customers[k].recency as real
      case Frequency => customers[k].frequency as real
      case Monetary => customers[k].monetary)
  }

  // ---- Segment codes ----

  /** The decimal digit of a value in 0..9. */
  function Digit(d: int): char
    requires 0 <= d <= 9
  {
    ('0' as int + d) as char
  }

  /** The value of a decimal digit character. */
  function DigitValue(c: char): int
  {
    c as int - '0' as int
  }

  /** A segment code: three characters, each a digit in 1..4. */
  predicate IsSegment(s: string)
  {
    |s| == 3 && forall i :: 0 <= i < 3 ==> '1' <= s[i] <= '4'
  }

  /** `f"{R}{F}{M}"`: the three labels written side by side; reading the digits back gives the labels. */
  function Segment(r: int, f: int, m: int): (s: string)
    requires 1 <= r <= 4 && 1 <= f <= 4 && 1 <= m <= 4
    ensures IsSegment(s)
    ensures DigitValue(s[0]) == r && DigitValue(s[1]) == f && DigitValue(s[2]) == m
  {
    [Digit(r), Digit(f), Digit(m)]
  }

  /** Segment codes are unambiguous: different label triples never share a code. */
  lemma SegmentInjective(r: int, f: int, m: int, r': int, f': int, m': int)
    requires 1 <= r <= 4 && 1 <= f <= 4 && 1 <= m <= 4
    requires 1 <= r' <= 4 && 1 <= f' <= 4 && 1 <= m' <= 4
    requires Segment(r, f, m) == Segment(r', f', m')
    ensures r == r' && f == f' && m == m'
  {
    assert Segment(r, f, m)[0] == Segment(r', f', m')[0];
    assert Segment(r, f, m)[1] == Segment(r', f', m')[1];
    assert Segment(r, f, m)[2] == Segment(r', f', m')[2];
  }

  /** A scored row is consistent: labels in 1..4, the segment spells them out, and the score is
      the sum of the segment's digits. */
  predicate WellScored(row: RfmRow)
  {
    && 1 <= row.r <= 4 && 1 <= row.f <= 4 && 1 <= row.m <= 4
    && IsSegment(row.segment)
    && DigitValue(row.segment[0]) == row.r
    && DigitValue(row.segment[1]) == row.f
    && DigitValue(row.segment[2]) == row.m
    && row.score == DigitValue(row.segment[0]) + DigitValue(row.segment[1]) + DigitValue(row.segment[2])
  }

  /** Builds one customer's scored row. */
  function ScoreRow(c: CustomerMetrics, r: int, f: int, m: int): (row: RfmRow)
    requires 1 <= r <= 4 && 1 <= f <= 4 && 1 <= m <= 4
    ensures WellScored(row)
    ensures row.metrics == c && row.r == r && row.f == f && row.m == m
    ensures 3 <= row.score <= 12
  {
    RfmRow(c, r, f, m, Segment(r, f, m), r + f + m)
  }

  /** The label of `metric` in each row. */
  function Labels(rows: seq<RfmRow>, metric: Metric): (labels: seq<int>)
    ensures |labels| == |rows|
  {
    seq(|rows|, k requires 0 <= k < |rows| =>
      match metric
      case Recency => rows[k].r
      case Frequency => rows[k].f
      case Monetary => rows[k].m)
  }

  /** Joins each customer with its three labels. */
  function ScoreRows(customers: seq<CustomerMetrics>, rs: seq<int>, fs: seq<int>, ms: seq<int>): (rows: seq<RfmRow>)
    requires |rs| == |customers| && |fs| == |customers| && |ms| == |customers|
    requires forall k :: 0 <= k < |customers| ==> 1 <= rs[k] <= 4 && 1 <= fs[k] <= 4 && 1 <= ms[k] <= 4
    ensures |rows| == |customers|
    ensures forall k :: 0 <= k < |rows| ==> rows[k].metrics == customers[k] && WellScored(rows[k])
    ensures Labels(rows, Recency) == rs && Labels(rows, Frequency) == fs && Labels(rows, Monetary) == ms
  {
    seq(|customers|, k requires 0 <= k < |customers| => ScoreRow(customers[k], rs[k], fs[k], ms[k]))
  }

  /** The rows carry, metric by metric, exactly the labels that binning that metric's column gives. */
  predicate ScoredFrom(customers: seq<CustomerMetrics>, rows: seq<RfmRow>)
  {
    && |rows| == |customers|
    && (forall k :: 0 <= k < |rows| ==> rows[k].metrics == customers[k] && WellScored(rows[k]))
    && BinnedAs(customers, rows, Recency)
    && BinnedAs(customers, rows, Frequency)
    && BinnedAs(customers, rows, Monetary)
  }

  /** The rows' labels for `metric` are that metric's column binned by its quartile edges. */
  predicate BinnedAs(customers: seq<CustomerMetrics>, rows: seq<RfmRow>, metric: Metric)
  {
    && |customers| > 0
    && BinnedBy(Column(customers, metric), Edges(Column(customers, metric)), LabelsOf(metric), Labels(rows, metric))
  }

  /** Every metric's column holds two different values. */
  predicate AllSpread(customers: seq<CustomerMetrics>)
  {
    && HasSpread(Column(customers, Recency))
    && HasSpread(Column(customers, Frequency))
    && HasSpread(Column(customers, Monetary))
  }

  /** Bins one metric, labelling its failure with the metric's name. */
  function BinMetric(customers: seq<CustomerMetrics>, metric: Metric): (res: Result<seq<int>, RfmError>)
    ensures res.Ok? <==> HasSpread(Column(customers, metric))
    ensures res.Ok? ==> DynamicQcut(Column(customers, metric), LabelsOf(metric)) == Ok(res.value)
    ensures res.Ok? ==> |res.value| == |customers| && forall k :: 0 <= k < |customers| ==> 1 <= res.value[k] <= 4
    ensures res.Err? ==> res.error.metric == metric
  {
    var col := Column(customers, metric);
    match DynamicQcut(col, LabelsOf(metric))
    case Err(cause) => Err(RfmError(metric, cause))
    case Ok(out) =>
      QcutLabelsBetween(col, Edges(col), LabelsOf(metric), out, 1, 4);
      Ok(out)
  }

  /** Bins Recency, Frequency and Monetary of the aggregated customers, in that order, and builds
      each customer's segment and score; fails on the first metric whose column has fewer than
      two distinct values. */
  function ScoreCustomers(customers: seq<CustomerMetrics>): (res: Result<seq<RfmRow>, RfmError>)
    ensures res.Ok? <==> AllSpread(customers)
    ensures res.Err? ==> !HasSpread(Column(customers, res.error.metric))
    ensures res.Ok? ==> 2 <= |res.value| == |customers|
    ensures res.Ok? ==> ScoredFrom(customers, res.value)
  {
    match BinMetric(customers, Recency)
    case Err(e) => Err(e)
    case Ok(rs) =>
      match BinMetric(customers, Frequency)
      case Err(e) => Err(e)
      case Ok(fs) =>
        match BinMetric(customers, Monetary)
        case Err(e) => Err(e)
        case Ok(ms) =>
          SpreadNeedsTwo(Column(customers, Recency));
          Ok(ScoreRows(customers, rs, fs, ms))
  }

  /** `_calculate_rfm`: aggregates the transactions per customer, then scores the customers. */
  function CalculateRfm(txns: seq<Transaction>): (res: Result<seq<RfmRow>, RfmError>)
    ensures res.Ok? <==> AllSpread(Aggregate(txns))
    ensures res.Err? ==> !HasSpread(Column(Aggregate(txns), res.error.metric))
    ensures res.Ok? ==> 2 <= |res.value| == |CustomerIds(txns)|
    ensures res.Ok? ==> ScoredFrom(Aggregate(txns), res.value)
  {
    ScoreCustomers(Aggregate(txns))
  }

  /** A column with two different values has at least two entries. */
  lemma SpreadNeedsTwo(column: seq<real>)
    requires HasSpread(column)
    ensures |column| >= 2
  {
  }

  /** Scores follow the metrics: a more recent customer never gets a lower R, and a customer with
      more transactions or a larger total never gets a lower F or M. */
  lemma {:induction false} ScoresMonotone(txns: seq<Transaction>, rows: seq<RfmRow>, i: int, j: int)
    requires CalculateRfm(txns) == Ok(rows)
    requires 0 <= i < |rows| && 0 <= j < |rows|
    ensures rows[i].metrics.recency <= rows[j].metrics.recency ==> rows[i].r >= rows[j].r
    ensures rows[i].metrics.frequency <= rows[j].metrics.frequency ==> rows[i].f <= rows[j].f
    ensures rows[i].metrics.monetary <= rows[j].metrics.monetary ==> rows[i].m <= rows[j].m
  {
    ScoredMonotone(Aggregate(txns), rows, i, j);
  }

  lemma ScoredMonotone(customers: seq<CustomerMetrics>, rows: seq<RfmRow>, i: int, j: int)
    requires ScoredFrom(customers, rows)
    requires 0 <= i < |rows| && 0 <= j < |rows|
    ensures rows[i].metrics.recency <= rows[j].metrics.recency ==> rows[i].r >= rows[j].r
    ensures rows[i].metrics.frequency <= rows[j].metrics.frequency ==> rows[i].f <= rows[j].f
    ensures rows[i].metrics.monetary <= rows[j].metrics.monetary ==> rows[i].m <= rows[j].m
  {
    LabelMonotone(customers, rows, Recency, i, j);
    LabelMonotone(customers, rows, Frequency, i, j);
    LabelMonotone(customers, rows, Monetary, i, j);
  }

  lemma LabelMonotone(customers: seq<CustomerMetrics>, rows: seq<RfmRow>, metric: Metric, i: int, j: int)
    requires |rows| == |customers|
    requires BinnedAs(customers, rows, metric)
    requires 0 <= i < |rows| && 0 <= j < |rows|
    ensures Column(customers, metric)[i] <= Column(customers, metric)[j] ==>
      if metric == Recency then Labels(rows, metric)[i] >= Labels(rows, metric)[j]
      else Labels(rows, metric)[i] <= Labels(rows, metric)[j]
  {
    var col := Column(customers, metric);
    LabelOrders();
    if col[i] <= col[j] {
      QcutMonotone(col, Edges(col), LabelsOf(metric), Labels(rows, metric), i, j);
    }
  }

  /** The top label always survives: a customer with the longest gap since the last purchase
      gets R = 1, and one with the most transactions or the largest total gets F = 4 or M = 4. */
  lemma ScoredExtremes(customers: seq<CustomerMetrics>, rows: seq<RfmRow>, k: int)
    requires ScoredFrom(customers, rows)
    requires 0 <= k < |rows|
    ensures (forall i :: 0 <= i < |rows| ==> rows[i].metrics.recency <= rows[k].metrics.recency) ==> rows[k].r == 1
    ensures (forall i :: 0 <= i < |rows| ==> rows[i].metrics.frequency <= rows[k].metrics.frequency) ==> rows[k].f == 4
    ensures (forall i :: 0 <= i < |rows| ==> rows[i].metrics.monetary <= rows[k].metrics.monetary) ==> rows[k].m == 4
  {
    var rc, fc, mc := Column(customers, Recency), Column(customers, Frequency), Column(customers, Monetary);
    if forall i :: 0 <= i < |rows| ==> rows[i].metrics.recency <= rows[k].metrics.recency {
      forall i | 0 <= i < |rows|
        ensures rc[i] <= rc[k]
      {
        assert rows[i].metrics.recency <= rows[k].metrics.recency;
      }
      TopLabel(customers, rows, Recency, k);
      assert Labels(rows, Recency)[k] == rows[k].r;
    }
    if forall i :: 0 <= i < |rows| ==> rows[i].metrics.frequency <= rows[k].metrics.frequency {
      forall i | 0 <= i < |rows|
        ensures fc[i] <= fc[k]
      {
        assert rows[i].metrics.frequency <= rows[k].metrics.frequency;
      }
      TopLabel(customers, rows, Frequency, k);
      assert Labels(rows, Frequency)[k] == rows[k].f;
    }
    if forall i :: 0 <= i < |rows| ==> rows[i].metrics.monetary <= rows[k].metrics.monetary {
      forall i | 0 <= i < |rows|
        ensures mc[i] <= mc[k]
      {
        assert rows[i].metrics.monetary <= rows[k].metrics.monetary;
      }
      TopLabel(customers, rows, Monetary, k);
      assert Labels(rows, Monetary)[k] == rows[k].m;
    }
  }

  /** A largest value of one metric's column gets that metric's last label. */
  lemma TopLabel(customers: seq<CustomerMetrics>, rows: seq<RfmRow>, metric: Metric, k: int)
    requires |rows| == |customers|
    requires BinnedAs(customers, rows, metric)
    requires 0 <= k < |rows|
    ensures (forall i :: 0 <= i < |rows| ==> Column(customers, metric)[i] <= Column(customers, metric)[k]) ==>
      Labels(rows, metric)[k] == LabelsOf(metric)[3]
  {
    var col := Column(customers, metric);
    if forall i :: 0 <= i < |rows| ==> col[i] <= col[k] {
      QcutTopLabel(col, Edges(col), LabelsOf(metric), Labels(rows, metric), k);
    }
  }
}
