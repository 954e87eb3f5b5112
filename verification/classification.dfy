/** Customer value classification: each customer's composite score placed in a status band
    around the mean score, and a description looked up for the status. */
module Classification {
  import opened RealSeqs
  import opened Scoring

  const Platinum: string := "Platinum"
  const Gold: string := "Altın"
  const Silver: string := "Gümüş"
  const Bronze: string := "Bronz"
  /** Returned for a status without a description. */
  const Undefined: string := "Tanımsız"

  /** The description of each status. */
  const Descriptions: map<string, string> := map[
    Platinum := "Yüksek değerli müşteri. Ortalamanın çok üzerinde sıklık ve para değeri.",
    Gold := "Orta değerli müşteri. Ortalamanın üzerinde sıklık ve para değeri.",
    Silver := "Düşük-orta değerli müşteri. Ortalamanın altında sıklık ve para değeri, ancak en düşük değil.",
    Bronze := "Düşük değerli müşteri. Ortalamanın çok altında sıklık ve para değeri."
  ]

  /** `_get_rfm_status`: the first band, from the top, that the score reaches. The result is always
      a described status; exactly the scores at or above `avg + std` are Platinum, and a score at or
      above the average is never Bronz, whatever the sign of `std`. */
  function GetRfmStatus(score: real, avg: real, std: real): (status: string)
    ensures status in Descriptions
    ensures status == Platinum <==> score >= avg + std
    ensures status == Bronze ==> score < avg
  {
    if score >= avg + std then Platinum
    else if avg + std > score >= avg then Gold
    else if avg > score >= avg - std then Silver
    else Bronze
  }

  /** With a non-negative spread the four statuses are the four half-open bands
      `[avg + std, oo)`, `[avg, avg + std)`, `[avg - std, avg)` and `(-oo, avg - std)`. */
  lemma StatusBands(score: real, avg: real, std: real)
    requires std >= 0.0
    ensures GetRfmStatus(score, avg, std) == Platinum <==> avg + std <= score
    ensures GetRfmStatus(score, avg, std) == Gold <==> avg <= score < avg + std
    ensures GetRfmStatus(score, avg, std) == Silver <==> avg - std <= score < avg
    ensures GetRfmStatus(score, avg, std) == Bronze <==> score < avg - std
  {
  }

  /** The position of a status in the ranking Bronz < Gümüş < Altın < Platinum. */
  function Rank(status: string): (r: int)
    requires status in Descriptions
    ensures 0 <= r <= 3
    ensures r == 3 <==> status == Platinum
    ensures r == 0 <==> status == Bronze
  {
    if status == Bronze then 0 else if status == Silver then 1 else if status == Gold then 2 else 3
  }

  /** A higher score never gets a lower status. */
  lemma StatusMonotone(s1: real, s2: real, avg: real, std: real)
    requires s1 <= s2
    ensures Rank(GetRfmStatus(s1, avg, std)) <= Rank(GetRfmStatus(s2, avg, std))
  {
  }

  /** `_get_rfm_description`: the status's description, or "Tanımsız" for any other string. */
  function Describe(status: string): (d: string)
    ensures status in Descriptions ==> d == Descriptions[status]
    ensures status !in Descriptions ==> d == Undefined
  {
    if status in Descriptions then Descriptions[status] else Undefined
  }

  /** The fallback is reached exactly for strings that are not a status: no status is described
      as "Tanımsız", and different statuses have different descriptions. */
  lemma DescribeDefined(status: string)
    ensures Describe(status) != Undefined <==> status in Descriptions
    ensures forall other :: other in Descriptions && status in Descriptions && other != status ==>
      Describe(other) != Describe(status)
  {
  }

  /** The arithmetic mean: `count` copies of it add up to the sum, and it lies between the smallest
      and the largest value. */
  function Mean(xs: seq<real>): (m: real)
    requires |xs| > 0
    ensures (|xs| as real) * m == Sum(xs)
    ensures Min(xs) <= m <= Max(xs)
  {
    MinMax(xs);
    SumBounds(xs, Min(xs), Max(xs));
    QuotientBounds(Sum(xs), |xs| as real, Min(xs), Max(xs));
    Sum(xs) / (|xs| as real)
  }

  /** Dividing `n * lo <= s <= n * hi` by a positive `n`. */
  lemma QuotientBounds(s: real, n: real, lo: real, hi: real)
    requires n > 0.0
    requires n * lo <= s <= n * hi
    ensures lo <= s / n <= hi
  {
    var q := s / n;
    assert q * n == s;
  }

  /** The composite scores of the rows, as reals. */
  function Scores(rows: seq<RfmRow>): (xs: seq<real>)
    ensures |xs| == |rows|
    ensures forall k :: 0 <= k < |rows| ==> xs[k] == rows[k].score as real
  {
    seq(|rows|, k requires 0 <= k < |rows| => rows[k].score as real)
  }

  /** A scored customer with its status and the description of that status. */
  datatype ValuedRow = ValuedRow(rfm: RfmRow, status: string, description: string)

  /** `calculate_customer_value`: classifies every row against the mean score and the given
      spread `std`, and attaches the description of its status. */
  function CalculateCustomerValue(rows: seq<RfmRow>, std: real): (out: seq<ValuedRow>)
    ensures |out| == |rows|
    ensures |rows| > 0 ==> forall k :: 0 <= k < |rows| ==>
      out[k].status == GetRfmStatus(rows[k].score as real, Mean(Scores(rows)), std)
    ensures forall k :: 0 <= k < |rows| ==>
      && out[k].rfm == rows[k]
      && out[k].status in Descriptions
      && out[k].description == Descriptions[out[k].status]
      && out[k].description != Undefined
  {
    if |rows| == 0 then []
    else
      var avg := Mean(Scores(rows));
      seq(|rows|, k requires 0 <= k < |rows| =>
        var status := GetRfmStatus(rows[k].score as real, avg, std);
        ValuedRow(rows[k], status, Describe(status)))
  }

  /** Statuses follow scores: a customer with a higher score never gets a lower status. */
  lemma ValueMonotone(rows: seq<RfmRow>, std: real, i: int, j: int)
    requires 0 <= i < |rows| && 0 <= j < |rows|
    requires rows[i].score <= rows[j].score
    ensures Rank(CalculateCustomerValue(rows, std)[i].status) <= Rank(CalculateCustomerValue(rows, std)[j].status)
  {
    var avg := Mean(Scores(rows));
    StatusMonotone(rows[i].score as real, rows[j].score as real, avg, std);
  }

  /** A customer with the highest score is at or above the mean, so is never Bronz or Gümüş. */
  lemma TopCustomerAtLeastGold(rows: seq<RfmRow>, std: real, k: int)
    requires 0 <= k < |rows|
    requires forall i :: 0 <= i < |rows| ==> rows[i].score <= rows[k].score
    ensures Rank(CalculateCustomerValue(rows, std)[k].status) >= 2
  {
    var xs := Scores(rows);
    MinMax(xs);
    var top :| 0 <= top < |xs| && xs[top] == Max(xs);
    assert Max(xs) <= xs[k];
  }
}
