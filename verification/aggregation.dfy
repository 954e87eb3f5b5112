/** Per-customer aggregation of the transaction table into Recency, Frequency and Monetary. */
module Aggregation {
  import opened RealSeqs

  /** Customer identifiers are opaque keys. */
  type CustomerId = string

  /** Timestamps are datetime64 values: integer nanoseconds since the epoch. */
  const NanosPerDay: int := 86_400_000_000_000

  /** One input row: customer, transaction time, transaction identifier and amount. */
  datatype Transaction = Transaction(id: CustomerId, timestamp: int, txnId: int, amount: real)

  /** One aggregated row per customer. */
  datatype CustomerMetrics = CustomerMetrics(id: CustomerId, recency: int, frequency: nat, monetary: real)

  /** Some transaction belongs to customer `id`. */
  predicate HasCustomer(txns: seq<Transaction>, id: CustomerId)
  {
    exists i :: 0 <= i < |txns| && txns[i].id == id
  }

  /** No identifier is listed twice. */
  predicate Distinct(ids: seq<CustomerId>)
  {
    forall i, j :: 0 <= i < j < |ids| ==> ids[i] != ids[j]
  }

  /** The distinct customer identifiers, in order of first appearance. */
  function CustomerIds(txns: seq<Transaction>): (ids: seq<CustomerId>)
    ensures Distinct(ids)
    ensures forall id :: id in ids <==> HasCustomer(txns, id)
  {
    if |txns| == 0 then []
    else
      var init := txns[..|txns| - 1];
      var last := txns[|txns| - 1];
      var prev := CustomerIds(init);
      assert forall id :: HasCustomer(txns, id) <==> HasCustomer(init, id) || last.id == id by {
        forall id
          ensures HasCustomer(txns, id) <==> HasCustomer(init, id) || last.id == id
        {
          if HasCustomer(init, id) {
            var i :| 0 <= i < |init| && init[i].id == id;
            assert txns[i].id == id;
          }
          if HasCustomer(txns, id) && last.id != id {
            var i :| 0 <= i < |txns| && txns[i].id == id;
            assert init[i].id == id;
          }
        }
      }
      if last.id in prev then prev else prev + [last.id]
  }

  /** The rows of customer `id`, in input order: the group `groupby('id')` hands to `agg`. */
  function Group(txns: seq<Transaction>, id: CustomerId): (g: seq<Transaction>)
    ensures |g| <= |txns|
    ensures forall i :: 0 <= i < |g| ==> g[i].id == id
  {
    if |txns| == 0 then []
    else (if txns[0].id == id then [txns[0]] else []) + Group(txns[1..], id)
  }

  /** A group holds exactly the customer's transactions. */
  lemma {:induction false} GroupMembers(txns: seq<Transaction>, id: CustomerId)
    ensures forall t :: t in Group(txns, id) <==> t in txns && t.id == id
  {
    if |txns| > 0 {
      GroupMembers(txns[1..], id);
      assert txns == [txns[0]] + txns[1..];
    }
  }

  /** A group holds each of the customer's transactions as often as the table does, so identical
      rows are all counted. */
  lemma {:induction false} GroupMultiplicity(txns: seq<Transaction>, id: CustomerId)
    ensures forall t :: multiset(Group(txns, id))[t] == if t.id == id then multiset(txns)[t] else 0
  {
    if |txns| > 0 {
      GroupMultiplicity(txns[1..], id);
      assert txns == [txns[0]] + txns[1..];
    }
  }

  /** A customer's group is empty exactly when the customer has no transaction. */
  lemma GroupNonEmpty(txns: seq<Transaction>, id: CustomerId)
    ensures |Group(txns, id)| > 0 <==> HasCustomer(txns, id)
  {
    var g := Group(txns, id);
    GroupMembers(txns, id);
    if |g| > 0 {
      assert g[0] in txns;
    }
    if HasCustomer(txns, id) {
      var i :| 0 <= i < |txns| && txns[i].id == id;
      assert txns[i] in g;
    }
  }

  /** The latest timestamp of a non-empty table (`max()` of the date column). */
  function MaxTimestamp(txns: seq<Transaction>): (latest: int)
    requires |txns| > 0
    ensures forall i :: 0 <= i < |txns| ==> txns[i].timestamp <= latest
    ensures exists i :: 0 <= i < |txns| && txns[i].timestamp == latest
  {
    if |txns| == 1 then txns[0].timestamp
    else
      var rest := MaxTimestamp(txns[1..]);
      assert forall i :: 1 <= i < |txns| ==> txns[i] == txns[1..][i - 1];
      if txns[0].timestamp >= rest then txns[0].timestamp else rest
  }

  /** The amounts of the given rows. */
  function Amounts(txns: seq<Transaction>): (xs: seq<real>)
    ensures |xs| == |txns|
    ensures forall i :: 0 <= i < |txns| ==> xs[i] == txns[i].amount
  {
    seq(|txns|, i requires 0 <= i < |txns| => txns[i].amount)
  }

  /** Whole days from `earlier` to `later`, rounded down like `Timedelta.days`. */
  function DaysBetween(later: int, earlier: int): (days: int)
    ensures later >= earlier ==> days >= 0
    ensures days * NanosPerDay <= later - earlier < (days + 1) * NanosPerDay
  {
    (later - earlier) / NanosPerDay
  }

  /** Aggregates one customer's group against the global latest timestamp. */
  function Summarize(group: seq<Transaction>, latest: int): (row: CustomerMetrics)
    requires |group| > 0
    requires forall i :: 0 <= i < |group| ==> group[i].timestamp <= latest
    ensures row.id == group[0].id
    ensures row.recency >= 0
    ensures row.frequency == |group| >= 1
    ensures row.monetary == Sum(Amounts(group))
    ensures exists i :: 0 <= i < |group| && row.recency == DaysBetween(latest, group[i].timestamp)
    ensures forall i :: 0 <= i < |group| ==> row.recency <= DaysBetween(latest, group[i].timestamp)
  {
    var own := MaxTimestamp(group);
    assert forall i :: 0 <= i < |group| ==> DaysBetween(latest, own) <= DaysBetween(latest, group[i].timestamp) by {
      forall i | 0 <= i < |group|
        ensures DaysBetween(latest, own) <= DaysBetween(latest, group[i].timestamp)
      {
        DaysMonotone(latest, own, group[i].timestamp);
      }
    }
    CustomerMetrics(group[0].id, DaysBetween(latest, own), |group|, Sum(Amounts(group)))
  }

  /** A later own timestamp never gives more days to the global latest one. */
  lemma DaysMonotone(latest: int, a: int, b: int)
    requires b <= a
    ensures DaysBetween(latest, a) <= DaysBetween(latest, b)
  {
  }

  /** Customer `id`'s row: Frequency counts its rows, Monetary adds its amounts, and Recency is
      the day count from `latest` to its own most recent row. */
  predicate DescribesCustomer(txns: seq<Transaction>, latest: int, id: CustomerId, row: CustomerMetrics)
  {
    && row.id == id
    && row.frequency == |Group(txns, id)|
    && row.monetary == Sum(Amounts(Group(txns, id)))
    && (forall i :: 0 <= i < |txns| && txns[i].id == id ==> row.recency <= DaysBetween(latest, txns[i].timestamp))
    && (exists i :: 0 <= i < |txns| && txns[i].id == id && row.recency == DaysBetween(latest, txns[i].timestamp))
  }

  /** A present customer's group is non-empty and none of its rows is later than `latest`. */
  lemma GroupWithin(txns: seq<Transaction>, id: CustomerId, latest: int)
    requires HasCustomer(txns, id)
    requires forall i :: 0 <= i < |txns| ==> txns[i].timestamp <= latest
    ensures |Group(txns, id)| > 0 && Group(txns, id)[0].id == id
    ensures forall i :: 0 <= i < |Group(txns, id)| ==> Group(txns, id)[i].timestamp <= latest
  {
    GroupNonEmpty(txns, id);
    GroupMembers(txns, id);
    var g := Group(txns, id);
    assert forall i :: 0 <= i < |g| ==> g[i] in txns;
    assert g[0] in g;
  }

  /** The summary of a customer's group describes that customer in terms of the whole table. */
  lemma SummarizeDescribes(txns: seq<Transaction>, latest: int, id: CustomerId)
    requires HasCustomer(txns, id)
    requires forall i :: 0 <= i < |txns| ==> txns[i].timestamp <= latest
    ensures |Group(txns, id)| > 0
    ensures forall i :: 0 <= i < |Group(txns, id)| ==> Group(txns, id)[i].timestamp <= latest
    ensures DescribesCustomer(txns, latest, id, Summarize(Group(txns, id), latest))
  {
    GroupWithin(txns, id, latest);
    GroupMembers(txns, id);
    var g := Group(txns, id);
    var row := Summarize(g, latest);
    forall i | 0 <= i < |txns| && txns[i].id == id
      ensures row.recency <= DaysBetween(latest, txns[i].timestamp)
    {
      assert txns[i] in g;
      var j :| 0 <= j < |g| && g[j] == txns[i];
    }
    var j :| 0 <= j < |g| && row.recency == DaysBetween(latest, g[j].timestamp);
    assert g[j] in txns;
    var i :| 0 <= i < |txns| && txns[i] == g[j];
    assert txns[i].id == id && row.recency == DaysBetween(latest, txns[i].timestamp);
  }

  /** One row per listed customer, each aggregated from that customer's group. */
  function SummarizeAll(txns: seq<Transaction>, ids: seq<CustomerId>, latest: int): (rows: seq<CustomerMetrics>)
    requires forall k :: 0 <= k < |ids| ==> HasCustomer(txns, ids[k])
    requires forall i :: 0 <= i < |txns| ==> txns[i].timestamp <= latest
    ensures |rows| == |ids|
    ensures forall k :: 0 <= k < |ids| ==> rows[k].id == ids[k] && rows[k].recency >= 0 && rows[k].frequency >= 1
  {
    if |ids| == 0 then []
    else
      GroupWithin(txns, ids[0], latest);
      [Summarize(Group(txns, ids[0]), latest)] + SummarizeAll(txns, ids[1..], latest)
  }

  /** The `k`-th summary describes the `k`-th listed customer. */
  lemma {:induction false} SummarizeAllDescribes(txns: seq<Transaction>, ids: seq<CustomerId>, latest: int, k: int)
    requires forall j :: 0 <= j < |ids| ==> HasCustomer(txns, ids[j])
    requires forall i :: 0 <= i < |txns| ==> txns[i].timestamp <= latest
    requires 0 <= k < |ids|
    ensures DescribesCustomer(txns, latest, ids[k], SummarizeAll(txns, ids, latest)[k])
  {
    if k == 0 {
      SummarizeDescribes(txns, latest, ids[0]);
    } else {
      SummarizeAllDescribes(txns, ids[1..], latest, k - 1);
      assert ids[1..][k - 1] == ids[k];
    }
  }

  /** `groupby('id').agg(...)`: one row per distinct customer, in order of first appearance, with
      Recency measured from the latest timestamp of the whole table. */
  function Aggregate(txns: seq<Transaction>): (rows: seq<CustomerMetrics>)
    ensures |rows| == |CustomerIds(txns)|
    ensures |txns| > 0 ==> forall k :: 0 <= k < |rows| ==>
      DescribesCustomer(txns, MaxTimestamp(txns), CustomerIds(txns)[k], rows[k])
    ensures forall k :: 0 <= k < |rows| ==> rows[k].recency >= 0 && rows[k].frequency >= 1
  {
    if |txns| == 0 then []
    else
      var ids := CustomerIds(txns);
      var latest := MaxTimestamp(txns);
      var rows := SummarizeAll(txns, ids, latest);
      assert forall k :: 0 <= k < |rows| ==> DescribesCustomer(txns, latest, ids[k], rows[k]) by {
        forall k | 0 <= k < |rows|
          ensures DescribesCustomer(txns, latest, ids[k], rows[k])
        {
          SummarizeAllDescribes(txns, ids, latest, k);
        }
      }
      rows
  }

  /** The aggregated table has exactly one row per customer: no identifier twice, and a row for
      every identifier that occurs in the input and for no other. */
  lemma AggregateOneRowPerCustomer(txns: seq<Transaction>)
    ensures forall i, j :: 0 <= i < j < |Aggregate(txns)| ==> Aggregate(txns)[i].id != Aggregate(txns)[j].id
    ensures forall id :: HasCustomer(txns, id) <==> exists k :: 0 <= k < |Aggregate(txns)| && Aggregate(txns)[k].id == id
  {
    var rows := Aggregate(txns);
    var ids := CustomerIds(txns);
    if |txns| > 0 {
      assert forall k :: 0 <= k < |rows| ==> rows[k].id == ids[k] by {
        forall k | 0 <= k < |rows|
          ensures rows[k].id == ids[k]
        {
          assert DescribesCustomer(txns, MaxTimestamp(txns), ids[k], rows[k]);
        }
      }
      forall id | HasCustomer(txns, id)
        ensures exists k :: 0 <= k < |rows| && rows[k].id == id
      {
        assert id in ids;
        var k :| 0 <= k < |ids| && ids[k] == id;
        assert rows[k].id == id;
      }
      forall id | exists k :: 0 <= k < |rows| && rows[k].id == id
        ensures HasCustomer(txns, id)
      {
        var k :| 0 <= k < |rows| && rows[k].id == id;
        assert ids[k] in ids;
      }
    }
  }

  // ---- Conservation: the aggregation neither loses nor duplicates rows or amounts ----

  /** Total Frequency of a table of aggregated rows. */
  function TotalFrequency(rows: seq<CustomerMetrics>): int
  {
    if |rows| == 0 then 0 else rows[0].frequency + TotalFrequency(rows[1..])
  }

  /** Total Monetary of a table of aggregated rows. */
  function TotalMonetary(rows: seq<CustomerMetrics>): real
  {
    if |rows| == 0 then 0.0 else rows[0].monetary + TotalMonetary(rows[1..])
  }

  /** Sizes of the listed customers' groups, added up. */
  function GroupSizes(txns: seq<Transaction>, ids: seq<CustomerId>): int
  {
    if |ids| == 0 then 0 else |Group(txns, ids[0])| + GroupSizes(txns, ids[1..])
  }

  /** Amounts of the listed customers' groups, added up. */
  function GroupTotals(txns: seq<Transaction>, ids: seq<CustomerId>): real
  {
    if |ids| == 0 then 0.0 else Sum(Amounts(Group(txns, ids[0]))) + GroupTotals(txns, ids[1..])
  }

  /** Dropping the first transaction shrinks exactly one listed group, and by one row. */
  lemma {:induction false} GroupSizesStep(txns: seq<Transaction>, ids: seq<CustomerId>)
    requires |txns| > 0
    requires Distinct(ids)
    ensures GroupSizes(txns, ids) == (if txns[0].id in ids then 1 else 0) + GroupSizes(txns[1..], ids)
  {
    if |ids| > 0 {
      assert Distinct(ids[1..]);
      GroupSizesStep(txns, ids[1..]);
      assert txns[0].id in ids <==> txns[0].id == ids[0] || txns[0].id in ids[1..];
    }
  }

  /** The first transaction adds its amount to its own customer's total and to no other. */
  lemma GroupTotalFirst(txns: seq<Transaction>, id: CustomerId)
    requires |txns| > 0
    ensures Sum(Amounts(Group(txns, id))) ==
      (if txns[0].id == id then txns[0].amount else 0.0) + Sum(Amounts(Group(txns[1..], id)))
  {
    var g' := Group(txns[1..], id);
    if txns[0].id == id {
      assert Group(txns, id) == [txns[0]] + g';
      var xs := Amounts([txns[0]] + g');
      assert xs[0] == txns[0].amount && xs[1..] == Amounts(g');
      assert Sum(xs) == xs[0] + Sum(xs[1..]);
    } else {
      assert Group(txns, id) == [] + g';
      assert [] + g' == g';
    }
  }

  /** Dropping the first transaction removes its amount from exactly one listed group. */
  lemma {:induction false} GroupTotalsStep(txns: seq<Transaction>, ids: seq<CustomerId>)
    requires |txns| > 0
    requires Distinct(ids)
    ensures GroupTotals(txns, ids) == (if txns[0].id in ids then txns[0].amount else 0.0) + GroupTotals(txns[1..], ids)
  {
    if |ids| > 0 {
      assert Distinct(ids[1..]);
      GroupTotalsStep(txns, ids[1..]);
      GroupTotalFirst(txns, ids[0]);
      assert txns[0].id in ids <==> txns[0].id == ids[0] || txns[0].id in ids[1..];
    }
  }

  /** Over a duplicate-free list that covers every customer, group sizes add up to the row count. */
  lemma {:induction false} GroupSizesCover(txns: seq<Transaction>, ids: seq<CustomerId>)
    requires Distinct(ids)
    requires forall i :: 0 <= i < |txns| ==> txns[i].id in ids
    ensures GroupSizes(txns, ids) == |txns|
  {
    if |txns| == 0 {
      GroupsOfEmpty(ids);
    } else {
      GroupSizesStep(txns, ids);
      GroupSizesCover(txns[1..], ids);
    }
  }

  /** Over a duplicate-free list that covers every customer, group totals add up to the table total. */
  lemma {:induction false} GroupTotalsCover(txns: seq<Transaction>, ids: seq<CustomerId>)
    requires Distinct(ids)
    requires forall i :: 0 <= i < |txns| ==> txns[i].id in ids
    ensures GroupTotals(txns, ids) == Sum(Amounts(txns))
  {
    if |txns| == 0 {
      GroupsOfEmpty(ids);
    } else {
      GroupTotalsStep(txns, ids);
      GroupTotalsCover(txns[1..], ids);
      assert Amounts(txns) == [txns[0].amount] + Amounts(txns[1..]);
    }
  }

  lemma {:induction false} GroupsOfEmpty(ids: seq<CustomerId>)
    ensures GroupSizes([], ids) == 0 && GroupTotals([], ids) == 0.0
  {
    if |ids| > 0 {
      GroupsOfEmpty(ids[1..]);
    }
  }

  lemma {:induction false} SummarizeAllTotals(txns: seq<Transaction>, ids: seq<CustomerId>, latest: int)
    requires forall k :: 0 <= k < |ids| ==> HasCustomer(txns, ids[k])
    requires forall i :: 0 <= i < |txns| ==> txns[i].timestamp <= latest
    ensures TotalFrequency(SummarizeAll(txns, ids, latest)) == GroupSizes(txns, ids)
    ensures TotalMonetary(SummarizeAll(txns, ids, latest)) == GroupTotals(txns, ids)
  {
    if |ids| > 0 {
      SummarizeAllTotals(txns, ids[1..], latest);
      var rows := SummarizeAll(txns, ids, latest);
      assert rows[1..] == SummarizeAll(txns, ids[1..], latest);
    }
  }

  /** Every input row is counted in exactly one customer's Frequency. */
  lemma AggregateConservesCount(txns: seq<Transaction>)
    ensures TotalFrequency(Aggregate(txns)) == |txns|
  {
    if |txns| > 0 {
      var ids := CustomerIds(txns);
      SummarizeAllTotals(txns, ids, MaxTimestamp(txns));
      assert forall i :: 0 <= i < |txns| ==> txns[i].id in ids;
      GroupSizesCover(txns, ids);
    }
  }

  /** Every input amount is counted in exactly one customer's Monetary. */
  lemma AggregateConservesAmount(txns: seq<Transaction>)
    ensures TotalMonetary(Aggregate(txns)) == Sum(Amounts(txns))
  {
    if |txns| > 0 {
      var ids := CustomerIds(txns);
      SummarizeAllTotals(txns, ids, MaxTimestamp(txns));
      assert forall i :: 0 <= i < |txns| ==> txns[i].id in ids;
      GroupTotalsCover(txns, ids);
    }
  }
}
