/** Dynamic quartile binning: `qcut` boundaries with duplicates dropped, then `cut` with the
    label list right-aligned to the number of bins that survive. */
module Binning {
  import opened RealSeqs
  import opened Results

  /** Why a column could not be binned. */
  datatype BinningError =
    | EmptyColumn            // no values, hence no quantiles
    | InsufficientVariance   // fewer than two distinct boundaries, hence no bin

  // ---- Quartile boundaries (linear interpolation between order statistics) ----

  /** `a + (b - a) * (frac / 4)`: the point `frac` quarters of the way from `a` to `b`, one case per
      fraction so that the arithmetic stays linear. */
  function Lerp(a: real, b: real, frac: int): (r: real)
    requires 0 < frac < 4
    requires a <= b
    ensures a <= r <= b
    ensures frac == 1 ==> 4.0 * r == 3.0 * a + b
    ensures frac == 2 ==> 2.0 * r == a + b
    ensures frac == 3 ==> 4.0 * r == a + 3.0 * b
  {
    if frac == 1 then a + (b - a) / 4.0
    else if frac == 2 then a + (b - a) / 2.0
    else a + 3.0 * (b - a) / 4.0
  }

  /** A larger fraction moves the interpolated point no closer to `a`. */
  lemma LerpMonotone(a: real, b: real, f1: int, f2: int)
    requires 0 < f1 <= f2 < 4
    requires a <= b
    ensures Lerp(a, b, f1) <= Lerp(a, b, f2)
  {
    assert f1 == 1 || f1 == 2 || f1 == 3;
    assert f2 == 1 || f2 == 2 || f2 == 3;
  }

  /** The value of the sorted sample `s` at virtual index `h / 4`: the order statistic
      `s[h / 4]` when `h` is a multiple of 4, otherwise the linear interpolation between it and the next. */
  function ValueAt(s: seq<real>, h: int): (q: real)
    requires Sorted(s)
    requires 0 <= h <= 4 * (|s| - 1)
    ensures s[h / 4] <= q
    ensures h % 4 != 0 ==> h / 4 + 1 < |s| && q <= s[h / 4 + 1]
    ensures h % 4 == 0 ==> q == s[h / 4]
  {
    SortedPairs(s);
    var lo := h / 4;
    if h % 4 == 0 then s[lo] else Lerp(s[lo], s[lo + 1], h % 4)
  }

  /** The interpolated value never decreases as the virtual index grows. */
  lemma ValueAtMonotone(s: seq<real>, h1: int, h2: int)
    requires Sorted(s)
    requires 0 <= h1 <= h2 <= 4 * (|s| - 1)
    ensures ValueAt(s, h1) <= ValueAt(s, h2)
  {
    SortedPairs(s);
    var lo1, lo2 := h1 / 4, h2 / 4;
    if lo1 < lo2 {
      if h1 % 4 != 0 {
        assert ValueAt(s, h1) <= s[lo1 + 1] <= s[lo2];
      } else {
        assert ValueAt(s, h1) == s[lo1] <= s[lo2];
      }
    } else if h1 % 4 != 0 {
      assert h2 % 4 >= h1 % 4;
      LerpMonotone(s[lo1], s[lo1 + 1], h1 % 4, h2 % 4);
    }
  }

  /** `m * k` for `k` in 0..4, spelled out so that it stays linear: four times the virtual index
      of the `k`-th quartile of a sample whose last index is `m`. */
  function QuarterPosition(m: int, k: int): (h: int)
    requires m >= 0
    requires 0 <= k <= 4
    ensures 0 <= h <= 4 * m
    ensures k == 0 ==> h == 0
    ensures k == 4 ==> h == 4 * m
  {
    if k == 0 then 0 else if k == 1 then m else if k == 2 then 2 * m else if k == 3 then 3 * m else 4 * m
  }

  /** The `k`-th quartile (`k` in 0..4) of a sorted sample: virtual index `(|s| - 1) * k / 4`. */
  function Quartile(s: seq<real>, k: int): (q: real)
    requires Sorted(s)
    requires |s| > 0
    requires 0 <= k <= 4
    ensures s[0] <= q <= s[|s| - 1]
    ensures k == 0 ==> q == s[0]
    ensures k == 4 ==> q == s[|s| - 1]
  {
    SortedPairs(s);
    ValueAt(s, QuarterPosition(|s| - 1, k))
  }

  /** The virtual index of the `k`-th quartile, scaled by 4, is `(|s| - 1) * k`. */
  lemma QuarterPositionIs(m: int, k: int)
    requires m >= 0
    requires 0 <= k <= 4
    ensures QuarterPosition(m, k) == m * k
  {
  }

  /** The rank property of the `k`-th quartile. With the virtual index `p = (|s| - 1) * k / 4`, that is
      `h / 4` (see `QuarterPositionIs`): the `floor(p) + 1` smallest order statistics lie at or below it,
      and the `|s| - ceil(p)` largest lie at or above it. */
  lemma QuartileRank(s: seq<real>, k: int)
    requires Sorted(s)
    requires |s| > 0
    requires 0 <= k <= 4
    ensures var h, q := QuarterPosition(|s| - 1, k), Quartile(s, k);
      && (forall i :: 0 <= i <= h / 4 ==> s[i] <= q)
      && (forall i :: (h + 3) / 4 <= i < |s| ==> q <= s[i])
  {
    SortedPairs(s);
    var h := QuarterPosition(|s| - 1, k);
    if h % 4 != 0 {
      assert (h + 3) / 4 == h / 4 + 1;
    }
  }

  /** The value of the `k`-th quartile: the order statistic at a whole virtual index, otherwise the
      weighted average of the two order statistics around it, weighted by the fractional part. */
  lemma QuartileValue(s: seq<real>, k: int)
    requires Sorted(s)
    requires |s| > 0
    requires 0 <= k <= 4
    ensures var h, q := QuarterPosition(|s| - 1, k), Quartile(s, k);
      && (h % 4 == 0 ==> q == s[h / 4])
      && (h % 4 == 1 ==> h / 4 + 1 < |s| && 4.0 * q == 3.0 * s[h / 4] + s[h / 4 + 1])
      && (h % 4 == 2 ==> h / 4 + 1 < |s| && 2.0 * q == s[h / 4] + s[h / 4 + 1])
      && (h % 4 == 3 ==> h / 4 + 1 < |s| && 4.0 * q == s[h / 4] + 3.0 * s[h / 4 + 1])
  {
  }

  /** Quartile edges of a column: `quantile([0, .25, .5, .75, 1])` of its values, five ordered
      edges from its minimum to its maximum. */
  function QuartileEdges(column: seq<real>): (e: seq<real>)
    requires |column| > 0
    ensures |e| == 5
    ensures Sorted(e)
    ensures e[0] == Min(column) && e[4] == Max(column)
  {
    var s := Sort(column);
    SortEnds(column);
    QuartilesSorted(s);
    [Quartile(s, 0), Quartile(s, 1), Quartile(s, 2), Quartile(s, 3), Quartile(s, 4)]
  }

  /** The five quartiles of a sorted sample are in order. */
  lemma QuartilesSorted(s: seq<real>)
    requires Sorted(s)
    requires |s| > 0
    ensures Sorted([Quartile(s, 0), Quartile(s, 1), Quartile(s, 2), Quartile(s, 3), Quartile(s, 4)])
  {
    QuartileStep(s, 0);
    QuartileStep(s, 1);
    QuartileStep(s, 2);
    QuartileStep(s, 3);
    SortedFive(Quartile(s, 0), Quartile(s, 1), Quartile(s, 2), Quartile(s, 3), Quartile(s, 4));
  }

  /** Five values in order form a sorted sequence. */
  lemma SortedFive(q0: real, q1: real, q2: real, q3: real, q4: real)
    requires q0 <= q1 <= q2 <= q3 <= q4
    ensures Sorted([q0, q1, q2, q3, q4])
  {
    SortedCons(q3, [q4]);
    assert [q3] + [q4] == [q3, q4];
    SortedCons(q2, [q3, q4]);
    assert [q2] + [q3, q4] == [q2, q3, q4];
    SortedCons(q1, [q2, q3, q4]);
    assert [q1] + [q2, q3, q4] == [q1, q2, q3, q4];
    SortedCons(q0, [q1, q2, q3, q4]);
    assert [q0] + [q1, q2, q3, q4] == [q0, q1, q2, q3, q4];
  }

  /** Consecutive quartiles are ordered. */
  lemma QuartileStep(s: seq<real>, k: int)
    requires Sorted(s)
    requires |s| > 0
    requires 0 <= k < 4
    ensures Quartile(s, k) <= Quartile(s, k + 1)
  {
    var m := |s| - 1;
    ValueAtMonotone(s, QuarterPosition(m, k), QuarterPosition(m, k + 1));
  }

  // ---- Dropping duplicate boundaries ----

  /** The boundaries with repeated values dropped (`duplicates='drop'`); on sorted input,
      keeping the first of each run of equal values is the same as pandas' order-preserving unique. */
  function Unique(e: seq<real>): (u: seq<real>)
    requires Sorted(e)
    ensures StrictlyIncreasing(u)
    ensures |u| <= |e|
    ensures |e| > 0 ==> |u| > 0 && u[0] == e[0] && u[|u| - 1] == e[|e| - 1]
  {
    if |e| <= 1 then e
    else
      var rest := Unique(e[1..]);
      if e[0] == e[1] then rest
      else
        assert ([e[0]] + rest)[1..] == rest;
        [e[0]] + rest
  }

  /** Dropping duplicates loses no value and invents none. */
  lemma {:induction false} UniqueKeepsValues(e: seq<real>)
    requires Sorted(e)
    ensures forall x :: x in Unique(e) <==> x in e
  {
    if |e| > 1 {
      UniqueKeepsValues(e[1..]);
      assert e == [e[0]] + e[1..];
    }
  }

  /** The distinct quartile edges of a non-empty column: between one and five strictly increasing
      values, the first the column's minimum and the last its maximum. */
  function Edges(column: seq<real>): (e: seq<real>)
    requires |column| > 0
    ensures StrictlyIncreasing(e)
    ensures 1 <= |e| <= 5
    ensures e[0] == Min(column) && e[|e| - 1] == Max(column)
  {
    Unique(QuartileEdges(column))
  }

  // ---- Assigning values to bins ----

  /** `x` belongs to bin `b`, the interval `(edges[b], edges[b + 1]]`, widened to include
      `edges[0]` for the first bin (`include_lowest=True`). */
  predicate InBin(edges: seq<real>, b: int, x: real)
    requires 0 <= b < |edges| - 1
  {
    (edges[b] < x || (b == 0 && x == edges[0])) && x <= edges[b + 1]
  }

  /** `searchsorted(edges, x, side='left')`: the number of edges strictly below `x`. */
  function CountBelow(edges: seq<real>, x: real): (c: nat)
    requires Sorted(edges)
    ensures c <= |edges|
    ensures forall i :: 0 <= i < c ==> edges[i] < x
    ensures forall i :: c <= i < |edges| ==> x <= edges[i]
  {
    if |edges| == 0 then 0
    else if x <= edges[0] then SortedPairs(edges); 0
    else 1 + CountBelow(edges[1..], x)
  }

  /** pandas' bin code of `x` for `cut(..., right=True, include_lowest=True)`: a value in
      `1 .. |edges| - 1` names bin `code - 1`; `0` and `|edges|` mean "outside every bin". */
  function CutCode(edges: seq<real>, x: real): (code: nat)
    requires StrictlyIncreasing(edges)
    requires |edges| > 0
    ensures code <= |edges|
    ensures 0 < code < |edges| <==> |edges| >= 2 && edges[0] <= x <= edges[|edges| - 1]
    ensures 0 < code < |edges| ==> InBin(edges, code - 1, x)
  {
    IncreasingIsSorted(edges);
    IncreasingPairs(edges);
    if x == edges[0] then 1 else CountBelow(edges, x)
  }

  /** Bins are ordered like the values they hold. */
  lemma BinOrder(edges: seq<real>, b1: int, b2: int, x: real, y: real)
    requires StrictlyIncreasing(edges)
    requires 0 <= b1 < |edges| - 1 && 0 <= b2 < |edges| - 1
    requires InBin(edges, b1, x) && InBin(edges, b2, y)
    requires x <= y
    ensures b1 <= b2
  {
    IncreasingPairs(edges);
  }

  /** The last edge lies in the last bin only. */
  lemma LastBinOnly(edges: seq<real>, b: int)
    requires StrictlyIncreasing(edges)
    requires 0 <= b < |edges| - 1
    requires InBin(edges, b, edges[|edges| - 1])
    ensures b == |edges| - 2
  {
    IncreasingPairs(edges);
  }

  /** `pd.cut(x, bins=edges, labels=used, include_lowest=True)` on one value: the label of its bin,
      or nothing (NaN) when it lies outside `[edges[0], edges[|edges| - 1]]`. */
  function CutLabel(edges: seq<real>, used: seq<int>, x: real): (r: Option<int>)
    requires StrictlyIncreasing(edges)
    requires |used| == |edges| - 1
    ensures r.Some? <==> |edges| >= 2 && edges[0] <= x <= edges[|edges| - 1]
    ensures r.Some? ==> r.value == used[Bin(edges, x)]
  {
    var code := CutCode(edges, x);
    if code == 0 || code == |edges| then None else Some(used[code - 1])
  }

  /** The bin holding a value within the edges: the one bin `b` with `InBin(edges, b, x)`. */
  function Bin(edges: seq<real>, x: real): (b: int)
    requires StrictlyIncreasing(edges)
    requires |edges| >= 2 && edges[0] <= x <= edges[|edges| - 1]
    ensures 0 <= b < |edges| - 1
    ensures InBin(edges, b, x)
  {
    CutCode(edges, x) - 1
  }

  /** `labels[-n:]` for `1 <= n <= |labels|`: the last `n` labels, so only leading labels are dropped. */
  function RightAlign(labels: seq<int>, n: int): (used: seq<int>)
    requires 1 <= n <= |labels|
    ensures |used| == n
    ensures forall i :: 0 <= i < n ==> used[i] == labels[|labels| - n + i]
    ensures used[n - 1] == labels[|labels| - 1]
  {
    labels[|labels| - n..]
  }

  /** The column holds two different values. */
  predicate HasSpread(column: seq<real>)
  {
    exists i, j :: 0 <= i < |column| && 0 <= j < |column| && column[i] < column[j]
  }

  /** A column can be binned exactly when it holds two different values: its edges run from its
      minimum to its maximum, so at least two of them are distinct exactly then. */
  lemma SpreadIffTwoEdges(column: seq<real>)
    requires |column| > 0
    ensures HasSpread(column) <==> |Edges(column)| >= 2
  {
    var e := Edges(column);
    MinMax(column);
    if HasSpread(column) {
      var i, j :| 0 <= i < |column| && 0 <= j < |column| && column[i] < column[j];
      assert e[0] <= column[i] < column[j] <= e[|e| - 1];
    }
    if |e| >= 2 {
      IncreasingPairs(e);
      var i :| 0 <= i < |column| && column[i] == Min(column);
      var j :| 0 <= j < |column| && column[j] == Max(column);
      assert column[i] < column[j];
    }
  }

  /** Cuts every value of a column that lies within the edges. */
  function CutAll(edges: seq<real>, used: seq<int>, column: seq<real>): (labelled: seq<int>)
    requires StrictlyIncreasing(edges)
    requires |used| == |edges| - 1 >= 1
    requires Bounded(column, edges[0], edges[|edges| - 1])
    ensures |labelled| == |column|
    ensures forall k :: 0 <= k < |column| ==> CutLabel(edges, used, column[k]) == Some(labelled[k])
  {
    seq(|column|, k requires 0 <= k < |column| => CutLabel(edges, used, column[k]).value)
  }

  /** `out` labels `column` value by value with strictly increasing `edges` that run from the
      column's minimum to its maximum: each value gets the label of its bin among the last
      `|edges| - 1` labels. */
  predicate BinnedBy(column: seq<real>, edges: seq<real>, labels: seq<int>, out: seq<int>)
    requires |labels| == 4
  {
    && |column| > 0
    && StrictlyIncreasing(edges)
    && 2 <= |edges| <= 5
    && edges[0] == Min(column)
    && edges[|edges| - 1] == Max(column)
    && |out| == |column|
    && forall k :: 0 <= k < |column| ==>
         CutLabel(edges, RightAlign(labels, |edges| - 1), column[k]) == Some(out[k])
  }

  /** Labels every value of `column` with the label of its quartile bin; bins whose boundaries
      coincide are merged and the label list is right-aligned to the bins that remain. */
  function DynamicQcut(column: seq<real>, labels: seq<int>): (r: Result<seq<int>, BinningError>)
    requires |labels| == 4
    ensures r.Ok? <==> HasSpread(column)
    ensures r == Err(EmptyColumn) <==> |column| == 0
    ensures r.Ok? ==> BinnedBy(column, Edges(column), labels, r.value)
  {
    if |column| == 0 then Err(EmptyColumn)
    else
      var e := Edges(column);
      SpreadIffTwoEdges(column);
      if |e| < 2 then Err(InsufficientVariance)
      else
        MinMax(column);
        var out := CutAll(e, RightAlign(labels, |e| - 1), column);
        assert BinnedBy(column, e, labels, out);
        Ok(out)
  }

  /** `DynamicQcut` succeeds with `out` exactly when the column has spread and `out` is the
      column binned by its quartile edges: the binning is fully determined by the edges. */
  lemma QcutCharacterized(column: seq<real>, labels: seq<int>, out: seq<int>)
    requires |labels| == 4
    ensures DynamicQcut(column, labels) == Ok(out) <==>
      HasSpread(column) && BinnedBy(column, Edges(column), labels, out)
  {
    if HasSpread(column) && BinnedBy(column, Edges(column), labels, out) {
      var other := DynamicQcut(column, labels).value;
      BinnedByUnique(column, Edges(column), labels, out, other);
    }
  }

  /** The edges determine the labels: two binnings of a column by the same edges agree. */
  lemma BinnedByUnique(column: seq<real>, edges: seq<real>, labels: seq<int>, out1: seq<int>, out2: seq<int>)
    requires |labels| == 4
    requires BinnedBy(column, edges, labels, out1)
    requires BinnedBy(column, edges, labels, out2)
    ensures out1 == out2
  {
    forall k | 0 <= k < |column|
      ensures out1[k] == out2[k]
    {
      assert Some(out1[k]) == Some(out2[k]);
    }
  }

  /** Labels in non-decreasing order, like `[1, 2, 3, 4]`. */
  predicate Ascending(labels: seq<int>)
  {
    forall a, b :: 0 <= a < b < |labels| ==> labels[a] <= labels[b]
  }

  /** Labels in non-increasing order, like `[4, 3, 2, 1]`. */
  predicate Descending(labels: seq<int>)
  {
    forall a, b :: 0 <= a < b < |labels| ==> labels[a] >= labels[b]
  }

  /** The bin holding a value that was labelled, and the label it carries. */
  lemma BinOf(edges: seq<real>, labels: seq<int>, x: real, got: int) returns (b: int)
    requires |labels| == 4
    requires StrictlyIncreasing(edges)
    requires 2 <= |edges| <= 5
    requires CutLabel(edges, RightAlign(labels, |edges| - 1), x) == Some(got)
    ensures 0 <= b < |edges| - 1
    ensures InBin(edges, b, x)
    ensures got == labels[5 - |edges| + b]
  {
    b := Bin(edges, x);
    assert RightAlign(labels, |edges| - 1)[b] == labels[5 - |edges| + b];
  }

  /** Every label handed out is one of the supplied labels. */
  lemma QcutLabelsFrom(column: seq<real>, edges: seq<real>, labels: seq<int>, out: seq<int>)
    requires |labels| == 4
    requires BinnedBy(column, edges, labels, out)
    ensures forall k :: 0 <= k < |out| ==> out[k] in labels
  {
    forall k | 0 <= k < |out|
      ensures out[k] in labels
    {
      var b := BinOf(edges, labels, column[k], out[k]);
    }
  }

  /** Every value gets a label between the smallest and the largest label offered. */
  lemma QcutLabelsBetween(column: seq<real>, edges: seq<real>, labels: seq<int>, out: seq<int>, lo: int, hi: int)
    requires |labels| == 4
    requires BinnedBy(column, edges, labels, out)
    requires forall i :: 0 <= i < 4 ==> lo <= labels[i] <= hi
    ensures |out| == |column|
    ensures forall k :: 0 <= k < |out| ==> lo <= out[k] <= hi
  {
    forall k | 0 <= k < |out|
      ensures lo <= out[k] <= hi
    {
      var b := BinOf(edges, labels, column[k], out[k]);
    }
  }

  /** Binning is monotone: with ascending labels a larger value never gets a smaller label,
      with descending labels never a larger one. */
  lemma QcutMonotone(column: seq<real>, edges: seq<real>, labels: seq<int>, out: seq<int>, i: int, j: int)
    requires |labels| == 4
    requires BinnedBy(column, edges, labels, out)
    requires 0 <= i < |column| && 0 <= j < |column|
    requires column[i] <= column[j]
    ensures Ascending(labels) ==> out[i] <= out[j]
    ensures Descending(labels) ==> out[i] >= out[j]
  {
    LabelsMonotone(edges, labels, column[i], column[j], out[i], out[j]);
  }

  /** The same for two labelled values and any strictly increasing edges. */
  lemma LabelsMonotone(edges: seq<real>, labels: seq<int>, x: real, y: real, lx: int, ly: int)
    requires |labels| == 4
    requires StrictlyIncreasing(edges)
    requires 2 <= |edges| <= 5
    requires CutLabel(edges, RightAlign(labels, |edges| - 1), x) == Some(lx)
    requires CutLabel(edges, RightAlign(labels, |edges| - 1), y) == Some(ly)
    requires x <= y
    ensures Ascending(labels) ==> lx <= ly
    ensures Descending(labels) ==> lx >= ly
  {
    var bi := BinOf(edges, labels, x, lx);
    var bj := BinOf(edges, labels, y, ly);
    BinOrder(edges, bi, bj, x, y);
  }

  /** A largest value of the column always gets the last label, whatever bins survived. */
  lemma QcutTopLabel(column: seq<real>, edges: seq<real>, labels: seq<int>, out: seq<int>, k: int)
    requires |labels| == 4
    requires BinnedBy(column, edges, labels, out)
    requires 0 <= k < |column|
    requires forall i :: 0 <= i < |column| ==> column[i] <= column[k]
    ensures out[k] == labels[3]
  {
    MinMax(column);
    var hi :| 0 <= hi < |column| && column[hi] == Max(column);
    var b := BinOf(edges, labels, column[k], out[k]);
    LastBinOnly(edges, b);
  }

  /** A smallest value of the column gets the first label that survived the right-alignment
      (`include_lowest=True` keeps it in the first bin). */
  lemma QcutBottomLabel(column: seq<real>, edges: seq<real>, labels: seq<int>, out: seq<int>, k: int)
    requires |labels| == 4
    requires BinnedBy(column, edges, labels, out)
    requires 0 <= k < |column|
    requires forall i :: 0 <= i < |column| ==> column[k] <= column[i]
    ensures out[k] == labels[5 - |edges|]
  {
    MinMax(column);
    var lo :| 0 <= lo < |column| && column[lo] == Min(column);
    var b := BinOf(edges, labels, column[k], out[k]);
    FirstBinOnly(edges, b);
  }

  /** The first edge lies in the first bin only. */
  lemma FirstBinOnly(edges: seq<real>, b: int)
    requires StrictlyIncreasing(edges)
    requires 0 <= b < |edges| - 1
    requires InBin(edges, b, edges[0])
    ensures b == 0
  {
    IncreasingPairs(edges);
  }
}
