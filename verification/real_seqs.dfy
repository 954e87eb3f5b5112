/** Facts about sequences of reals: sums, order and an insertion sort. */
module RealSeqs {

  /** Sum of the elements, left to right. */
  function Sum(xs: seq<real>): real
  {
    if |xs| == 0 then 0.0 else xs[0] + Sum(xs[1..])
  }

  /** Non-decreasing order, stated on neighbours so that it unfolds one step at a time. */
  predicate Sorted(xs: seq<real>)
  {
    |xs| < 2 || (xs[0] <= xs[1] && Sorted(xs[1..]))
  }

  /** Strictly increasing order: sorted and without repeated values. */
  predicate StrictlyIncreasing(xs: seq<real>)
  {
    |xs| < 2 || (xs[0] < xs[1] && StrictlyIncreasing(xs[1..]))
  }

  /** A sorted sequence is ordered between any two positions, not only neighbours. */
  lemma {:induction false} SortedPairs(xs: seq<real>)
    requires Sorted(xs)
    ensures forall i, j :: 0 <= i < j < |xs| ==> xs[i] <= xs[j]
  {
    if |xs| >= 2 {
      var t := xs[1..];
      SortedPairs(t);
      forall i, j | 0 <= i < j < |xs|
        ensures xs[i] <= xs[j]
      {
        assert xs[j] == t[j - 1];
        if i > 0 {
          assert xs[i] == t[i - 1];
        } else if j > 1 {
          assert xs[1] == t[0];
        }
      }
    }
  }

  /** A strictly increasing sequence is strictly ordered between any two positions. */
  lemma {:induction false} IncreasingPairs(xs: seq<real>)
    requires StrictlyIncreasing(xs)
    ensures forall i, j :: 0 <= i < j < |xs| ==> xs[i] < xs[j]
  {
    if |xs| >= 2 {
      var t := xs[1..];
      IncreasingPairs(t);
      forall i, j | 0 <= i < j < |xs|
        ensures xs[i] < xs[j]
      {
        assert xs[j] == t[j - 1];
        if i > 0 {
          assert xs[i] == t[i - 1];
        } else if j > 1 {
          assert xs[1] == t[0];
        }
      }
    }
  }

  /** Strictly increasing implies sorted. */
  lemma {:induction false} IncreasingIsSorted(xs: seq<real>)
    requires StrictlyIncreasing(xs)
    ensures Sorted(xs)
  {
    if |xs| >= 2 {
      IncreasingIsSorted(xs[1..]);
    }
  }

  /** Prepending a value no larger than the head keeps a sequence sorted. */
  lemma SortedCons(x: real, s: seq<real>)
    requires Sorted(s)
    requires |s| == 0 || x <= s[0]
    ensures Sorted([x] + s)
  {
    assert ([x] + s)[1..] == s;
  }

  /** Smallest element. */
  function Min(xs: seq<real>): real
    requires |xs| > 0
  {
    if |xs| == 1 then xs[0]
    else var m := Min(xs[1..]); if xs[0] <= m then xs[0] else m
  }

  /** Largest element. */
  function Max(xs: seq<real>): real
    requires |xs| > 0
  {
    if |xs| == 1 then xs[0]
    else var m := Max(xs[1..]); if xs[0] >= m then xs[0] else m
  }

  /** `lo` is a lower and `hi` an upper bound of every element. */
  predicate Bounded(xs: seq<real>, lo: real, hi: real)
  {
    forall i :: 0 <= i < |xs| ==> lo <= xs[i] <= hi
  }

  /** The sum of `n` values lying in `[lo, hi]` lies in `[n * lo, n * hi]`. */
  lemma {:induction false} SumBounds(xs: seq<real>, lo: real, hi: real)
    requires Bounded(xs, lo, hi)
    ensures (|xs| as real) * lo <= Sum(xs) <= (|xs| as real) * hi
  {
    if |xs| > 0 {
      assert Bounded(xs[1..], lo, hi) by {
        forall i | 0 <= i < |xs| - 1
          ensures lo <= xs[1..][i] <= hi
        {
          assert xs[1..][i] == xs[i + 1];
        }
      }
      SumBounds(xs[1..], lo, hi);
    }
  }

  /** `Min` and `Max` bound every element and are themselves elements. */
  lemma {:induction false} MinMax(xs: seq<real>)
    requires |xs| > 0
    ensures Bounded(xs, Min(xs), Max(xs))
    ensures Min(xs) in xs && Max(xs) in xs
  {
    if |xs| > 1 {
      var t := xs[1..];
      MinMax(t);
      forall i | 1 <= i < |xs|
        ensures Min(xs) <= xs[i] <= Max(xs)
      {
        assert xs[i] == t[i - 1];
      }
      assert Min(t) in xs && Max(t) in xs;
    }
  }

  /** Inserts `x` into the sorted sequence `s`, keeping it sorted; the result starts with the
      smaller of `x` and the old first element. */
  function Insert(x: real, s: seq<real>): (r: seq<real>)
    requires Sorted(s)
    ensures Sorted(r)
    ensures |r| == |s| + 1
    ensures r[0] == if |s| == 0 || x <= s[0] then x else s[0]
  {
    if |s| == 0 then [x]
    else if x <= s[0] then SortedCons(x, s); [x] + s
    else SortedCons(s[0], Insert(x, s[1..])); [s[0]] + Insert(x, s[1..])
  }

  /** Inserting adds exactly one occurrence of `x`. */
  lemma {:induction false} InsertPermutes(x: real, s: seq<real>)
    requires Sorted(s)
    ensures multiset(Insert(x, s)) == multiset(s) + multiset{x}
  {
    if |s| > 0 && x > s[0] {
      InsertPermutes(x, s[1..]);
      assert s == [s[0]] + s[1..];
    }
  }

  /** Insertion sort: a sorted permutation of `xs`. */
  function Sort(xs: seq<real>): (r: seq<real>)
    ensures Sorted(r)
    ensures |r| == |xs|
  {
    if |xs| == 0 then [] else Insert(xs[0], Sort(xs[1..]))
  }

  /** Sorting only reorders: the result holds the same values, each as often. */
  lemma {:induction false} SortPermutes(xs: seq<real>)
    ensures multiset(Sort(xs)) == multiset(xs)
  {
    if |xs| > 0 {
      SortPermutes(xs[1..]);
      InsertPermutes(xs[0], Sort(xs[1..]));
      assert xs == [xs[0]] + xs[1..];
    }
  }

  /** The first element of the sorted sequence is the minimum of `xs`, the last its maximum. */
  lemma SortEnds(xs: seq<real>)
    requires |xs| > 0
    ensures |Sort(xs)| == |xs|
    ensures Sort(xs)[0] == Min(xs) && Sort(xs)[|xs| - 1] == Max(xs)
  {
    var s := Sort(xs);
    SortPermutes(xs);
    SortedPairs(s);
    MinMax(xs);
    assert s[0] in multiset(xs) && s[|s| - 1] in multiset(xs);
    assert Min(xs) in multiset(s) && Max(xs) in multiset(s);
    var a :| 0 <= a < |s| && s[a] == Min(xs);
    var b :| 0 <= b < |s| && s[b] == Max(xs);
    var c :| 0 <= c < |xs| && xs[c] == s[0];
    var d :| 0 <= d < |xs| && xs[d] == s[|s| - 1];
  }
}
