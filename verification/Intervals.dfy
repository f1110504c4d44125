/**
Busy time of overlapping kernels (`merged` and the overlap sum of `trace`). Intervals are
half-open with real bounds. Their measure is counted on a grid: timestamps are decimal
numbers, so for some n all bounds are whole multiples of 1/n.
*/
module Intervals {
  import opened Prelude

  datatype Interval = Interval(start: real, end: real) {
    predicate Valid() {
      start <= end
    }

    predicate Has(p: real) {
      start <= p < end
    }
  }

  predicate AllValid(s: seq<Interval>) {
    forall i :: 0 <= i < |s| ==> s[i].Valid()
  }

  predicate Covers(s: seq<Interval>, p: real) {
    exists i :: 0 <= i < |s| && s[i].Has(p)
  }

  /** Sorted, and with a gap between any two intervals. */
  predicate Separated(s: seq<Interval>) {
    AllValid(s) && forall i, j :: 0 <= i < j < |s| ==> s[i].end < s[j].start
  }

  /** All bounds of s are bounds of t. */
  predicate BoundsFrom(s: seq<Interval>, t: seq<Interval>) {
    forall i :: 0 <= i < |s| ==>
      (exists j :: 0 <= j < |t| && s[i].start == t[j].start) && (exists j :: 0 <= j < |t| && s[i].end == t[j].end)
  }

  function Max(x: real, y: real): real {
    if x >= y then x else y
  }

  function Min(x: real, y: real): real {
    if x <= y then x else y
  }

  /** Reading an interval into the last one it touches covers what both covered. */
  lemma ReadInto(s: seq<Interval>, x: Interval, p: real)
    requires Separated(s) && x.Valid() && s != [] && s[|s| - 1].start <= x.start <= s[|s| - 1].end
    ensures var n := |s| - 1;
      var t := s[n := Interval(s[n].start, Max(x.end, s[n].end))];
      Covers(t, p) <==> Covers(s, p) || x.Has(p)
  {
    var n := |s| - 1;
    var t := s[n := Interval(s[n].start, Max(x.end, s[n].end))];
    assert t[n].Has(p) <==> s[n].Has(p) || x.Has(p);
    forall i | 0 <= i < n ensures t[i].Has(p) <==> s[i].Has(p) {
    }
    if Covers(t, p) {
      var i :| 0 <= i < |t| && t[i].Has(p);
      assert i == n || s[i].Has(p);
    }
    if Covers(s, p) {
      var i :| 0 <= i < |s| && s[i].Has(p);
      assert t[i].Has(p);
    }
  }

  lemma AddedAfter(s: seq<Interval>, x: Interval, p: real)
    ensures Covers(s + [x], p) <==> Covers(s, p) || x.Has(p)
  {
    var t := s + [x];
    if Covers(s, p) {
      var i :| 0 <= i < |s| && s[i].Has(p);
      assert t[i].Has(p);
    }
    assert t[|s|].Has(p) <==> x.Has(p);
  }

  lemma SeparatedAfter(s: seq<Interval>, x: Interval)
    requires Separated(s) && x.Valid() && (s != [] ==> s[|s| - 1].end < x.start)
    ensures Separated(s + [x])
  {
    forall i | 0 <= i < |s| ensures s[i].end < x.start {
      assert i == |s| - 1 || s[i].end < s[|s| - 1].start <= s[|s| - 1].end;
    }
  }

  /** One step of the loop: x is read into the last interval, or added. */
  method Step(s: seq<Interval>, x: Interval, ghost from: seq<Interval>) returns (t: seq<Interval>)
    requires Separated(s) && x.Valid() && (s != [] ==> s[|s| - 1].start <= x.start)
    requires BoundsFrom(s, from) && x in from
    ensures Separated(t) && BoundsFrom(t, from) && t != [] && t[|t| - 1].start <= x.start
    ensures forall p :: Covers(t, p) <==> Covers(s, p) || x.Has(p)
  {
    if s != [] && x.start <= s[|s| - 1].end {
      var last := s[|s| - 1];
      t := s[|s| - 1 := Interval(last.start, Max(x.end, last.end))];
      forall p ensures Covers(t, p) <==> Covers(s, p) || x.Has(p) {
        ReadInto(s, x, p);
      }
    } else {
      SeparatedAfter(s, x);
      t := s + [x];
      forall p ensures Covers(t, p) <==> Covers(s, p) || x.Has(p) {
        AddedAfter(s, x, p);
      }
    }
  }

  /**
  merged, for the intervals in the order of their starts: the result covers exactly the same
  points with sorted intervals that do not even touch.
  */
  method Merged(intervals: seq<Interval>, ordered: seq<Interval>) returns (result: seq<Interval>)
    requires AllValid(intervals) && multiset(ordered) == multiset(intervals)
    requires forall i, j :: 0 <= i < j < |ordered| ==> ordered[i].start <= ordered[j].start
    ensures Separated(result) && BoundsFrom(result, intervals)
    ensures forall p :: Covers(result, p) <==> Covers(intervals, p)
  {
    result := [];
    SameMembers(intervals, ordered);
    for n := 0 to |ordered|
      invariant Separated(result) && BoundsFrom(result, intervals)
      invariant forall p :: Covers(result, p) <==> Covers(ordered[..n], p)
      invariant result != [] ==> n > 0 && result[|result| - 1].start <= ordered[n - 1].start
    {
      forall p ensures Covers(ordered[..n + 1], p) <==> Covers(ordered[..n], p) || ordered[n].Has(p) {
        assert ordered[..n + 1] == ordered[..n] + [ordered[n]];
        AddedAfter(ordered[..n], ordered[n], p);
      }
      assert ordered[n] in ordered;
      result := Step(result, ordered[n], intervals);
    }
    assert ordered[..|ordered|] == ordered;
  }

  lemma SameMembers(s: seq<Interval>, t: seq<Interval>)
    requires AllValid(s) && multiset(t) == multiset(s)
    ensures AllValid(t) && forall x :: x in t <==> x in s
    ensures forall p :: Covers(s, p) <==> Covers(t, p)
  {
    forall x ensures x in t <==> x in s {
      assert x in multiset(t) <==> x in multiset(s);
    }
    forall i | 0 <= i < |t| ensures t[i].Valid() {
      assert t[i] in s;
    }
    forall p ensures Covers(s, p) <==> Covers(t, p) {
      if i :| 0 <= i < |s| && s[i].Has(p) {
        assert s[i] in t;
      }
      if i :| 0 <= i < |t| && t[i].Has(p) {
        assert t[i] in s;
      }
    }
  }

  // ----- Measure on a grid -----

  /** n times x, by repeated addition. */
  function Scaled(x: real, n: nat): real {
    if n == 0 then 0.0 else Scaled(x, n - 1) + x
  }

  lemma {:induction false} ScaledIsProduct(x: real, n: nat)
    ensures Scaled(x, n) == x * n as real
  {
    if n > 0 {
      ScaledIsProduct(x, n - 1);
      assert x * n as real == x * (n - 1) as real + x;
    }
  }

  lemma {:induction false} ScaledSum(x: real, y: real, n: nat)
    ensures Scaled(x + y, n) == Scaled(x, n) + Scaled(y, n)
    ensures Scaled(x - y, n) == Scaled(x, n) - Scaled(y, n)
  {
    if n > 0 {
      ScaledSum(x, y, n - 1);
    }
  }

  lemma {:induction false} ScaledZero(n: nat)
    ensures Scaled(0.0, n) == 0.0
  {
    if n > 0 {
      ScaledZero(n - 1);
    }
  }

  lemma {:induction false} ScaledOrder(x: real, y: real, n: nat)
    ensures x <= y ==> Scaled(x, n) <= Scaled(y, n)
    ensures x < y && n > 0 ==> Scaled(x, n) < Scaled(y, n)
  {
    if n > 0 {
      ScaledOrder(x, y, n - 1);
    }
  }

  /** What counts k cells of 1/n is k/n long. */
  lemma Unscaled(x: real, n: nat, k: int)
    requires n > 0
    ensures Scaled(x, n) == k as real <==> x == k as real / n as real
  {
    var m := n as real;
    assert (k as real / m) * m == k as real;
    ScaledIsProduct(k as real / m, n);
    ScaledOrder(x, k as real / m, n);
    ScaledOrder(k as real / m, x, n);
  }

  /** x is a whole multiple of 1/n. */
  predicate OnGrid(x: real, n: nat) {
    n > 0 && Tick(x, n) as real == Scaled(x, n)
  }

  function Tick(x: real, n: nat): int {
    Scaled(x, n).Floor
  }

  predicate AllOnGrid(s: seq<Interval>, n: nat) {
    forall i :: 0 <= i < |s| ==> OnGrid(s[i].start, n) && OnGrid(s[i].end, n)
  }

  /** The grid cells [k/n, (k + 1)/n) of an interval, by their numbers k. */
  function Cells(x: Interval, n: nat): set<int> {
    Span(Tick(x.start, n), Tick(x.end, n))
  }

  function CoverCells(s: seq<Interval>, n: nat): set<int> {
    if s == [] then {} else CoverCells(s[..|s| - 1], n) + Cells(s[|s| - 1], n)
  }

  lemma InCoverCells(s: seq<Interval>, n: nat, k: int)
    ensures k in CoverCells(s, n) <==> exists i :: 0 <= i < |s| && k in Cells(s[i], n)
  {
    if s != [] {
      InCoverCells(s[..|s| - 1], n, k);
      if i :| 0 <= i < |s| && k in Cells(s[i], n) {
        assert i < |s| - 1 ==> s[..|s| - 1][i] == s[i];
      }
    }
  }

  /** On the grid a cell belongs to an interval exactly when its first point does. */
  lemma CellIsPoint(x: Interval, n: nat, k: int)
    requires OnGrid(x.start, n) && OnGrid(x.end, n)
    ensures k in Cells(x, n) <==> x.Has(k as real / n as real)
  {
    GridOrder(x.start, n, k);
    GridOrder(x.end, n, k);
  }

  lemma GridOrder(x: real, n: nat, k: int)
    requires OnGrid(x, n)
    ensures Tick(x, n) <= k <==> x <= k as real / n as real
  {
    var y := k as real / n as real;
    Unscaled(y, n, k);
    ScaledOrder(x, y, n);
    ScaledOrder(y, x, n);
  }

  lemma CoverCellsArePoints(s: seq<Interval>, n: nat, k: int)
    requires n > 0 && AllOnGrid(s, n)
    ensures k in CoverCells(s, n) <==> Covers(s, k as real / n as real)
  {
    InCoverCells(s, n, k);
    forall i | 0 <= i < |s| ensures k in Cells(s[i], n) <==> s[i].Has(k as real / n as real) {
      CellIsPoint(s[i], n, k);
    }
  }

  /** Intervals that cover the same points have the same cells. */
  lemma SameCells(s: seq<Interval>, t: seq<Interval>, n: nat)
    requires n > 0 && AllOnGrid(s, n) && AllOnGrid(t, n) && forall p :: Covers(s, p) <==> Covers(t, p)
    ensures CoverCells(s, n) == CoverCells(t, n)
  {
    forall k ensures k in CoverCells(s, n) <==> k in CoverCells(t, n) {
      CoverCellsArePoints(s, n, k);
      CoverCellsArePoints(t, n, k);
    }
  }

  lemma TickOrder(x: real, y: real, n: nat)
    requires OnGrid(x, n) && OnGrid(y, n)
    ensures x <= y <==> Tick(x, n) <= Tick(y, n)
  {
    ScaledOrder(x, y, n);
    ScaledOrder(y, x, n);
  }

  /** Of separated intervals the last one shares no cell with the others. */
  lemma LastIsApart(s: seq<Interval>, n: nat)
    requires Separated(s) && s != [] && AllOnGrid(s, n)
    ensures CoverCells(s[..|s| - 1], n) !! Cells(s[|s| - 1], n)
  {
    var last, others := Cells(s[|s| - 1], n), CoverCells(s[..|s| - 1], n);
    forall k | k in last ensures k !in others {
      InCoverCells(s[..|s| - 1], n, k);
      var before := s[..|s| - 1];
      if i :| 0 <= i < |before| && k in Cells(before[i], n) {
        TickOrder(before[i].end, s[|s| - 1].start, n);
      }
    }
  }

  function Sum(r: seq<real>): real {
    if r == [] then 0.0 else Sum(r[..|r| - 1]) + r[|r| - 1]
  }

  function SumTicks(k: seq<int>): int {
    if k == [] then 0 else SumTicks(k[..|k| - 1]) + k[|k| - 1]
  }

  lemma LastTick(k: seq<int>, before: seq<int>)
    requires k != [] && before == k[..|k| - 1]
    ensures SumTicks(k) == SumTicks(before) + k[|k| - 1]
  {
  }

  /** Lengths that are whole numbers of ticks add up to as many ticks. */
  lemma {:induction false} SumInTicks(r: seq<real>, k: seq<int>, n: nat)
    requires |r| == |k| && forall i :: 0 <= i < |r| ==> Scaled(r[i], n) == k[i] as real
    ensures Scaled(Sum(r), n) == SumTicks(k) as real
  {
    if r == [] {
      ScaledZero(n);
    } else {
      var last := |r| - 1;
      SumInTicks(r[..last], k[..last], n);
      ScaledSum(Sum(r[..last]), r[last], n);
    }
  }

  // ----- Busy time -----

  function Lengths(s: seq<Interval>): (r: seq<real>)
    ensures |r| == |s| && forall i :: 0 <= i < |s| ==> r[i] == s[i].end - s[i].start
  {
    seq(|s|, i requires 0 <= i < |s| => s[i].end - s[i].start)
  }

  function LengthTicks(s: seq<Interval>, n: nat): (r: seq<int>)
    ensures |r| == |s| && forall i :: 0 <= i < |s| ==> r[i] == Tick(s[i].end, n) - Tick(s[i].start, n)
  {
    seq(|s|, i requires 0 <= i < |s| => Tick(s[i].end, n) - Tick(s[i].start, n))
  }

  /** The summed lengths. */
  function Busy(s: seq<Interval>): real {
    Sum(Lengths(s))
  }

  lemma CellCount(x: Interval, n: nat)
    requires x.Valid() && OnGrid(x.start, n) && OnGrid(x.end, n)
    ensures |Cells(x, n)| == Tick(x.end, n) - Tick(x.start, n)
  {
    TickOrder(x.start, x.end, n);
    SpanCount(Tick(x.start, n), Tick(x.end, n));
  }

  lemma ApartCount(a: set<int>, b: set<int>)
    requires a !! b
    ensures |a + b| == |a| + |b|
  {
  }

  lemma LengthTicksBefore(s: seq<Interval>, n: nat)
    requires s != []
    ensures LengthTicks(s, n)[..|s| - 1] == LengthTicks(s[..|s| - 1], n)
    ensures LengthTicks(s, n)[|s| - 1] == Tick(s[|s| - 1].end, n) - Tick(s[|s| - 1].start, n)
  {
  }

  lemma {:induction false} LengthsCount(s: seq<Interval>, n: nat)
    requires Separated(s) && AllOnGrid(s, n)
    ensures SumTicks(LengthTicks(s, n)) == |CoverCells(s, n)|
  {
    if s != [] {
      var before, last := s[..|s| - 1], s[|s| - 1];
      assert Separated(before) && AllOnGrid(before, n);
      LengthsCount(before, n);
      LastIsApart(s, n);
      CellCount(last, n);
      ApartCount(CoverCells(before, n), Cells(last, n));
      LengthTicksBefore(s, n);
      LastTick(LengthTicks(s, n), LengthTicks(before, n));
    }
  }

  /** The busy time of separated intervals is their number of cells, each 1/n long. */
  lemma BusyIsMeasure(s: seq<Interval>, n: nat)
    requires Separated(s) && AllOnGrid(s, n)
    ensures Scaled(Busy(s), n) == |CoverCells(s, n)| as real
  {
    forall i | 0 <= i < |s| ensures Scaled(Lengths(s)[i], n) == LengthTicks(s, n)[i] as real {
      ScaledSum(s[i].end, s[i].start, n);
    }
    SumInTicks(Lengths(s), LengthTicks(s, n), n);
    LengthsCount(s, n);
  }

  // ----- Overlap -----

  /** The overlap of two intervals as the report computes it. */
  function Overlap(x: Interval, y: Interval): real {
    Max(0.0, Min(x.end, y.end) - Max(x.start, y.start))
  }

  function OverlapTicks(x: Interval, y: Interval, n: nat): int {
    var first := if x.start >= y.start then x.start else y.start;
    var last := if x.end <= y.end then x.end else y.end;
    if first < last then Tick(last, n) - Tick(first, n) else 0
  }

  lemma OverlapInTicks(x: Interval, y: Interval, n: nat)
    requires OnGrid(x.start, n) && OnGrid(x.end, n) && OnGrid(y.start, n) && OnGrid(y.end, n)
    ensures Scaled(Overlap(x, y), n) == OverlapTicks(x, y, n) as real
  {
    var first := if x.start >= y.start then x.start else y.start;
    var last := if x.end <= y.end then x.end else y.end;
    if first < last {
      ScaledSum(last, first, n);
      assert Overlap(x, y) == last - first;
    } else {
      ScaledZero(n);
      assert Overlap(x, y) == 0.0;
    }
  }

  function Overlaps(x: Interval, t: seq<Interval>): (r: seq<real>)
    ensures |r| == |t| && forall i :: 0 <= i < |t| ==> r[i] == Overlap(x, t[i])
  {
    seq(|t|, i requires 0 <= i < |t| => Overlap(x, t[i]))
  }

  function RowTicks(x: Interval, t: seq<Interval>, n: nat): (r: seq<int>)
    ensures |r| == |t| && forall i :: 0 <= i < |t| ==> r[i] == OverlapTicks(x, t[i], n)
  {
    seq(|t|, i requires 0 <= i < |t| => OverlapTicks(x, t[i], n))
  }

  function RowOverlaps(s: seq<Interval>, t: seq<Interval>): (r: seq<real>)
    ensures |r| == |s| && forall i :: 0 <= i < |s| ==> r[i] == Sum(Overlaps(s[i], t))
  {
    seq(|s|, i requires 0 <= i < |s| => Sum(Overlaps(s[i], t)))
  }

  function PairTicks(s: seq<Interval>, t: seq<Interval>, n: nat): (r: seq<int>)
    ensures |r| == |s| && forall i :: 0 <= i < |s| ==> r[i] == SumTicks(RowTicks(s[i], t, n))
  {
    seq(|s|, i requires 0 <= i < |s| => SumTicks(RowTicks(s[i], t, n)))
  }

  /** The sum over all pairs. */
  function PairOverlap(s: seq<Interval>, t: seq<Interval>): real {
    Sum(RowOverlaps(s, t))
  }

  lemma RowInTicks(x: Interval, t: seq<Interval>, n: nat)
    requires AllOnGrid(t, n) && OnGrid(x.start, n) && OnGrid(x.end, n)
    ensures Scaled(Sum(Overlaps(x, t)), n) == SumTicks(RowTicks(x, t, n)) as real
  {
    var a, b := Overlaps(x, t), RowTicks(x, t, n);
    forall i | 0 <= i < |t| ensures Scaled(a[i], n) == b[i] as real {
      OverlapInTicks(x, t[i], n);
    }
    SumInTicks(a, b, n);
  }

  lemma PairInTicks(s: seq<Interval>, t: seq<Interval>, n: nat)
    requires AllOnGrid(s, n) && AllOnGrid(t, n)
    ensures Scaled(PairOverlap(s, t), n) == SumTicks(PairTicks(s, t, n)) as real
  {
    var a, b := RowOverlaps(s, t), PairTicks(s, t, n);
    forall i | 0 <= i < |s| ensures Scaled(a[i], n) == b[i] as real {
      RowInTicks(s[i], t, n);
    }
    SumInTicks(a, b, n);
  }

  lemma SharedSpan(a: int, b: int, c: int, d: int, first: int, last: int)
    requires first == (if a >= c then a else c) && last == if b <= d then b else d
    ensures |Span(c, d) * Span(a, b)| == if first < last then last - first else 0
  {
    assert Span(c, d) * Span(a, b) == Span(first, last);
    SpanCount(first, last);
  }

  lemma OverlapCount(x: Interval, y: Interval, n: nat)
    requires OnGrid(x.start, n) && OnGrid(x.end, n) && OnGrid(y.start, n) && OnGrid(y.end, n)
    ensures |Cells(y, n) * Cells(x, n)| == OverlapTicks(x, y, n)
  {
    var first := if x.start >= y.start then x.start else y.start;
    var last := if x.end <= y.end then x.end else y.end;
    TickOrder(x.start, y.start, n);
    TickOrder(x.end, y.end, n);
    TickOrder(last, first, n);
    SharedSpan(Tick(x.start, n), Tick(x.end, n), Tick(y.start, n), Tick(y.end, n), Tick(first, n), Tick(last, n));
  }

  lemma SplitCount(a: set<int>, b: set<int>, x: set<int>)
    requires a !! b
    ensures |(a + b) * x| == |a * x| + |b * x|
    ensures |x * (a + b)| == |x * a| + |x * b|
  {
    assert (a + b) * x == a * x + b * x && x * (a + b) == x * a + x * b;
    assert (a * x) !! (b * x) && (x * a) !! (x * b);
  }

  lemma RowTicksBefore(x: Interval, t: seq<Interval>, n: nat)
    requires t != []
    ensures RowTicks(x, t, n)[..|t| - 1] == RowTicks(x, t[..|t| - 1], n)
    ensures RowTicks(x, t, n)[|t| - 1] == OverlapTicks(x, t[|t| - 1], n)
  {
  }

  lemma PairTicksBefore(s: seq<Interval>, t: seq<Interval>, n: nat)
    requires s != []
    ensures PairTicks(s, t, n)[..|s| - 1] == PairTicks(s[..|s| - 1], t, n)
    ensures PairTicks(s, t, n)[|s| - 1] == SumTicks(RowTicks(s[|s| - 1], t, n))
  {
  }

  lemma {:induction false} RowCount(x: Interval, t: seq<Interval>, n: nat)
    requires Separated(t) && AllOnGrid(t, n) && OnGrid(x.start, n) && OnGrid(x.end, n)
    ensures SumTicks(RowTicks(x, t, n)) == |CoverCells(t, n) * Cells(x, n)|
  {
    if t == [] {
      assert CoverCells(t, n) * Cells(x, n) == {};
    } else {
      var before, last := t[..|t| - 1], t[|t| - 1];
      RowCount(x, before, n);
      OverlapCount(x, last, n);
      LastIsApart(t, n);
      SplitCount(CoverCells(before, n), Cells(last, n), Cells(x, n));
      RowTicksBefore(x, t, n);
      LastTick(RowTicks(x, t, n), RowTicks(x, before, n));
    }
  }

  lemma {:induction false} PairCount(s: seq<Interval>, t: seq<Interval>, n: nat)
    requires Separated(s) && Separated(t) && AllOnGrid(s, n) && AllOnGrid(t, n)
    ensures SumTicks(PairTicks(s, t, n)) == |CoverCells(t, n) * CoverCells(s, n)|
  {
    if s == [] {
      assert CoverCells(t, n) * CoverCells(s, n) == {};
    } else {
      var before, last := s[..|s| - 1], s[|s| - 1];
      PairCount(before, t, n);
      RowCount(last, t, n);
      LastIsApart(s, n);
      SplitCount(CoverCells(before, n), Cells(last, n), CoverCells(t, n));
      PairTicksBefore(s, t, n);
      LastTick(PairTicks(s, t, n), PairTicks(before, t, n));
    }
  }

  /** The pairwise overlap sum is the number of cells that both covers share, each 1/n long. */
  lemma OverlapIsMeasure(s: seq<Interval>, t: seq<Interval>, n: nat)
    requires Separated(s) && Separated(t) && AllOnGrid(s, n) && AllOnGrid(t, n)
    ensures Scaled(PairOverlap(s, t), n) == |CoverCells(t, n) * CoverCells(s, n)| as real
  {
    PairInTicks(s, t, n);
    PairCount(s, t, n);
  }

  lemma GridKept(s: seq<Interval>, t: seq<Interval>, n: nat)
    requires BoundsFrom(s, t) && AllOnGrid(t, n)
    ensures AllOnGrid(s, n)
  {
  }

  /**
  The report as a whole: merging two groups of kernels and summing lengths and pairwise
  overlaps measures the union of each group and the intersection of the two unions.
  */
  lemma ReportIsMeasure(comm: seq<Interval>, compute: seq<Interval>, a: seq<Interval>, b: seq<Interval>, n: nat)
    requires n > 0 && AllOnGrid(comm, n) && AllOnGrid(compute, n)
    requires Separated(a) && BoundsFrom(a, comm) && forall p :: Covers(a, p) <==> Covers(comm, p)
    requires Separated(b) && BoundsFrom(b, compute) && forall p :: Covers(b, p) <==> Covers(compute, p)
    ensures Busy(a) == |CoverCells(comm, n)| as real / n as real
    ensures Busy(b) == |CoverCells(compute, n)| as real / n as real
    ensures PairOverlap(a, b) == |CoverCells(compute, n) * CoverCells(comm, n)| as real / n as real
  {
    GridKept(a, comm, n);
    GridKept(b, compute, n);
    SameCells(a, comm, n);
    SameCells(b, compute, n);
    BusyIsMeasure(a, n);
    BusyIsMeasure(b, n);
    OverlapIsMeasure(a, b, n);
    Unscaled(Busy(a), n, |CoverCells(comm, n)|);
    Unscaled(Busy(b), n, |CoverCells(compute, n)|);
    Unscaled(PairOverlap(a, b), n, |CoverCells(compute, n) * CoverCells(comm, n)|);
  }
}
