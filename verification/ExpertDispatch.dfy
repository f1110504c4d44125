/**
Sort-based expert dispatch (`FrozenExperts.forward`): the routed pairs are sorted by expert,
each expert handles its segment, and every result is added to the row it belongs to.
*/
module ExpertDispatch {
  import opened Prelude

  /** How many flat positions the rows have together. */
  function Flat(rows: nat, slots: nat): nat {
    if rows == 0 then 0 else Flat(rows - 1, slots) + slots
  }

  lemma {:induction false} FlatIsProduct(rows: nat, slots: nat)
    ensures Flat(rows, slots) == rows * slots
  {
    if rows > 0 {
      FlatIsProduct(rows - 1, slots);
      assert rows * slots == (rows - 1) * slots + slots;
    }
  }

  /**
  Tokens, slots per token, experts, the routed expert of every slot row by row, and one
  channel of what an expert computes for a row and slot.
  */
  datatype Routing = Routing(rows: nat, slots: nat, experts: nat, indices: seq<nat>, expert: (nat, nat, nat) -> real) {
    ghost predicate Valid() {
      |indices| == Flat(rows, slots) && forall j :: 0 <= j < |indices| ==> indices[j] < experts
    }

    /** The result for flat position j. */
    function Output(j: nat): real
      requires slots > 0 && j < |indices|
    {
      expert(j / slots, j % slots, indices[j])
    }

    /** What flat position j adds to a row. */
    function Adds(row: nat, j: nat): real {
      if slots > 0 && j < |indices| && j / slots == row then Output(j) else 0.0
    }

    function AddsTo(row: nat): nat -> real {
      (j: nat) => Adds(row, j)
    }

    /** The plain sum of a row over its first slots. */
    function RowSum(row: nat, n: nat): real
      requires Valid() && row < rows && n <= slots
    {
      if n == 0 then 0.0
      else
        FlatInRange(row, n - 1, rows, slots);
        RowSum(row, n - 1) + expert(row, n - 1, indices[row * slots + n - 1])
    }
  }

  lemma FlatInRange(row: nat, slot: nat, rows: nat, slots: nat)
    requires row < rows && slot < slots
    ensures row * slots + slot < Flat(rows, slots)
    ensures (row * slots + slot) / slots == row && (row * slots + slot) % slots == slot
  {
    FlatIsProduct(rows, slots);
    assert row * slots + slots == (row + 1) * slots <= rows * slots;
    var q, r := (row * slots + slot) / slots, (row * slots + slot) % slots;
    assert q * slots + r == row * slots + slot;
    SmallMultiple(q - row, slots);
    assert (q - row) * slots == slot - r;
  }

  lemma SmallMultiple(k: int, n: nat)
    ensures k != 0 ==> k * n >= n || k * n <= 0 - n
  {
    if k >= 1 {
      assert k * n == n + (k - 1) * n;
    } else if k <= -1 {
      assert k * n == (k + 1) * n - n;
    }
  }

  // ----- Sums over permutations -----

  function Sum(f: nat -> real, s: seq<nat>): real {
    if s == [] then 0.0 else Sum(f, s[..|s| - 1]) + f(s[|s| - 1])
  }

  lemma {:induction false} SumRemove(f: nat -> real, s: seq<nat>, i: nat)
    requires i < |s|
    ensures Sum(f, s) == Sum(f, s[..i] + s[i + 1..]) + f(s[i])
  {
    var n := |s| - 1;
    var t := s[..i] + s[i + 1..];
    if i == n {
      assert t == s[..n];
    } else {
      assert t[..n - 1] == s[..n][..i] + s[..n][i + 1..];
      assert t[n - 1] == s[n];
      SumRemove(f, s[..n], i);
    }
  }

  lemma Cancel(a: multiset<nat>, b: multiset<nat>, c: multiset<nat>)
    requires a + c == b + c
    ensures a == b
  {
    forall x: nat ensures a[x] == b[x] {
      assert (a + c)[x] == (b + c)[x];
    }
  }

  lemma {:induction false} SumPermutation(f: nat -> real, a: seq<nat>, b: seq<nat>)
    requires multiset(a) == multiset(b)
    ensures Sum(f, a) == Sum(f, b)
    decreases |a|
  {
    if a == [] {
      assert |multiset(b)| == 0;
    } else {
      var x, a' := a[|a| - 1], a[..|a| - 1];
      assert a == a' + [x];
      assert x in multiset(b);
      var i :| 0 <= i < |b| && b[i] == x;
      var b' := b[..i] + b[i + 1..];
      assert b == b[..i] + [x] + b[i + 1..];
      Cancel(multiset(a'), multiset(b'), multiset{x});
      SumPermutation(f, a', b');
      SumRemove(f, b, i);
    }
  }

  function Range(n: nat): (r: seq<nat>)
    ensures |r| == n && forall k :: 0 <= k < n ==> r[k] == k
  {
    seq(n, k requires 0 <= k => k)
  }

  /** Over all flat positions, a row receives the plain sum over its slots. */
  lemma {:induction false} RangeSum(d: Routing, row: nat, at: nat, n: nat)
    requires d.Valid() && row < d.rows && at < d.rows && n <= d.slots
    ensures Sum(d.AddsTo(row), Range(at * d.slots + n)) ==
      if at < row then 0.0 else if at == row then d.RowSum(row, n) else d.RowSum(row, d.slots)
    decreases at, n
  {
    var f, m := d.AddsTo(row), at * d.slots + n;
    if n > 0 {
      FlatInRange(at, n - 1, d.rows, d.slots);
      RangeSum(d, row, at, n - 1);
      assert Range(m)[..m - 1] == Range(m - 1);
    } else if at > 0 {
      RangeSum(d, row, at - 1, d.slots);
      assert (at - 1) * d.slots + d.slots == m;
    }
  }

  // ----- Sorting -----

  /** What argsort may return: all flat positions, in the order of their experts. */
  ghost predicate Sorts(d: Routing, order: seq<nat>)
    requires d.Valid()
  {
    && multiset(order) == multiset(Range(|d.indices|))
    && (forall p :: 0 <= p < |order| ==> order[p] < |d.indices|)
    && forall p, q :: 0 <= p < q < |order| ==> d.indices[order[p]] <= d.indices[order[q]]
  }

  function Count(indices: seq<nat>, e: nat): nat {
    if indices == [] then 0 else Count(indices[..|indices| - 1], e) + if indices[|indices| - 1] == e then 1 else 0
  }

  /** How many entries are routed to an expert below e. */
  function Below(indices: seq<nat>, e: nat): nat {
    if indices == [] then 0 else Below(indices[..|indices| - 1], e) + if indices[|indices| - 1] < e then 1 else 0
  }

  lemma {:induction false} BelowNext(indices: seq<nat>, e: nat)
    ensures Below(indices, e + 1) == Below(indices, e) + Count(indices, e)
  {
    if indices != [] {
      BelowNext(indices[..|indices| - 1], e);
    }
  }

  lemma {:induction false} BelowEnds(indices: seq<nat>, e: nat)
    ensures Below(indices, 0) == 0 && Below(indices, e) <= |indices|
    ensures (forall j :: 0 <= j < |indices| ==> indices[j] < e) ==> Below(indices, e) == |indices|
  {
    if indices != [] {
      BelowEnds(indices[..|indices| - 1], e);
    }
  }

  function IsBelow(d: Routing, e: nat, j: nat): real {
    if j < |d.indices| && d.indices[j] < e then 1.0 else 0.0
  }

  function BelowAt(d: Routing, e: nat): nat -> real {
    (j: nat) => IsBelow(d, e, j)
  }

  lemma {:induction false} BelowIsSum(d: Routing, e: nat, n: nat)
    requires n <= |d.indices|
    ensures Sum(BelowAt(d, e), Range(n)) == Below(d.indices[..n], e) as real
  {
    if n > 0 {
      BelowIsSum(d, e, n - 1);
      assert Range(n)[..n - 1] == Range(n - 1);
      assert d.indices[..n][..n - 1] == d.indices[..n - 1];
    }
  }

  /** In sorted order the positions below e come first. */
  lemma {:induction false} SortedPrefix(d: Routing, order: seq<nat>, e: nat, p: nat)
    requires forall q :: 0 <= q < |order| ==> order[q] < |d.indices|
    requires forall q, r :: 0 <= q < r < |order| ==> d.indices[order[q]] <= d.indices[order[r]]
    requires p < |order|
    ensures 0.0 <= Sum(BelowAt(d, e), order) <= |order| as real
    ensures d.indices[order[p]] < e <==> (p as real) < Sum(BelowAt(d, e), order)
    decreases |order|
  {
    var f, n := BelowAt(d, e), |order| - 1;
    if n == 0 {
      assert order[..0] == [];
      assert Sum(f, order) == Sum(f, order[..0]) + f(order[0]);
    } else {
      SortedPrefix(d, order[..n], e, if p < n then p else n - 1);
    }
  }

  /** The segment of an expert holds exactly positions routed to it. */
  lemma SegmentIsExpert(d: Routing, order: seq<nat>, e: nat, p: nat)
    requires d.Valid() && Sorts(d, order)
    requires Below(d.indices, e) <= p < Below(d.indices, e + 1)
    ensures p < |order| == |d.indices| && d.indices[order[p]] == e
  {
    BelowEnds(d.indices, e + 1);
    OrderLength(d, order);
    assert d.indices[..|d.indices|] == d.indices;
    BelowIsSum(d, e, |d.indices|);
    BelowIsSum(d, e + 1, |d.indices|);
    SumPermutation(BelowAt(d, e), order, Range(|d.indices|));
    SumPermutation(BelowAt(d, e + 1), order, Range(|d.indices|));
    SortedPrefix(d, order, e, p);
    SortedPrefix(d, order, e + 1, p);
  }

  // ----- The program -----

  /** The entries for each expert. */
  ghost predicate Counted(d: Routing, counts: seq<nat>) {
    |counts| == d.experts && forall e :: 0 <= e < d.experts ==> counts[e] == Count(d.indices, e)
  }

  /** bincount with a minimum length of one entry for each expert. */
  method BinCount(d: Routing) returns (counts: array<nat>)
    requires d.Valid()
    ensures fresh(counts)
    ensures Counted(d, counts[..])
  {
    counts := new nat[d.experts](_ => 0);
    for j := 0 to |d.indices|
      invariant forall e :: 0 <= e < d.experts ==> counts[e] == Count(d.indices[..j], e)
    {
      assert d.indices[..j + 1][..j] == d.indices[..j];
      counts[d.indices[j]] := counts[d.indices[j]] + 1;
    }
    assert d.indices[..|d.indices|] == d.indices;
  }

  /** y holds what the given positions have added. */
  ghost predicate Added(d: Routing, y: seq<real>, positions: seq<nat>) {
    |y| == d.rows && forall row :: 0 <= row < d.rows ==> y[row] == Sum(d.AddsTo(row), positions)
  }

  /** index_add_ of one expert's segment. */
  method AddSegment(d: Routing, order: seq<nat>, e: nat, start: nat, count: nat, y: array<real>)
    requires d.Valid() && Sorts(d, order) && e < d.experts
    requires start == Below(d.indices, e) && start + count == Below(d.indices, e + 1) <= |order|
    requires Added(d, y[..], order[..start])
    modifies y
    ensures Added(d, y[..], order[..start + count])
  {
    for p := start to start + count
      invariant Added(d, y[..], order[..p])
    {
      SegmentIsExpert(d, order, e, p);
      AddOne(d, order, p, e, y);
    }
  }

  /** One position of a segment: the expert's output is added to the row. */
  method AddOne(d: Routing, order: seq<nat>, p: nat, e: nat, y: array<real>)
    requires d.Valid() && p < |order| && order[p] < |d.indices| && d.indices[order[p]] == e
    requires Added(d, y[..], order[..p])
    modifies y
    ensures Added(d, y[..], order[..p + 1])
  {
    AddedNext(d, y[..], order, p);
    var row, slot := order[p] / d.slots, order[p] % d.slots;
    y[row] := y[row] + d.expert(row, slot, e);
  }

  /** One more position adds its expert's output to its row. */
  lemma AddedNext(d: Routing, y: seq<real>, order: seq<nat>, p: nat)
    requires d.Valid() && p < |order| && order[p] < |d.indices| && Added(d, y, order[..p])
    ensures d.slots > 0 && order[p] / d.slots < d.rows
    ensures var row, slot := order[p] / d.slots, order[p] % d.slots;
      Added(d, y[row := y[row] + d.expert(row, slot, d.indices[order[p]])], order[..p + 1])
  {
    FlatIsRow(d, order[p]);
    assert order[..p + 1][..p] == order[..p];
  }

  lemma QuotientBelow(j: nat, rows: nat, slots: nat)
    requires j < rows * slots
    ensures slots > 0 && j / slots < rows
  {
    if slots > 0 && j / slots >= rows {
      MultiplyMonotone(rows, j / slots, slots);
      DivisionBounds(j, slots);
    }
  }

  lemma FlatIsRow(d: Routing, j: nat)
    requires d.Valid() && j < |d.indices|
    ensures d.slots > 0 && j / d.slots < d.rows
  {
    FlatIsProduct(d.rows, d.slots);
    QuotientBelow(j, d.rows, d.slots);
  }

  lemma OrderLength(d: Routing, order: seq<nat>)
    requires d.Valid() && Sorts(d, order)
    ensures |order| == |d.indices|
  {
    assert |multiset(order)| == |multiset(Range(|d.indices|))|;
  }

  lemma AllPositions(d: Routing, row: nat)
    requires d.Valid() && row < d.rows
    ensures Sum(d.AddsTo(row), Range(|d.indices|)) == d.RowSum(row, d.slots)
  {
    var last := d.rows - 1;
    RangeSum(d, row, last, d.slots);
    FlatIsProduct(d.rows, d.slots);
    assert |d.indices| == (last + 1) * d.slots == last * d.slots + d.slots;
  }

  lemma NextSegment(d: Routing, order: seq<nat>, e: nat)
    requires d.Valid() && Sorts(d, order)
    ensures Below(d.indices, e + 1) == Below(d.indices, e) + Count(d.indices, e) <= |order|
  {
    BelowNext(d.indices, e);
    BelowEnds(d.indices, e + 1);
    OrderLength(d, order);
  }

  /** When all positions have been added, each row has its plain sum. */
  lemma AllAdded(d: Routing, order: seq<nat>, y: seq<real>)
    requires d.Valid() && Sorts(d, order) && Added(d, y, order)
    ensures forall row :: 0 <= row < d.rows ==> y[row] == d.RowSum(row, d.slots)
  {
    forall row | 0 <= row < d.rows ensures y[row] == d.RowSum(row, d.slots) {
      SumPermutation(d.AddsTo(row), order, Range(|d.indices|));
      AllPositions(d, row);
    }
  }

  /** The dispatch, for whatever order the sort returns among equal experts. */
  method Dispatch(d: Routing, order: seq<nat>) returns (y: array<real>)
    requires d.Valid() && Sorts(d, order)
    ensures y.Length == d.rows && forall row :: 0 <= row < d.rows ==> y[row] == d.RowSum(row, d.slots)
  {
    y := new real[d.rows](_ => 0.0);
    var counts := BinCount(d);
    var start := 0;
    OrderLength(d, order);
    BelowEnds(d.indices, 0);
    for e := 0 to d.experts
      invariant Counted(d, counts[..])
      invariant start == Below(d.indices, e) <= |order|
      invariant Added(d, y[..], order[..start])
    {
      NextSegment(d, order, e);
      var count := counts[e];
      if count != 0 {
        AddSegment(d, order, e, start, count, y);
        start := start + count;
      }
    }
    BelowEnds(d.indices, d.experts);
    assert order[..|order|] == order;
    AllAdded(d, order, y[..]);
  }
}
