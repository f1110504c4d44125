/**
The prime bucket sizes of the Engram hash heads (`partitions` in `packing.py`): every
layer and n-gram order takes its heads' sizes from one shared supply of primes.
*/
module PrimeBuckets {
  import opened Prelude

  ghost predicate Divides(d: int, n: int)
    requires d > 0
  {
    n % d == 0
  }

  ghost predicate Prime(n: int) {
    n >= 2 && forall d {:trigger Divides(d, n)} :: 2 <= d < n ==> !Divides(d, n)
  }

  // --------------------------------------------------------- trial division

  /** math.isqrt. */
  method IntegerRoot(n: nat) returns (r: nat)
    ensures r * r <= n < (r + 1) * (r + 1)
  {
    r := 0;
    while (r + 1) * (r + 1) <= n
      invariant r * r <= n
      decreases n - r * r
    {
      r := r + 1;
    }
  }

  /** Trial division by 2 and by the odd numbers up to the integer root decides primality. */
  method TrialDivision(n: int) returns (prime: bool)
    ensures prime <==> Prime(n)
  {
    if n < 2 {
      return false;
    }
    if n % 2 == 0 {
      assert n > 2 ==> Divides(2, n);
      return n == 2;
    }
    var root := IntegerRoot(n);
    var divisor := OddDivisor(n, root);
    if divisor.Some? {
      ProperDivisor(n, divisor.value, root);
      return false;
    }
    NoSmallOddDivisor(n, root);
    return true;
  }

  /** The loop over the odd candidates up to the root. */
  method OddDivisor(n: int, root: nat) returns (divisor: Option<int>)
    ensures divisor.Some? ==> 3 <= divisor.value <= root && n % divisor.value == 0
    ensures divisor.None? ==> forall k {:trigger Divides(k, n)} :: 3 <= k <= root && k % 2 == 1 ==> !Divides(k, n)
  {
    var d := 3;
    while d < root + 1
      invariant d % 2 == 1 && d >= 3
      invariant forall k {:trigger Divides(k, n)} :: 3 <= k < d && k % 2 == 1 ==> !Divides(k, n)
      decreases root + 1 as int - d
    {
      if n % d == 0 {
        return Some(d);
      }
      d := d + 2;
    }
    return None;
  }

  /** An odd n without odd divisors up to its root is prime. */
  lemma NoSmallOddDivisor(n: int, root: nat)
    requires n >= 3 && n % 2 == 1 && n < (root + 1) * (root + 1)
    requires forall k {:trigger Divides(k, n)} :: 3 <= k <= root && k % 2 == 1 ==> !Divides(k, n)
    ensures Prime(n)
  {
    forall k {:trigger Divides(k, n)} | 2 <= k < n ensures !Divides(k, n) {
      if Divides(k, n) {
        var small := SmallOddDivisor(n, k, root);
      }
    }
  }

  /** A divisor at most the root of an odd n is proper. */
  lemma ProperDivisor(n: int, d: int, root: nat)
    requires n >= 2 && 3 <= d <= root && n % d == 0 && root * root <= n
    ensures !Prime(n)
  {
    assert d < n by {
      assert d * d <= root * root;
      assert d * 3 <= d * d;
    }
    assert Divides(d, n);
  }

  /** A composite odd n has an odd divisor between 3 and its integer root. */
  lemma SmallOddDivisor(n: int, k: int, root: nat) returns (d: int)
    requires n >= 2 && n % 2 == 1 && 2 <= k < n && Divides(k, n)
    requires n < (root + 1) * (root + 1)
    ensures 3 <= d <= root && d % 2 == 1 && Divides(d, n)
  {
    var e := CoFactor(n, k);
    OddFactors(n, k, e);
    d := if k <= e then k else e;
    Multiple(n, d, if k <= e then e else k);
    SmallerFactor(n, d, if k <= e then e else k, root);
  }

  /** The smaller of two factors is at most the root. */
  lemma SmallerFactor(n: int, d: int, e: int, root: nat)
    requires 0 < d <= e && n == d * e && n < (root + 1) * (root + 1)
    ensures d <= root
  {
    if d > root {
      MultiplyMonotone(root + 1, d, root + 1);
      MultiplyMonotone(root + 1, e, d);
    }
  }

  /** n == k * e with both factors proper. */
  lemma CoFactor(n: int, k: int) returns (e: int)
    requires 2 <= k < n && Divides(k, n)
    ensures n == k * e && 2 <= e < n
  {
    e := n / k;
    assert n == k * e;
    if e <= 1 {
      MultiplyMonotone(e, 1, k);
    }
    MultiplyMonotone(2, k, e);
  }

  lemma OddFactors(n: int, k: int, e: int)
    requires n == k * e && n % 2 == 1
    ensures k % 2 == 1 && e % 2 == 1
  {
    var h, g := k / 2, e / 2;
    assert k % 2 == 0 ==> n == 2 * (h * e);
    assert e % 2 == 0 ==> n == 2 * (k * g);
  }

  lemma Multiple(n: int, d: int, e: int)
    requires d > 0 && n == d * e
    ensures Divides(d, n)
  {
    var q, r := n / d, n % d;
    assert d * (e - q) == r;
    if e - q >= 1 {
      MultiplyMonotone(1, e - q, d);
    } else if e - q <= -1 {
      MultiplyMonotone(e - q, -1, d);
    }
  }

  // ---------------------------------------------------- Euclid: enough primes

  function Factorial(n: nat): (f: nat)
    ensures f >= 1
  {
    if n == 0 then 1 else MultiplyPositive(n, Factorial(n - 1)); n * Factorial(n - 1)
  }

  lemma MultiplyPositive(a: nat, b: nat)
    requires a >= 1 && b >= 1
    ensures a * b >= 1
  {
  }

  lemma {:induction false} FactorialMultiple(n: nat, d: nat) returns (k: nat)
    requires 1 <= d <= n
    ensures Factorial(n) == d * k
  {
    if d == n {
      k := Factorial(n - 1);
    } else {
      var j := FactorialMultiple(n - 1, d);
      k := n * j;
      assert n * (d * j) == d * (n * j);
    }
  }

  /** Every number from 2 on has a prime divisor, its least divisor. */
  lemma LeastDivisor(m: nat) returns (d: nat)
    requires m >= 2
    ensures Prime(d) && Divides(d, m) && d <= m
  {
    d := 2;
    while !Divides(d, m)
      invariant 2 <= d <= m
      invariant forall k {:trigger Divides(k, m)} :: 2 <= k < d ==> !Divides(k, m)
      decreases m - d
    {
      Multiple(m, m, 1);
      d := d + 1;
    }
    forall k {:trigger Divides(k, d)} | 2 <= k < d ensures !Divides(k, d) {
      if Divides(k, d) {
        assert m == d * (m / d) && d == k * (d / k);
        assert m == k * ((d / k) * (m / d));
        Multiple(m, k, (d / k) * (m / d));
      }
    }
  }

  /** There is a prime above every number. */
  lemma PrimeAbove(n: nat) returns (p: nat)
    ensures Prime(p) && p > n
  {
    var m := Factorial(n) + 1;
    p := LeastDivisor(m);
    if p <= n {
      var k := FactorialMultiple(n, p);
      var q := m / p;
      assert m == p * q;
      assert p * (q - k) == 1;
      if q - k >= 1 {
        MultiplyMonotone(2, p, q - k);
      } else {
        MultiplyMonotone(q - k, 0, p);
      }
      assert false;
    }
  }

  // --------------------------------------------------------- the first primes

  /** `sizes` is the increasing list of the first |sizes| primes that are at least `start`. */
  ghost predicate FirstPrimes(sizes: seq<int>, start: int) {
    && Increasing(sizes)
    && (forall q :: q in sizes ==> q >= start && Prime(q))
    && (sizes != [] ==> Complete(sizes, start, sizes[|sizes| - 1]))
  }

  ghost predicate Increasing(s: seq<int>) {
    forall i, j :: 0 <= i < j < |s| ==> s[i] < s[j]
  }

  /** Every prime from `start` to `top` is in `sizes`. */
  ghost predicate Complete(sizes: seq<int>, start: int, top: int) {
    forall p :: start <= p <= top && Prime(p) ==> p in sizes
  }

  lemma AtMostLast(s: seq<int>, q: int)
    requires Increasing(s) && q in s
    ensures q <= s[|s| - 1]
  {
  }

  /** Length and start determine the list. */
  lemma {:induction false} FirstPrimesUnique(a: seq<int>, b: seq<int>, start: int)
    requires FirstPrimes(a, start) && FirstPrimes(b, start) && |a| == |b|
    ensures a == b
  {
    if a != [] {
      var n := |a| - 1;
      FirstPrimesPrefix(a, start);
      FirstPrimesPrefix(b, start);
      FirstPrimesUnique(a[..n], b[..n], start);
      LastNotBelow(a, b, start);
      LastNotBelow(b, a, start);
    }
  }

  lemma LastNotBelow(a: seq<int>, b: seq<int>, start: int)
    requires FirstPrimes(a, start) && FirstPrimes(b, start) && |a| == |b| > 0
    requires a[..|a| - 1] == b[..|b| - 1]
    ensures a[|a| - 1] >= b[|b| - 1]
  {
    var q := a[|a| - 1];
    assert q in a;
    forall i | 0 <= i < |b| - 1 ensures b[i] < q {
      assert b[i] == b[..|b| - 1][i] && a[i] == a[..|a| - 1][i];
    }
  }

  lemma BeforeLast(a: seq<int>, p: int)
    requires p in a && p != a[|a| - 1]
    ensures p in a[..|a| - 1]
  {
    var i :| 0 <= i < |a| && a[i] == p;
    assert a[..|a| - 1][i] == p;
  }

  lemma FirstPrimesPrefix(a: seq<int>, start: int)
    requires FirstPrimes(a, start) && |a| > 0
    ensures FirstPrimes(a[..|a| - 1], start)
  {
    var b := a[..|a| - 1];
    forall q | q in b ensures q >= start && Prime(q) {
      assert q in a;
    }
    if b != [] {
      var last := b[|b| - 1];
      assert last == a[|a| - 2] < a[|a| - 1];
      forall p | start <= p <= last && Prime(p) ensures p in b {
        assert p in a;
        BeforeLast(a, p);
      }
    }
  }

  lemma FirstPrimesAppend(sizes: seq<int>, start: int, q: int)
    requires FirstPrimes(sizes, start)
    requires Prime(q) && q >= start && q !in sizes && Complete(sizes, start, q - 1)
    ensures FirstPrimes(sizes + [q], start)
    ensures Complete(sizes + [q], start, q)
  {
    if sizes != [] {
      var last := sizes[|sizes| - 1];
      assert last in sizes;
      assert last < q || last == q || Prime(last);
    }
    assert forall i :: 0 <= i < |sizes| ==> sizes[i] in sizes;
  }

  // ------------------------------------------------------------ partitioning

  function Sum(s: seq<int>): int {
    if s == [] then 0 else s[0] + Sum(s[1..])
  }

  /** The first candidate above `current` that is prime and not taken yet. */
  method NextSize(seen: seq<int>, vocab: int, current: int) returns (size: int)
    requires FirstPrimes(seen, vocab) && current >= vocab - 1
    requires Complete(seen, vocab, current)
    ensures FirstPrimes(seen + [size], vocab) && size > current
    ensures Complete(seen + [size], vocab, size)
  {
    size := current + 1;
    ghost var bound := FreshPrime(seen, vocab, size);
    var prime := TrialDivision(size);
    while size in seen || !prime
      invariant current < size <= bound
      invariant prime <==> Prime(size)
      invariant Complete(seen, vocab, size - 1)
      decreases bound - size
    {
      size := size + 1;
      prime := TrialDivision(size);
    }
    FirstPrimesAppend(seen, vocab, size);
  }

  /** Euclid bounds the search: some prime from `size` on is not taken. */
  lemma FreshPrime(seen: seq<int>, vocab: int, size: int) returns (p: int)
    requires FirstPrimes(seen, vocab)
    ensures Prime(p) && p >= size && p !in seen
  {
    var top := if seen == [] then size else seen[|seen| - 1];
    p := PrimeAbove(if top > size && top > 0 then top else if size > 0 then size else 0);
    if p in seen {
      AtMostLast(seen, p);
    }
  }

  lemma NextMultiple(n: nat, m: nat)
    ensures (n + 1) * m == n * m + m
  {
  }

  /** All head sizes of one layer; every n-gram order starts again at the vocabulary size. */
  method LayerSizes(taken: seq<int>, vocab: int, orders: nat, heads: nat) returns (sizes: seq<int>)
    requires FirstPrimes(taken, vocab)
    ensures FirstPrimes(taken + sizes, vocab)
    ensures |sizes| == orders * heads
  {
    sizes := [];
    assert taken + [] == taken;
    for order := 0 to orders
      invariant FirstPrimes(taken + sizes, vocab) && |sizes| == order * heads
    {
      var current := vocab - 1;
      ghost var before := |sizes|;
      NextMultiple(order, heads);
      for head := 0 to heads
        invariant FirstPrimes(taken + sizes, vocab) && |sizes| == before + head
        invariant current >= vocab - 1
        invariant Complete(taken + sizes, vocab, current)
      {
        current := NextSize(taken + sizes, vocab, current);
        assert taken + sizes + [current] == taken + (sizes + [current]);
        sizes := sizes + [current];
      }
    }
  }

  datatype Plan = Plan(layer: int, sizes: seq<int>, split: int, rows: int)

  /** Half of the heads go to each rank, at the boundary `split`. */
  function MakePlan(layer: int, rows: int, sizes: seq<int>): Plan {
    Plan(layer, sizes, Sum(sizes[..|sizes| / 2]), rows)
  }

  /** The sizes add up to the table's rows and split over two ranks. */
  predicate Fits(plan: Plan) {
    Sum(plan.sizes) == plan.rows && |plan.sizes| % 2 == 0
  }

  /** All sizes handed out so far, in order. */
  function Taken(plans: seq<Plan>): seq<int> {
    if plans == [] then [] else Taken(plans[..|plans| - 1]) + plans[|plans| - 1].sizes
  }

  predicate AllFit(plans: seq<Plan>) {
    plans == [] || (AllFit(plans[..|plans| - 1]) && Fits(plans[|plans| - 1]))
  }

  method PlanLayer(taken: seq<int>, vocab: int, orders: nat, heads: nat, layer: int, rows: int)
    returns (plan: Plan, fits: bool)
    requires FirstPrimes(taken, vocab)
    ensures FirstPrimes(taken + plan.sizes, vocab) && |plan.sizes| == orders * heads
    ensures plan == MakePlan(layer, rows, plan.sizes)
    ensures fits <==> Fits(plan)
  {
    var sizes := LayerSizes(taken, vocab, orders, heads);
    plan := MakePlan(layer, rows, sizes);
    fits := Fits(plan);
  }

  lemma PlanAdded(plans: seq<Plan>, plan: Plan)
    ensures (plans + [plan])[..|plans|] == plans
    ensures Taken(plans + [plan]) == Taken(plans) + plan.sizes
    ensures AllFit(plans + [plan]) <==> AllFit(plans) && Fits(plan)
  {
    assert (plans + [plan])[..|plans|] == plans;
  }

  predicate PlanOf(layer: int, rows: int, size: nat, plan: Plan) {
    plan == MakePlan(layer, rows, plan.sizes) && |plan.sizes| == size
  }

  /** A plan keeps its layer and rows; its split is the sum of the first half of its sizes. */
  predicate Described(layer: int, rows: int, size: nat, plan: Plan) {
    && plan.layer == layer && plan.rows == rows && |plan.sizes| == size
    && plan.split == Sum(plan.sizes[..size / 2])
  }

  lemma {:induction false} FitOfAll(plans: seq<Plan>, k: nat)
    requires AllFit(plans) && k < |plans|
    ensures Fits(plans[k])
  {
    if k < |plans| - 1 {
      FitOfAll(plans[..|plans| - 1], k);
    }
  }

  /** Plans of the first layers, each with that many sizes. */
  predicate PlansOf(layers: seq<int>, rows: seq<int>, size: nat, plans: seq<Plan>)
    requires |layers| == |rows|
  {
    && |plans| <= |layers|
    && forall k :: 0 <= k < |plans| ==> PlanOf(layers[k], rows[k], size, plans[k])
  }

  /** All sizes of the planned layers together are the first primes from the vocabulary size on. */
  ghost predicate Planned(layers: seq<int>, rows: seq<int>, vocab: int, size: nat, plans: seq<Plan>)
    requires |layers| == |rows|
  {
    PlansOf(layers, rows, size, plans) && FirstPrimes(Taken(plans), vocab)
  }

  lemma PlansNext(layers: seq<int>, rows: seq<int>, size: nat, plans: seq<Plan>, plan: Plan)
    requires |plans| < |layers| == |rows| && PlansOf(layers, rows, size, plans)
    requires PlanOf(layers[|plans|], rows[|plans|], size, plan)
    ensures PlansOf(layers, rows, size, plans + [plan])
  {
  }

  lemma PlannedNext(layers: seq<int>, rows: seq<int>, vocab: int, size: nat, plans: seq<Plan>, plan: Plan)
    requires |plans| < |layers| == |rows| && PlansOf(layers, rows, size, plans)
    requires FirstPrimes(Taken(plans) + plan.sizes, vocab)
    requires PlanOf(layers[|plans|], rows[|plans|], size, plan)
    ensures Planned(layers, rows, vocab, size, plans + [plan])
    ensures (plans + [plan])[..|plans|] == plans && (AllFit(plans + [plan]) <==> AllFit(plans) && Fits(plan))
  {
    PlanAdded(plans, plan);
    PlansNext(layers, rows, size, plans, plan);
  }

  /**
  The plans of the layers in order (the program keys them by layer id). All sizes together
  are the first primes from the vocabulary size on. When a layer does not fit its table,
  it is the last one planned.
  */
  method Partitions(layers: seq<int>, rows: seq<int>, vocab: int, orders: nat, heads: nat)
    returns (plans: seq<Plan>, ok: bool)
    requires |layers| == |rows|
    ensures Planned(layers, rows, vocab, orders * heads, plans)
    ensures ok ==> |plans| == |layers| && AllFit(plans)
    ensures !ok ==> plans != [] && AllFit(plans[..|plans| - 1]) && !Fits(plans[|plans| - 1])
    ensures forall k :: 0 <= k < |plans| ==> Described(layers[k], rows[k], orders * heads, plans[k])
    ensures ok ==> forall k :: 0 <= k < |plans| ==> Sum(plans[k].sizes) == rows[k] && orders * heads % 2 == 0
    ensures !ok ==>
      var last := |plans| - 1;
      Sum(plans[last].sizes) != rows[last] || orders * heads % 2 != 0
  {
    plans, ok := [], true;
    var size := orders * heads;
    assert Planned(layers, rows, vocab, size, []);
    for i := 0 to |layers|
      invariant |plans| == i && Planned(layers, rows, vocab, size, plans) && AllFit(plans)
    {
      var fits;
      plans, fits := NextPlan(layers, rows, vocab, orders, heads, plans);
      if !fits {
        return plans, false;
      }
    }
    forall k | 0 <= k < |plans| ensures Fits(plans[k]) {
      FitOfAll(plans, k);
    }
  }

  /** The plan of one more layer. */
  method NextPlan(layers: seq<int>, rows: seq<int>, vocab: int, orders: nat, heads: nat, plans: seq<Plan>)
    returns (next: seq<Plan>, fits: bool)
    requires |plans| < |layers| == |rows| && Planned(layers, rows, vocab, orders * heads, plans)
    ensures Planned(layers, rows, vocab, orders * heads, next)
    ensures |next| == |plans| + 1 && next[..|plans|] == plans
    ensures fits <==> Fits(next[|plans|])
    ensures AllFit(next) <==> AllFit(plans) && fits
  {
    var plan;
    plan, fits := PlanLayer(Taken(plans), vocab, orders, heads, layers[|plans|], rows[|plans|]);
    PlannedNext(layers, rows, vocab, orders * heads, plans, plan);
    next := plans + [plan];
  }

  lemma {:induction false} FitsAt(plans: seq<Plan>, k: nat)
    requires AllFit(plans) && k < |plans|
    ensures Fits(plans[k])
  {
    if k < |plans| - 1 {
      FitsAt(plans[..|plans| - 1], k);
    }
  }

  lemma {:induction false} SizeIsTaken(plans: seq<Plan>, k: nat, h: nat)
    requires k < |plans| && h < |plans[k].sizes|
    ensures plans[k].sizes[h] in Taken(plans)
  {
    if k < |plans| - 1 {
      SizeIsTaken(plans[..|plans| - 1], k, h);
    }
  }

  /**
  Every head of every fitting plan has all of its rows in one rank's range, and the two
  ranges [0, split) and [split, rows) tile the rows.
  */
  lemma PlansSplitOnHeads(plans: seq<Plan>, vocab: int, k: nat, h: nat)
    requires FirstPrimes(Taken(plans), vocab) && AllFit(plans)
    requires k < |plans| && h < |plans[k].sizes|
    requires plans[k] == MakePlan(plans[k].layer, plans[k].rows, plans[k].sizes)
    ensures 0 <= plans[k].split <= plans[k].rows == Sum(plans[k].sizes)
    ensures HeadInOneRange(plans[k], h)
  {
    var sizes := plans[k].sizes;
    forall i | 0 <= i < |sizes| ensures sizes[i] > 0 {
      SizeIsTaken(plans, k, i);
    }
    FitsAt(plans, k);
    SumSplit(sizes, |sizes| / 2);
    HeadRange(plans[k], h);
  }

  ghost predicate HeadInOneRange(plan: Plan, h: nat)
    requires h < |plan.sizes|
  {
    var first, last := Sum(plan.sizes[..h]), Sum(plan.sizes[..h + 1]);
    if h < |plan.sizes| / 2 then 0 <= first < last <= plan.split
    else plan.split <= first < last <= plan.rows
  }

  lemma {:induction false} SumSplit(s: seq<int>, k: nat)
    requires k <= |s| && (forall i :: 0 <= i < |s| ==> s[i] > 0)
    ensures Sum(s) == Sum(s[..k]) + Sum(s[k..])
    ensures Sum(s[..k]) >= 0 && Sum(s[k..]) >= 0
  {
    if k == 0 {
      assert s[0..] == s;
      if s != [] {
        SumSplit(s[1..], 0);
        assert s[1..][0..] == s[1..];
      }
    } else {
      assert s[..k][1..] == s[1..][..k - 1];
      SumSplit(s[1..], k - 1);
    }
  }

  lemma HeadRange(plan: Plan, h: nat)
    requires h < |plan.sizes| && (forall i :: 0 <= i < |plan.sizes| ==> plan.sizes[i] > 0)
    requires plan.split == Sum(plan.sizes[..|plan.sizes| / 2]) && plan.rows == Sum(plan.sizes)
    ensures HeadInOneRange(plan, h)
  {
    var half := |plan.sizes| / 2;
    var s := plan.sizes;
    SumSplit(s, h);
    SumSplit(s, h + 1);
    SumSplit(s[..h + 1], h);
    assert s[..h + 1][..h] == s[..h] && s[..h + 1][h..] == [s[h]];
    if h < half {
      SumSplit(s[..half], h + 1);
      assert s[..half][..h + 1] == s[..h + 1];
    } else {
      SumSplit(s[..h], half);
      assert s[..h][..half] == s[..half];
    }
  }
}
