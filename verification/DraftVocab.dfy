/**
The draft vocabulary (`build_subset.main`): for each rank the most frequent tokens of its
half, with a few forced ones and filler, and the structure check of the loader.
*/
module DraftVocab {
  import opened Prelude

  // ----- Sums over sets of tokens -----

  lemma HasMember(ids: set<int>)
    ensures ids == {} || exists t :: t in ids
  {
    if !exists t :: t in ids {
      assert ids == {};
    }
  }

  /** How many corpus tokens a set of ids covers. */
  ghost function Covered(corpus: multiset<int>, ids: set<int>): nat {
    HasMember(ids);
    if ids == {} then 0
    else
      var t :| t in ids;
      corpus[t] + Covered(corpus, ids - {t})
  }

  lemma {:induction false} CoveredWithout(corpus: multiset<int>, ids: set<int>, t: int)
    requires t in ids
    ensures Covered(corpus, ids) == corpus[t] + Covered(corpus, ids - {t})
    decreases ids
  {
    HasMember(ids);
    var u :| u in ids && Covered(corpus, ids) == corpus[u] + Covered(corpus, ids - {u});
    if u != t {
      CoveredWithout(corpus, ids - {u}, t);
      CoveredWithout(corpus, ids - {t}, u);
      assert ids - {u} - {t} == ids - {t} - {u};
    }
  }

  lemma {:induction false} CoveredUnion(corpus: multiset<int>, a: set<int>, b: set<int>)
    requires a !! b
    ensures Covered(corpus, a + b) == Covered(corpus, a) + Covered(corpus, b)
    decreases a
  {
    if a == {} {
      assert a + b == b;
    } else {
      HasMember(a);
      var t :| t in a;
      CoveredWithout(corpus, a, t);
      CoveredWithout(corpus, a + b, t);
      assert a + b - {t} == (a - {t}) + b;
      CoveredUnion(corpus, a - {t}, b);
    }
  }

  /** Exchanging tokens one by one for no less frequent ones does not lose coverage. */
  lemma {:induction false} Exchange(corpus: multiset<int>, a: set<int>, b: set<int>)
    requires |a| == |b| && forall x, y :: x in a && y in b ==> corpus[x] >= corpus[y]
    ensures Covered(corpus, a) >= Covered(corpus, b)
    decreases a
  {
    if a != {} {
      HasMember(a);
      HasMember(b);
      var x :| x in a;
      assert b != {};
      var y :| y in b;
      CoveredWithout(corpus, a, x);
      CoveredWithout(corpus, b, y);
      Exchange(corpus, a - {x}, b - {y});
    }
  }

  // ----- What a selection should be -----

  /** The special tokens of a half. */
  function Forced(lo: int, hi: int): set<int> {
    {0, 1, 2} * Span(lo, hi)
  }

  /** What sorted returns for the candidates: the more frequent first, then the smaller id. */
  ghost predicate IsRanked(corpus: multiset<int>, lo: int, hi: int, ranked: seq<int>) {
    && (forall t :: t in ranked <==> t in corpus && lo <= t < hi && t !in Forced(lo, hi))
    && forall i, j :: 0 <= i < j < |ranked| ==>
         corpus[ranked[i]] > corpus[ranked[j]] || (corpus[ranked[i]] == corpus[ranked[j]] && ranked[i] < ranked[j])
  }

  /** A subset the drafter could use: in the half, of the given size, with the forced tokens. */
  predicate Admissible(lo: int, hi: int, size: nat, ids: set<int>) {
    |ids| == size && Forced(lo, hi) <= ids <= Span(lo, hi)
  }

  /** Of all such subsets none covers more of the corpus. */
  ghost predicate Optimal(corpus: multiset<int>, lo: int, hi: int, size: nat, ids: set<int>) {
    && Admissible(lo, hi, size, ids)
    && forall other: set<int> :: Admissible(lo, hi, size, other) ==> Covered(corpus, other) <= Covered(corpus, ids)
  }

  /** Nothing outside a selection is more frequent than what was chosen freely. */
  ghost predicate Greedy(corpus: multiset<int>, lo: int, hi: int, ids: set<int>) {
    forall x, y :: x in ids && x !in Forced(lo, hi) && lo <= y < hi && y !in ids ==> corpus[x] >= corpus[y]
  }

  lemma GreedyIsOptimal(corpus: multiset<int>, lo: int, hi: int, size: nat, ids: set<int>)
    requires Admissible(lo, hi, size, ids) && Greedy(corpus, lo, hi, ids)
    ensures Optimal(corpus, lo, hi, size, ids)
  {
    forall other: set<int> | Admissible(lo, hi, size, other) ensures Covered(corpus, other) <= Covered(corpus, ids) {
      var both, a, b := ids * other, ids - other, other - ids;
      assert ids == both + a && other == both + b;
      assert |ids| == |both| + |a| && |other| == |both| + |b|;
      CoveredUnion(corpus, both, a);
      CoveredUnion(corpus, both, b);
      Exchange(corpus, a, b);
    }
  }

  // ----- The program -----

  /** The forced tokens and the first n of the ranking. */
  ghost predicate Takes(lo: int, hi: int, ranked: seq<int>, n: nat, chosen: set<int>)
    requires n <= |ranked|
  {
    forall t :: t in chosen <==> t in Forced(lo, hi) || t in ranked[..n]
  }

  lemma RankedOnce(corpus: multiset<int>, lo: int, hi: int, ranked: seq<int>, n: nat)
    requires IsRanked(corpus, lo, hi, ranked) && n < |ranked|
    ensures ranked[n] !in Forced(lo, hi) && ranked[n] !in ranked[..n] && lo <= ranked[n] < hi
  {
    assert ranked[n] in ranked;
  }

  lemma TakenIsGreedy(corpus: multiset<int>, lo: int, hi: int, ranked: seq<int>, n: nat, chosen: set<int>)
    requires IsRanked(corpus, lo, hi, ranked) && n <= |ranked| && Takes(lo, hi, ranked, n, chosen)
    ensures Greedy(corpus, lo, hi, chosen)
    ensures n == |ranked| ==> forall t :: t in corpus && lo <= t < hi ==> t in chosen
  {
    forall x, y | x in chosen && x !in Forced(lo, hi) && lo <= y < hi && y !in chosen
      ensures corpus[x] >= corpus[y] {
      if y in corpus {
        assert y in ranked;
        var i :| 0 <= i < n && ranked[..n][i] == x;
        var j :| 0 <= j < |ranked| && ranked[j] == y;
        assert j >= n;
      }
    }
    assert ranked[..|ranked|] == ranked;
  }

  /** The forced tokens and as much of the ranking as fits. */
  method Choose(corpus: multiset<int>, lo: int, hi: int, size: nat, ranked: seq<int>) returns (chosen: set<int>)
    requires IsRanked(corpus, lo, hi, ranked) && |Forced(lo, hi)| <= size
    ensures Forced(lo, hi) <= chosen <= Span(lo, hi) && |chosen| <= size
    ensures Greedy(corpus, lo, hi, chosen)
    ensures |chosen| < size ==> forall t :: t in corpus && lo <= t < hi ==> t in chosen
  {
    chosen := Forced(lo, hi);
    var free := size - |chosen|;
    var n := if |ranked| <= free then |ranked| else free;
    for i := 0 to n
      invariant Takes(lo, hi, ranked, i, chosen) && chosen <= Span(lo, hi)
      invariant |chosen| == |Forced(lo, hi)| + i
    {
      RankedOnce(corpus, lo, hi, ranked, i);
      assert ranked[..i + 1] == ranked[..i] + [ranked[i]];
      chosen := chosen + {ranked[i]};
    }
    TakenIsGreedy(corpus, lo, hi, ranked, n, chosen);
  }

  /** The filler: the lowest ids not chosen yet. It never runs out. */
  method Fill(corpus: multiset<int>, lo: int, hi: int, size: nat, start: set<int>) returns (chosen: set<int>)
    requires size <= hi - lo && start <= Span(lo, hi) && |start| <= size
    requires Forced(lo, hi) <= start && Greedy(corpus, lo, hi, start)
    requires |start| < size ==> forall t :: t in corpus && lo <= t < hi ==> t in start
    ensures Admissible(lo, hi, size, chosen) && Greedy(corpus, lo, hi, chosen) && start <= chosen
  {
    chosen := start;
    var next := lo;
    while |chosen| < size
      invariant start <= chosen <= Span(lo, hi) && |chosen| <= size && lo <= next <= hi
      invariant forall t :: lo <= t < next ==> t in chosen
      invariant Greedy(corpus, lo, hi, chosen)
      decreases size - |chosen|
    {
      while next < hi && next in chosen
        invariant lo <= next <= hi && forall t :: lo <= t < next ==> t in chosen
      {
        next := next + 1;
      }
      if next == hi {
        assert chosen == Span(lo, hi);
        SpanCount(lo, hi);
        assert false;
      }
      chosen := chosen + {next};
      next := next + 1;
    }
  }

  predicate Increasing(s: seq<int>) {
    forall i, j :: 0 <= i < j < |s| ==> s[i] < s[j]
  }

  lemma IncreasingAppend(s: seq<int>, t: int)
    requires Increasing(s) && forall u <- s :: u < t
    ensures Increasing(s + [t])
  {
    forall i | 0 <= i < |s| ensures s[i] < t {
      assert s[i] in s;
    }
  }

  lemma OneMoreId(r: seq<int>, done: set<int>, t: int)
    requires |r| == |done| && t !in done && forall u :: u in r <==> u in done
    ensures |r + [t]| == |done + {t}| && forall u :: u in r + [t] <==> u in done + {t}
  {
  }

  /** sorted, for ids of one half. */
  method Sorted(lo: int, hi: int, ids: set<int>) returns (r: seq<int>)
    requires lo <= hi && ids <= Span(lo, hi)
    ensures Increasing(r) && |r| == |ids| && forall t :: t in r <==> t in ids
  {
    r := [];
    ghost var done: set<int> := {};
    for t := lo to hi
      invariant Increasing(r) && |r| == |done| && done <= ids
      invariant forall u :: u in r <==> u in done
      invariant forall u :: u in done <==> u in ids && u < t
    {
      if t in ids {
        IncreasingAppend(r, t);
        OneMoreId(r, done, t);
        r := r + [t];
        done := done + {t};
      }
    }
    SameIds(done, ids, lo, hi);
  }

  lemma SameIds(done: set<int>, ids: set<int>, lo: int, hi: int)
    requires ids <= Span(lo, hi) && forall u :: u in done <==> u in ids && u < hi
    ensures done == ids
  {
    forall u ensures u in done <==> u in ids {
      assert u in ids ==> u in Span(lo, hi);
    }
  }

  /** The first id of a rank's half of the vocabulary; the next rank's is its end. */
  function First(rank: nat): int {
    rank * 64640
  }

  /** A row list of the best admissible subset of one half. */
  ghost predicate BestRank(corpus: multiset<int>, rank: nat, size: nat, ids: seq<int>) {
    && Increasing(ids) && |ids| == size && InHalf(rank, ids)
    && Optimal(corpus, First(rank), First(rank + 1), size, set t | t in ids)
  }

  predicate InHalf(rank: nat, ids: seq<int>) {
    forall i :: 0 <= i < |ids| ==> First(rank) <= ids[i] < First(rank + 1)
  }

  /** What is chosen for a rank lies in its half; the first half holds the special tokens 0, 1 and 2. */
  lemma RankTokens(corpus: multiset<int>, rank: nat, size: nat, ids: seq<int>)
    requires BestRank(corpus, rank, size, ids)
    ensures forall t <- ids :: rank * 64640 <= t < rank * 64640 + 64640
    ensures rank == 0 ==> 0 in ids && 1 in ids && 2 in ids
  {
    var lo, hi := First(rank), First(rank + 1);
    var chosen := set t | t in ids;
    forall t | t in ids ensures lo <= t < hi {
      assert t in chosen && t in Span(lo, hi);
    }
    if rank == 0 {
      assert 0 in Forced(lo, hi) && 1 in Forced(lo, hi) && 2 in Forced(lo, hi);
    }
  }

  /** One rank of the subset. */
  method SelectRank(corpus: multiset<int>, rank: nat, size: nat, ranked: seq<int>) returns (ids: seq<int>)
    requires rank <= 1 && 1024 <= size <= 64640 && IsRanked(corpus, First(rank), First(rank + 1), ranked)
    ensures BestRank(corpus, rank, size, ids)
  {
    var lo, hi := First(rank), First(rank + 1);
    SubsetSize(Forced(lo, hi), {0, 1, 2});
    var chosen := Choose(corpus, lo, hi, size, ranked);
    chosen := Fill(corpus, lo, hi, size, chosen);
    GreedyIsOptimal(corpus, lo, hi, size, chosen);
    ids := Sorted(lo, hi, chosen);
    assert chosen == set t | t in ids;
    forall i | 0 <= i < |ids| ensures lo <= ids[i] < hi {
      assert ids[i] in ids && ids[i] in Span(lo, hi);
    }
  }

  datatype Subset = Subset(size: nat, ranks: seq<seq<int>>)

  /** The loader's check: sorted distinct ids of the right half, equally many for each rank. */
  predicate LoaderAccepts(s: Subset) {
    && |s.ranks| == 2
    && forall rank :: 0 <= rank < 2 ==>
         |s.ranks[rank]| == s.size && Increasing(s.ranks[rank]) && InHalf(rank, s.ranks[rank])
  }

  /**
  The whole selection. Without a single corpus token the coverage cannot be computed and
  nothing is written; otherwise the loader accepts what is written.
  */
  method Build(corpus: multiset<int>, size: nat, ranked: seq<seq<int>>) returns (subset: Option<Subset>)
    requires 1024 <= size <= 64640 && |ranked| == 2
    requires forall rank :: 0 <= rank < 2 ==> IsRanked(corpus, First(rank), First(rank + 1), ranked[rank])
    ensures subset.None? <==> |corpus| == 0
    ensures subset.Some? ==> subset.value.size == size && LoaderAccepts(subset.value)
    ensures subset.Some? ==> forall rank :: 0 <= rank < 2 ==> BestRank(corpus, rank, size, subset.value.ranks[rank])
  {
    var first := SelectRank(corpus, 0, size, ranked[0]);
    var second := SelectRank(corpus, 1, size, ranked[1]);
    if |corpus| == 0 {
      return None;
    }
    return Some(Subset(size, [first, second]));
  }
}
