/**
The prefix-survival average (`PrefixEMA`): how long a draft prefix survives verification,
updated per request with censored tails, and the prefix length chosen from it. Exact reals.
*/
module PrefixEma {
  import opened Prelude

  /** survival[i] estimates how often more than i drafted tokens are accepted. */
  datatype State = State(survival: seq<real>, steps: nat, shortSteps: nat)

  datatype Config = Config(lengths: seq<nat>, alpha: real, warmup: nat, exploreAfter: nat, margin: real) {
    predicate Valid() {
      && |lengths| > 0
      && (forall i :: 0 <= i < |lengths| ==> 1 <= lengths[i] <= 5)
      && (forall i, j :: 0 <= i < j < |lengths| ==> lengths[i] < lengths[j])
      && 0.0 < alpha <= 1.0 && warmup >= 1 && exploreAfter >= 1 && margin >= 0.0
    }

    function Maximum(): (k: nat)
      requires Valid()
      ensures 1 <= k <= 5 && k in lengths && forall j <- lengths :: j <= k
    {
      lengths[|lengths| - 1]
    }
  }

  /** Probabilities that never increase with the prefix. */
  predicate Survival(s: seq<real>) {
    && (forall i :: 0 <= i < |s| ==> 0.0 <= s[i] <= 1.0)
    && forall i, j :: 0 <= i < j < |s| ==> s[j] <= s[i]
  }

  // ----- One observation -----

  predicate Observable(config: Config, id: string, drafted: int, accepted: int)
    requires config.Valid()
  {
    id != "" && 0 <= drafted <= config.Maximum() && 0 <= accepted <= drafted
  }

  /** A fully accepted short prefix says nothing about the tail. */
  predicate Censored(drafted: nat, accepted: nat, i: nat) {
    i >= drafted && accepted == drafted
  }

  function Blend(alpha: real, drafted: nat, accepted: nat, i: nat, old_: real): real {
    if Censored(drafted, accepted, i) then old_
    else old_ + alpha * ((if i < accepted then 1.0 else 0.0) - old_)
  }

  function Blended(alpha: real, drafted: nat, accepted: nat, s: seq<real>): (r: seq<real>)
    ensures |r| == |s| && forall i :: 0 <= i < |s| ==> r[i] == Blend(alpha, drafted, accepted, i, s[i])
  {
    seq(|s|, i requires 0 <= i < |s| => Blend(alpha, drafted, accepted, i, s[i]))
  }

  function Min(x: real, y: real): real {
    if x <= y then x else y
  }

  /** The least of the first n + 1 entries. */
  function Least(s: seq<real>, n: nat): (m: real)
    requires n < |s|
    ensures exists k :: 0 <= k <= n && m == s[k]
    ensures forall k :: 0 <= k <= n ==> m <= s[k]
  {
    if n == 0 then s[0] else Min(s[n], Least(s, n - 1))
  }

  /** Every entry replaced by the least one so far. */
  function PrefixMinima(s: seq<real>): (r: seq<real>)
    ensures |r| == |s| && forall i :: 0 <= i < |s| ==> r[i] == Least(s, i)
  {
    seq(|s|, i requires 0 <= i < |s| => Least(s, i))
  }

  function NewSurvival(alpha: real, drafted: nat, accepted: nat, s: seq<real>): (r: seq<real>)
    ensures |r| == |s|
  {
    PrefixMinima(Blended(alpha, drafted, accepted, s))
  }

  lemma BlendInRange(alpha: real, drafted: nat, accepted: nat, i: nat, x: real)
    requires 0.0 < alpha <= 1.0 && 0.0 <= x <= 1.0
    ensures 0.0 <= Blend(alpha, drafted, accepted, i, x) <= 1.0
  {
    NonNegative(1.0 - alpha, x);
    NonNegative(1.0 - alpha, 1.0 - x);
    NonNegative(alpha, 1.0 - x);
  }

  /** An update keeps the estimates probabilities, and nonincreasing despite the censoring. */
  lemma SurvivalKept(alpha: real, drafted: nat, accepted: nat, s: seq<real>)
    requires 0.0 < alpha <= 1.0 && Survival(s)
    ensures Survival(NewSurvival(alpha, drafted, accepted, s))
  {
    var b := Blended(alpha, drafted, accepted, s);
    forall i | 0 <= i < |s| ensures 0.0 <= b[i] <= 1.0 {
      BlendInRange(alpha, drafted, accepted, i, s[i]);
    }
    forall i, j | 0 <= i < j < |s| ensures Least(b, j) <= Least(b, i) {
      LeastDecreases(b, i, j);
    }
  }

  lemma LeastDecreases(s: seq<real>, i: nat, j: nat)
    requires i <= j < |s|
    ensures Least(s, j) <= Least(s, i)
  {
    var k :| 0 <= k <= i && Least(s, i) == s[k];
  }

  /**
  What an observation makes of the survival s: below the accepted tokens it moves towards 1; from
  there on it shrinks, unless the whole draft was accepted, which leaves the rest as it is.
  */
  ghost predicate Moved(alpha: real, drafted: nat, accepted: nat, s: seq<real>, t: seq<real>) {
    |t| == |s| && forall i :: 0 <= i < |s| ==> MovedEntry(alpha, drafted, accepted, i, s[i], t[i])
  }

  predicate MovedEntry(alpha: real, drafted: nat, accepted: nat, i: nat, old_: real, new_: real) {
    if i < accepted then old_ <= new_ == (1.0 - alpha) * old_ + alpha
    else if accepted < drafted then new_ == (1.0 - alpha) * old_
    else new_ == old_
  }

  /** Every entry of the first pass, and on nonincreasing estimates the pass keeps their order. */
  lemma BlendOrdered(alpha: real, drafted: nat, accepted: nat, s: seq<real>, i: nat, j: nat)
    requires 0.0 < alpha <= 1.0 && Survival(s) && accepted <= drafted && i <= j < |s|
    ensures Blend(alpha, drafted, accepted, j, s[j]) <= Blend(alpha, drafted, accepted, i, s[i])
  {
    var c, x, y := 1.0 - alpha, s[i], s[j];
    assert y <= x;
    NonNegative(c, x - y);
    assert c * (x - y) == c * x - c * y;
    assert x + alpha * (0.0 - x) == c * x && y + alpha * (0.0 - y) == c * y;
    NonNegative(alpha, y);
    NonNegative(alpha, 1.0 - x);
  }

  lemma LeastOfDecreasing(s: seq<real>, n: nat)
    requires n < |s| && forall i :: 0 <= i <= n ==> s[n] <= s[i]
    ensures Least(s, n) == s[n]
  {
    var k :| 0 <= k <= n && Least(s, n) == s[k];
  }

  lemma BlendMoves(alpha: real, drafted: nat, accepted: nat, i: nat, x: real)
    requires 0.0 < alpha <= 1.0 && 0.0 <= x <= 1.0 && accepted <= drafted
    ensures MovedEntry(alpha, drafted, accepted, i, x, Blend(alpha, drafted, accepted, i, x))
  {
    NonNegative(alpha, 1.0 - x);
  }

  /** The exact update. In exact arithmetic the first pass keeps the order, so the second never acts. */
  lemma UpdateIsExact(alpha: real, drafted: nat, accepted: nat, s: seq<real>)
    requires 0.0 < alpha <= 1.0 && Survival(s) && accepted <= drafted
    ensures Moved(alpha, drafted, accepted, s, NewSurvival(alpha, drafted, accepted, s))
  {
    var b := Blended(alpha, drafted, accepted, s);
    forall i | 0 <= i < |s| ensures Least(b, i) == b[i] {
      forall k | 0 <= k <= i ensures b[i] <= b[k] {
        BlendOrdered(alpha, drafted, accepted, s, k, i);
      }
      LeastOfDecreasing(b, i);
    }
    forall i | 0 <= i < |s| ensures MovedEntry(alpha, drafted, accepted, i, s[i], b[i]) {
      BlendMoves(alpha, drafted, accepted, i, s[i]);
    }
  }

  lemma UpdateMoves(config: Config, drafted: nat, accepted: nat, s: seq<real>)
    ensures config.Valid() && Survival(s) && accepted <= drafted ==>
      Moved(config.alpha, drafted, accepted, s, NewSurvival(config.alpha, drafted, accepted, s))
  {
    if config.Valid() && Survival(s) && accepted <= drafted {
      UpdateIsExact(config.alpha, drafted, accepted, s);
    }
  }

  // ----- More accepted tokens never hurt -----

  predicate AtMost(s: seq<real>, t: seq<real>) {
    |s| == |t| && forall i :: 0 <= i < |s| ==> s[i] <= t[i]
  }

  lemma BlendMonotone(alpha: real, drafted: nat, a: nat, b: nat, i: nat, x: real, y: real)
    requires 0.0 < alpha <= 1.0 && a <= b <= drafted && 0.0 <= x <= y <= 1.0
    ensures Blend(alpha, drafted, a, i, x) <= Blend(alpha, drafted, b, i, y)
  {
    var c := 1.0 - alpha;
    NonNegative(c, y - x);
    assert c * (y - x) == c * y - c * x;
    assert x + alpha * (0.0 - x) == c * x;
    assert x + alpha * (1.0 - x) == c * x + alpha;
    assert y + alpha * (0.0 - y) == c * y;
    assert y + alpha * (1.0 - y) == c * y + alpha;
    NonNegative(alpha, x);
    NonNegative(alpha, 1.0 - y);
  }

  lemma NonNegative(x: real, y: real)
    requires x >= 0.0 && y >= 0.0
    ensures x * y >= 0.0
  {
  }

  /** For the same drafted length, more accepted tokens keep the survival at least as high. */
  lemma SurvivalMonotone(alpha: real, drafted: nat, a: nat, b: nat, s: seq<real>, t: seq<real>)
    requires 0.0 < alpha <= 1.0 && a <= b <= drafted && Survival(s) && Survival(t) && AtMost(s, t)
    ensures AtMost(NewSurvival(alpha, drafted, a, s), NewSurvival(alpha, drafted, b, t))
  {
    var x, y := Blended(alpha, drafted, a, s), Blended(alpha, drafted, b, t);
    forall i | 0 <= i < |s| ensures x[i] <= y[i] {
      BlendMonotone(alpha, drafted, a, b, i, s[i], t[i]);
    }
    forall i | 0 <= i < |s| ensures Least(x, i) <= Least(y, i) {
      var k :| 0 <= k <= i && Least(y, i) == y[k];
      assert x[k] <= y[k];
    }
  }

  // ----- The state of all requests -----

  type States = map<string, State>

  function Initial(config: Config): State
    requires config.Valid()
  {
    State(seq(config.Maximum(), _ => 1.0), 0, 0)
  }

  function StateOf(config: Config, states: States, id: string): State
    requires config.Valid()
  {
    if id in states then states[id] else Initial(config)
  }

  function Advanced(config: Config, s: State, drafted: nat, accepted: nat): State
    requires config.Valid()
  {
    State(NewSurvival(config.alpha, drafted, accepted, s.survival), s.steps + 1,
          if drafted == config.Maximum() then 0 else s.shortSteps + 1)
  }

  /** observe as a function: invalid observations and empty drafts change nothing. */
  function Observed(config: Config, states: States, id: string, drafted: int, accepted: int): States
    requires config.Valid()
  {
    if !Observable(config, id, drafted, accepted) || drafted == 0 then states
    else states[id := Advanced(config, StateOf(config, states, id), drafted, accepted)]
  }

  /** An observation of one request: its estimates have moved, its drafts are counted, no other changes. */
  ghost predicate Learned(config: Config, before: States, after: States, id: string, drafted: nat, accepted: nat)
    requires config.Valid()
  {
    && id in after && after == before[id := after[id]]
    && var was := if id in before then before[id] else State(seq(config.Maximum(), _ => 1.0), 0, 0);
       && Moved(config.alpha, drafted, accepted, was.survival, after[id].survival)
       && after[id].steps == was.steps + 1
       && after[id].shortSteps == if drafted == config.Maximum() then 0 else was.shortSteps + 1
  }

  predicate ValidState(config: Config, s: State)
    requires config.Valid()
  {
    |s.survival| == config.Maximum() && Survival(s.survival)
  }

  predicate ValidStates(config: Config, states: States)
    requires config.Valid()
  {
    forall id <- states :: ValidState(config, states[id])
  }

  lemma ObservedKeepsValid(config: Config, states: States, id: string, drafted: int, accepted: int)
    requires config.Valid() && ValidStates(config, states)
    ensures ValidStates(config, Observed(config, states, id, drafted, accepted))
  {
    if Observable(config, id, drafted, accepted) && drafted > 0 {
      SurvivalKept(config.alpha, drafted, accepted, StateOf(config, states, id).survival);
    }
  }

  lemma ObservedLearns(config: Config, states: States, id: string, drafted: int, accepted: int)
    requires config.Valid() && ValidStates(config, states)
    requires Observable(config, id, drafted, accepted) && drafted > 0
    ensures Learned(config, states, Observed(config, states, id, drafted, accepted), id, drafted, accepted)
  {
    UpdateIsExact(config.alpha, drafted, accepted, StateOf(config, states, id).survival);
  }

  // ----- The choice -----

  function Total(s: seq<real>, n: nat): real
    requires n <= |s|
  {
    if n == 0 then 0.0 else Total(s, n - 1) + s[n - 1]
  }

  /** Expected useful tokens of the batch: one for each request plus its surviving prefix. */
  function Useful(states: States, ids: seq<string>, k: nat): real
    requires forall id <- ids :: id in states && k <= |states[id].survival|
  {
    if ids == [] then 0.0
    else Useful(states, ids[..|ids| - 1], k) + 1.0 + Total(states[ids[|ids| - 1]].survival, k)
  }

  function Expected(config: Config, states: States, ids: seq<string>): real
    requires config.Valid() && ValidStates(config, states) && forall id <- ids :: id in states
  {
    if ids == [] then 0.0
    else
      Expected(config, states, ids[..|ids| - 1]) + Total(states[ids[|ids| - 1]].survival, config.Maximum())
  }

  /** How many requests of the batch are expected to have more than k tokens accepted. */
  function Surviving(states: States, ids: seq<string>, k: nat): real
    requires forall id <- ids :: id in states && k < |states[id].survival|
  {
    if ids == [] then 0.0
    else Surviving(states, ids[..|ids| - 1], k) + states[ids[|ids| - 1]].survival[k]
  }

  /** Drafting nothing yields one token for each request; every further position adds its survivors. */
  lemma {:induction false} UsefulByPosition(states: States, ids: seq<string>, k: nat)
    requires forall id <- ids :: id in states && k < |states[id].survival|
    ensures Useful(states, ids, 0) == |ids| as real
    ensures Useful(states, ids, k + 1) == Useful(states, ids, k) + Surviving(states, ids, k)
  {
    if ids != [] {
      UsefulByPosition(states, ids[..|ids| - 1], k);
    }
  }

  /** The choice without costs rests on the same expectation, of a full draft. */
  lemma {:induction false} ExpectedIsUseful(config: Config, states: States, ids: seq<string>)
    requires config.Valid() && ValidStates(config, states) && forall id <- ids :: id in states
    ensures Expected(config, states, ids) == Useful(states, ids, config.Maximum()) - |ids| as real
  {
    if ids != [] {
      ExpectedIsUseful(config, states, ids[..|ids| - 1]);
    }
  }

  /** The probability that exactly j tokens are accepted, as the survival estimates it. */
  function Exactly(s: seq<real>, j: nat): real
    requires j <= |s|
  {
    (if j == 0 then 1.0 else s[j - 1]) - if j < |s| then s[j] else 0.0
  }

  /** The mean of min(accepted, k) over the first n numbers of accepted tokens. */
  function MeanAccepted(s: seq<real>, k: nat, n: nat): real
    requires n <= |s| + 1
  {
    if n == 0 then 0.0 else MeanAccepted(s, k, n - 1) + Exactly(s, n - 1) * (if n - 1 <= k then n - 1 else k) as real
  }

  /** The part of a mean that one more number of accepted tokens adds, a and b surviving before and after it. */
  lemma OneMoreNumber(a: real, b: real, m: real, l: real)
    requires m == l || m == l + 1.0
    ensures (a - b) * m - a * l == (if m == l then 0.0 else a) - b * m
  {
    assert (a - b) * m == a * m - b * m;
    assert a * m == a * l + a * (m - l);
  }

  lemma {:induction false} PartialMean(s: seq<real>, k: nat, n: nat)
    requires k <= |s| && n <= |s|
    ensures MeanAccepted(s, k, n + 1) ==
            Total(s, if n <= k then n else k) - (if n < |s| then s[n] else 0.0) * (if n <= k then n else k) as real
  {
    if n > 0 {
      var b := if n < |s| then s[n] else 0.0;
      PartialMean(s, k, n - 1);
      if n <= k {
        OneMoreNumber(s[n - 1], b, n as real, (n - 1) as real);
      } else {
        OneMoreNumber(s[n - 1], b, k as real, k as real);
      }
    }
  }

  /** The summed survival of the first k positions is the mean number of accepted tokens, at most k. */
  lemma TotalIsMean(s: seq<real>, k: nat)
    requires k <= |s|
    ensures Total(s, k) == MeanAccepted(s, k, |s| + 1)
  {
    PartialMean(s, k, |s|);
  }

  function Ceil(x: real): (c: int)
    ensures x <= c as real < x + 1.0
  {
    -(-x).Floor
  }

  /** The mean expected survival of the batch, with the margin, rounded up. */
  function Target(config: Config, states: States, ids: seq<string>): int
    requires config.Valid() && ValidStates(config, states) && ids != [] && forall id <- ids :: id in states
  {
    Ceil(Expected(config, states, ids) / |ids| as real + config.margin)
  }

  /** The largest of the first n lengths up to the target, or the first one. */
  function Largest(lengths: seq<nat>, n: nat, target: int): (k: nat)
    requires 0 < n <= |lengths|
    ensures k in lengths
  {
    if n == 1 || lengths[n - 1] <= target then lengths[n - 1] else Largest(lengths, n - 1, target)
  }

  predicate Better(scores: map<nat, real>, k: nat, j: nat)
    requires k in scores && j in scores
  {
    scores[k] > scores[j] || (scores[k] == scores[j] && k < j)
  }

  /** The best of the first n lengths; on a tie the shorter one. */
  function Best(lengths: seq<nat>, n: nat, scores: map<nat, real>): (k: nat)
    requires 0 < n <= |lengths| && forall k <- lengths :: k in scores
    ensures k in lengths && k in scores
  {
    if n == 1 then lengths[0]
    else
      var j := Best(lengths, n - 1, scores);
      if Better(scores, lengths[n - 1], j) then lengths[n - 1] else j
  }

  datatype Error = BadBatch | BadCosts

  /** A request that forces a full draft: unknown, in warmup, or due for exploration. */
  predicate Forces(config: Config, states: States, id: string) {
    id !in states || states[id].steps < config.warmup || states[id].shortSteps >= config.exploreAfter
  }

  predicate BadPrices(config: Config, costs: map<nat, real>) {
    costs.Keys != (set k | k in config.lengths) || exists k <- costs :: costs[k] <= 0.0
  }

  function Scores(config: Config, states: States, ids: seq<string>, costs: map<nat, real>): map<nat, real>
    requires config.Valid() && ValidStates(config, states) && (forall id <- ids :: id in states)
    requires !BadPrices(config, costs)
  {
    map k | k in config.lengths :: Useful(states, ids, k) / costs[k]
  }

  function Distinct(ids: seq<string>): bool {
    forall i, j :: 0 <= i < j < |ids| ==> ids[i] != ids[j]
  }

  /** choose: the prefix length for a batch; it never changes the state. */
  function Choose(config: Config, states: States, ids: seq<string>, structured: set<string>,
                  costs: Option<map<nat, real>>): Result<nat, Error>
    requires config.Valid() && ValidStates(config, states)
  {
    if |ids| > 6 || !Distinct(ids) then Err(BadBatch)
    else if ids == [] || (exists id <- ids :: id in structured) then Ok(config.Maximum())
    else if exists id <- ids :: Forces(config, states, id) then Ok(config.Maximum())
    else if costs.Some? then
      if BadPrices(config, costs.value) then Err(BadCosts)
      else Ok(Best(config.lengths, |config.lengths|, Scores(config, states, ids, costs.value)))
    else
      Ok(Largest(config.lengths, |config.lengths|, Target(config, states, ids)))
  }

  lemma {:induction false} BestIsShortest(lengths: seq<nat>, n: nat, scores: map<nat, real>)
    requires 0 < n <= |lengths| && forall k <- lengths :: k in scores
    ensures var k := Best(lengths, n, scores);
      forall j :: 0 <= j < n ==> scores[lengths[j]] < scores[k] || (scores[lengths[j]] == scores[k] && k <= lengths[j])
  {
    if n > 1 {
      BestIsShortest(lengths, n - 1, scores);
    }
  }

  lemma CostedChoice(config: Config, states: States, ids: seq<string>, structured: set<string>, costs: map<nat, real>)
    requires config.Valid() && ValidStates(config, states) && 0 < |ids| <= 6 && Distinct(ids)
    requires forall id <- ids :: id !in structured && !Forces(config, states, id)
    requires !BadPrices(config, costs) && forall id <- ids :: id in states
    ensures forall k <- config.lengths :: k in Scores(config, states, ids, costs)
    ensures Choose(config, states, ids, structured, Some(costs)) ==
            Ok(Best(config.lengths, |config.lengths|, Scores(config, states, ids, costs)))
  {
  }

  /** With costs, and no request forcing a full draft, the choice is the shortest of the best lengths. */
  lemma ChoiceIsShortestBest(config: Config, states: States, ids: seq<string>, structured: set<string>,
                             costs: map<nat, real>, j: nat)
    requires config.Valid() && ValidStates(config, states) && 0 < |ids| <= 6 && Distinct(ids)
    requires forall id <- ids :: id !in structured && !Forces(config, states, id)
    requires !BadPrices(config, costs) && j in config.lengths
    ensures var choice := Choose(config, states, ids, structured, Some(costs));
      && choice.Ok? && choice.value in config.lengths
      && var k := choice.value;
         var a, b := Useful(states, ids, k) / costs[k], Useful(states, ids, j) / costs[j];
         a > b || (a == b && k <= j)
  {
    forall id | id in ids ensures id in states {
      assert !Forces(config, states, id);
    }
    var scores := Scores(config, states, ids, costs);
    CostedChoice(config, states, ids, structured, costs);
    BestIsShortest(config.lengths, |config.lengths|, scores);
    var n :| 0 <= n < |config.lengths| && config.lengths[n] == j;
  }

  lemma {:induction false} LargestWithin(lengths: seq<nat>, n: nat, target: int)
    requires 0 < n <= |lengths|
    requires forall i, j :: 0 <= i < j < |lengths| ==> lengths[i] < lengths[j]
    ensures var k := Largest(lengths, n, target);
      (k <= target || k == lengths[0]) && forall j :: 0 <= j < n && lengths[j] <= target ==> lengths[j] <= k
  {
    if n > 1 {
      LargestWithin(lengths, n - 1, target);
    }
  }

  /** Without costs the choice is the longest length within the target, or the shortest if none is. */
  lemma ChoiceIsLongestWithin(config: Config, states: States, ids: seq<string>, structured: set<string>, j: nat)
    requires config.Valid() && ValidStates(config, states) && 0 < |ids| <= 6 && Distinct(ids)
    requires forall id <- ids :: id !in structured && !Forces(config, states, id)
    requires j in config.lengths
    ensures var choice := Choose(config, states, ids, structured, None);
      && choice.Ok? && choice.value in config.lengths
      && (choice.value <= Target(config, states, ids) || choice.value == config.lengths[0])
      && (j <= Target(config, states, ids) ==> j <= choice.value)
  {
    LargestWithin(config.lengths, |config.lengths|, Target(config, states, ids));
  }

  // ----- More accepted tokens, longer choices -----

  /** t has seen drafts of the same lengths as s and never a lower survival. */
  predicate Dominates(t: State, s: State) {
    t.steps == s.steps && t.shortSteps == s.shortSteps && AtMost(s.survival, t.survival)
  }

  predicate AllDominate(t: States, s: States) {
    t.Keys == s.Keys && forall id <- s :: Dominates(t[id], s[id])
  }

  lemma ObservedDominates(config: Config, s: States, t: States, id: string, drafted: nat, a: nat, b: nat)
    requires config.Valid() && ValidStates(config, s) && ValidStates(config, t) && AllDominate(t, s)
    requires a <= b <= drafted
    ensures AllDominate(Observed(config, t, id, drafted, b), Observed(config, s, id, drafted, a))
  {
    if Observable(config, id, drafted, a) && drafted > 0 {
      var x, y := StateOf(config, s, id), StateOf(config, t, id);
      SurvivalMonotone(config.alpha, drafted, a, b, x.survival, y.survival);
    }
  }

  datatype Observation = Observation(id: string, drafted: nat, accepted: nat)

  function Replay(config: Config, trace: seq<Observation>): States
    requires config.Valid()
  {
    if trace == [] then map[]
    else
      var o := trace[|trace| - 1];
      Observed(config, Replay(config, trace[..|trace| - 1]), o.id, o.drafted, o.accepted)
  }

  lemma {:induction false} ReplayValid(config: Config, trace: seq<Observation>)
    requires config.Valid()
    ensures ValidStates(config, Replay(config, trace))
  {
    if trace != [] {
      var o := trace[|trace| - 1];
      ReplayValid(config, trace[..|trace| - 1]);
      ObservedKeepsValid(config, Replay(config, trace[..|trace| - 1]), o.id, o.drafted, o.accepted);
    }
  }

  // ----- What a trace leaves -----

  /** What an observation says about position i of a request: nothing, or whether it survived. */
  function Evidence(config: Config, o: Observation, id: string, i: nat): seq<bool>
    requires config.Valid()
  {
    if o.id == id && Observable(config, id, o.drafted, o.accepted) && o.drafted > 0 &&
       (i < o.accepted || o.accepted < o.drafted)
    then [i < o.accepted]
    else []
  }

  function AllEvidence(config: Config, trace: seq<Observation>, id: string, i: nat): seq<bool>
    requires config.Valid()
  {
    if trace == [] then []
    else AllEvidence(config, trace[..|trace| - 1], id, i) + Evidence(config, trace[|trace| - 1], id, i)
  }

  /** The exponential average of the evidence, from 1. */
  function Average(alpha: real, evidence: seq<bool>): real {
    if evidence == [] then 1.0
    else
      var n := |evidence| - 1;
      (1.0 - alpha) * Average(alpha, evidence[..n]) + if evidence[n] then alpha else 0.0
  }

  lemma AverageStep(alpha: real, evidence: seq<bool>, survived: bool, old_: real, new_: real)
    requires old_ == Average(alpha, evidence)
    requires new_ == if survived then (1.0 - alpha) * old_ + alpha else (1.0 - alpha) * old_
    ensures new_ == Average(alpha, evidence + [survived])
  {
    assert (evidence + [survived])[..|evidence|] == evidence;
  }

  lemma MovedByEvidence(config: Config, o: Observation, i: nat, old_: real, new_: real, evidence: seq<bool>)
    requires config.Valid() && old_ == Average(config.alpha, evidence)
    requires Observable(config, o.id, o.drafted, o.accepted) && o.drafted > 0
    requires MovedEntry(config.alpha, o.drafted, o.accepted, i, old_, new_)
    ensures new_ == Average(config.alpha, evidence + Evidence(config, o, o.id, i))
  {
    if i < o.accepted || o.accepted < o.drafted {
      AverageStep(config.alpha, evidence, i < o.accepted, old_, new_);
    } else {
      assert evidence + [] == evidence;
    }
  }

  /** One observation moves the estimate of a position as its evidence says. */
  lemma EvidenceMoves(config: Config, states: States, o: Observation, id: string, i: nat, evidence: seq<bool>)
    requires config.Valid() && ValidStates(config, states) && i < config.Maximum()
    requires StateOf(config, states, id).survival[i] == Average(config.alpha, evidence)
    ensures var after := Observed(config, states, o.id, o.drafted, o.accepted);
      && ValidStates(config, after)
      && StateOf(config, after, id).survival[i] ==
         Average(config.alpha, evidence + Evidence(config, o, id, i))
  {
    ObservedKeepsValid(config, states, o.id, o.drafted, o.accepted);
    if o.id == id && Observable(config, id, o.drafted, o.accepted) && o.drafted > 0 {
      var s := StateOf(config, states, id).survival;
      UpdateIsExact(config.alpha, o.drafted, o.accepted, s);
      MovedByEvidence(config, o, i, s[i], NewSurvival(config.alpha, o.drafted, o.accepted, s)[i], evidence);
    } else {
      assert evidence + [] == evidence;
    }
  }

  /**
  After any trace, the estimate of a position is the exponential average of just the observations
  that say something about it, whatever the other positions have seen.
  */
  lemma {:induction false} TraceIsAverage(config: Config, trace: seq<Observation>, id: string, i: nat)
    requires config.Valid() && i < config.Maximum()
    ensures ValidStates(config, Replay(config, trace))
    ensures StateOf(config, Replay(config, trace), id).survival[i] ==
            Average(config.alpha, AllEvidence(config, trace, id, i))
  {
    if trace != [] {
      var n := |trace| - 1;
      TraceIsAverage(config, trace[..n], id, i);
      EvidenceMoves(config, Replay(config, trace[..n]), trace[n], id, i, AllEvidence(config, trace[..n], id, i));
    }
  }

  function Power(x: real, n: nat): real {
    if n == 0 then 1.0 else x * Power(x, n - 1)
  }

  predicate Rejections(evidence: seq<bool>, n: nat) {
    |evidence| == n && forall k :: 0 <= k < n ==> !evidence[k]
  }

  lemma {:induction false} RejectedEvidence(config: Config, trace: seq<Observation>, id: string, i: nat)
    requires config.Valid()
    requires forall o <- trace :: o.id == id != "" && 0 == o.accepted < o.drafted <= config.Maximum()
    ensures Rejections(AllEvidence(config, trace, id, i), |trace|)
  {
    if trace != [] {
      RejectedEvidence(config, trace[..|trace| - 1], id, i);
      assert trace[|trace| - 1] in trace;
    }
  }

  lemma {:induction false} RejectedAverage(alpha: real, evidence: seq<bool>, n: nat)
    requires Rejections(evidence, n)
    ensures Average(alpha, evidence) == Power(1.0 - alpha, n)
  {
    if n > 0 {
      RejectedAverage(alpha, evidence[..n - 1], n - 1);
    }
  }

  lemma RejectedTrace(config: Config, trace: seq<Observation>, id: string, i: nat)
    requires config.Valid()
    requires forall o <- trace :: o.id == id != "" && 0 == o.accepted < o.drafted <= config.Maximum()
    ensures Average(config.alpha, AllEvidence(config, trace, id, i)) == Power(1.0 - config.alpha, |trace|)
  {
    RejectedEvidence(config, trace, id, i);
    RejectedAverage(config.alpha, AllEvidence(config, trace, id, i), |trace|);
  }

  /** After n drafts of which nothing was accepted, every estimate of a new request is (1 - alpha)^n. */
  lemma RejectionsDecay(config: Config, trace: seq<Observation>, id: string, i: nat)
    requires config.Valid() && i < config.Maximum()
    requires forall o <- trace :: o.id == id != "" && 0 == o.accepted < o.drafted <= config.Maximum()
    ensures ValidStates(config, Replay(config, trace))
    ensures StateOf(config, Replay(config, trace), id).survival[i] == Power(1.0 - config.alpha, |trace|)
  {
    TraceIsAverage(config, trace, id, i);
    RejectedTrace(config, trace, id, i);
  }

  predicate Acceptances(evidence: seq<bool>) {
    forall k :: 0 <= k < |evidence| ==> evidence[k]
  }

  lemma {:induction false} AcceptedEvidence(config: Config, trace: seq<Observation>, id: string, i: nat)
    requires config.Valid() && forall o <- trace :: o.id == id ==> i < o.accepted || o.accepted == o.drafted
    ensures Acceptances(AllEvidence(config, trace, id, i))
  {
    if trace != [] {
      var n := |trace| - 1;
      AcceptedEvidence(config, trace[..n], id, i);
      assert trace[n] in trace;
      assert Acceptances(Evidence(config, trace[n], id, i));
    }
  }

  lemma TimesOne(x: real, y: real)
    requires y == 1.0
    ensures x * y == x
  {
  }

  lemma {:induction false} AcceptedAverage(alpha: real, evidence: seq<bool>)
    requires Acceptances(evidence)
    ensures Average(alpha, evidence) == 1.0
  {
    if evidence != [] {
      AcceptedAverage(alpha, evidence[..|evidence| - 1]);
      TimesOne(1.0 - alpha, Average(alpha, evidence[..|evidence| - 1]));
    }
  }

  /** The estimate of a position that no observation has rejected is still 1. */
  lemma NeverRejected(config: Config, trace: seq<Observation>, id: string, i: nat)
    requires config.Valid() && i < config.Maximum()
    requires forall o <- trace :: o.id == id ==> i < o.accepted || o.accepted == o.drafted
    ensures ValidStates(config, Replay(config, trace))
    ensures StateOf(config, Replay(config, trace), id).survival[i] == 1.0
  {
    TraceIsAverage(config, trace, id, i);
    AcceptedEvidence(config, trace, id, i);
    AcceptedAverage(config.alpha, AllEvidence(config, trace, id, i));
  }

  /** The same requests and drafts, with at least as many tokens accepted every time. */
  predicate NoWorse(better: seq<Observation>, worse: seq<Observation>) {
    && |better| == |worse|
    && forall i :: 0 <= i < |worse| ==>
         && better[i].id == worse[i].id && better[i].drafted == worse[i].drafted
         && worse[i].accepted <= better[i].accepted <= better[i].drafted
  }

  /** Of two traces the one with more accepted tokens keeps every survival at least as high. */
  lemma {:induction false} TraceMonotone(config: Config, better: seq<Observation>, worse: seq<Observation>)
    requires config.Valid() && NoWorse(better, worse)
    ensures AllDominate(Replay(config, better), Replay(config, worse))
  {
    if better != [] {
      var n := |better| - 1;
      TraceMonotone(config, better[..n], worse[..n]);
      ReplayValid(config, better[..n]);
      ReplayValid(config, worse[..n]);
      ObservedDominates(config, Replay(config, worse[..n]), Replay(config, better[..n]), better[n].id,
                        better[n].drafted, worse[n].accepted, better[n].accepted);
    }
  }

  lemma {:induction false} TotalMonotone(s: seq<real>, t: seq<real>, n: nat)
    requires AtMost(s, t) && n <= |s|
    ensures Total(s, n) <= Total(t, n)
  {
    if n > 0 {
      TotalMonotone(s, t, n - 1);
    }
  }

  lemma {:induction false} ExpectedMonotone(config: Config, s: States, t: States, ids: seq<string>)
    requires config.Valid() && ValidStates(config, s) && ValidStates(config, t) && AllDominate(t, s)
    requires forall id <- ids :: id in s
    ensures Expected(config, s, ids) <= Expected(config, t, ids)
  {
    if ids != [] {
      var id := ids[|ids| - 1];
      ExpectedMonotone(config, s, t, ids[..|ids| - 1]);
      assert Dominates(t[id], s[id]);
      TotalMonotone(s[id].survival, t[id].survival, config.Maximum());
    }
  }

  lemma {:induction false} LargestMonotone(lengths: seq<nat>, n: nat, a: int, b: int)
    requires 0 < n <= |lengths| && a <= b
    requires forall i, j :: 0 <= i < j < |lengths| ==> lengths[i] < lengths[j]
    ensures Largest(lengths, n, a) <= Largest(lengths, n, b) <= lengths[n - 1]
  {
    if n > 1 {
      LargestMonotone(lengths, n - 1, a, b);
    }
  }

  lemma CeilMonotone(x: real, y: real)
    requires x <= y
    ensures Ceil(x) <= Ceil(y)
  {
  }

  /** The larger mean: division by the batch size keeps the order. */
  lemma MeanMonotone(x: real, y: real, n: real)
    requires x <= y && n > 0.0
    ensures x / n <= y / n
  {
  }

  lemma TargetMonotone(config: Config, s: States, t: States, ids: seq<string>)
    requires config.Valid() && ValidStates(config, s) && ValidStates(config, t) && AllDominate(t, s)
    requires ids != [] && forall id <- ids :: id in s
    ensures Target(config, s, ids) <= Target(config, t, ids)
  {
    var n := |ids| as real;
    ExpectedMonotone(config, s, t, ids);
    MeanMonotone(Expected(config, s, ids), Expected(config, t, ids), n);
    CeilMonotone(Expected(config, s, ids) / n + config.margin, Expected(config, t, ids) / n + config.margin);
  }

  lemma DominatingChoice(config: Config, s: States, t: States, ids: seq<string>, structured: set<string>)
    requires config.Valid() && ValidStates(config, s) && ValidStates(config, t) && AllDominate(t, s)
    ensures var a, b := Choose(config, s, ids, structured, None), Choose(config, t, ids, structured, None);
      (a.Err? <==> b.Err?) && (a.Ok? ==> a.value <= b.value)
  {
    forall id ensures Forces(config, s, id) <==> Forces(config, t, id) {
      assert id in s ==> Dominates(t[id], s[id]);
    }
    if 0 < |ids| <= 6 && Distinct(ids) && forall id <- ids :: !Forces(config, s, id) {
      TargetMonotone(config, s, t, ids);
      LargestMonotone(config.lengths, |config.lengths|, Target(config, s, ids), Target(config, t, ids));
    }
  }

  /** Without costs, more accepted tokens never lead to a shorter choice. */
  lemma ChoiceMonotone(config: Config, better: seq<Observation>, worse: seq<Observation>, ids: seq<string>,
                       structured: set<string>)
    requires config.Valid() && NoWorse(better, worse)
    ensures ValidStates(config, Replay(config, better)) && ValidStates(config, Replay(config, worse))
    ensures var a := Choose(config, Replay(config, worse), ids, structured, None);
      var b := Choose(config, Replay(config, better), ids, structured, None);
      (a.Err? <==> b.Err?) && (a.Ok? ==> a.value <= b.value)
  {
    ReplayValid(config, better);
    ReplayValid(config, worse);
    TraceMonotone(config, better, worse);
    DominatingChoice(config, Replay(config, worse), Replay(config, better), ids, structured);
  }

  // ----- The closed loop -----

  /** One scheduler step: the chosen length is drafted for the whole batch; or requests leave. */
  datatype Event =
    | Serve(ids: seq<string>, structured: set<string>, costs: Option<map<nat, real>>, accepted: seq<nat>)
    | Prune(live: set<string>)

  function ObserveFirst(config: Config, states: States, ids: seq<string>, drafted: nat, accepted: seq<nat>, n: nat)
    : States
    requires config.Valid() && n <= |ids| == |accepted|
  {
    if n == 0 then states
    else
      Observed(config, ObserveFirst(config, states, ids, drafted, accepted, n - 1), ids[n - 1], drafted,
               accepted[n - 1])
  }

  function Pruned(states: States, live: set<string>): States {
    map id | id in states && id in live :: states[id]
  }

  /** Departures touch nothing but the departed: the others choose as before. */
  lemma PruneKeepsChoices(config: Config, states: States, live: set<string>, ids: seq<string>,
                          structured: set<string>, costs: Option<map<nat, real>>)
    requires config.Valid() && ValidStates(config, states) && forall id <- ids :: id in live
    ensures ValidStates(config, Pruned(states, live))
    ensures Choose(config, Pruned(states, live), ids, structured, costs) ==
            Choose(config, states, ids, structured, costs)
  {
    AlikeChoices(config, Pruned(states, live), states, ids, structured, costs);
  }

  /** A choice depends on nothing but the states of its batch. */
  lemma AlikeChoices(config: Config, s: States, t: States, ids: seq<string>, structured: set<string>,
                     costs: Option<map<nat, real>>)
    requires config.Valid() && ValidStates(config, s) && ValidStates(config, t)
    requires forall id <- ids :: (id in s <==> id in t) && (id in s ==> s[id] == t[id])
    ensures Choose(config, s, ids, structured, costs) == Choose(config, t, ids, structured, costs)
  {
    forall id <- ids ensures Forces(config, s, id) <==> Forces(config, t, id) {
    }
    if forall id <- ids :: id in s {
      ExpectedAlike(config, s, t, ids);
      if costs.Some? && !BadPrices(config, costs.value) {
        ScoresAlike(config, s, t, ids, costs.value);
      }
    }
  }

  lemma ScoresAlike(config: Config, s: States, t: States, ids: seq<string>, costs: map<nat, real>)
    requires config.Valid() && ValidStates(config, s) && ValidStates(config, t) && !BadPrices(config, costs)
    requires forall id <- ids :: id in s && id in t && s[id] == t[id]
    ensures Scores(config, s, ids, costs) == Scores(config, t, ids, costs)
  {
    forall k: nat | k <= config.Maximum() ensures Useful(s, ids, k) == Useful(t, ids, k) {
      UsefulAlike(config, s, t, ids, k);
    }
  }

  lemma {:induction false} UsefulAlike(config: Config, s: States, t: States, ids: seq<string>, k: nat)
    requires config.Valid() && ValidStates(config, s) && ValidStates(config, t) && k <= config.Maximum()
    requires forall id <- ids :: id in s && id in t && s[id] == t[id]
    ensures Useful(s, ids, k) == Useful(t, ids, k)
  {
    if ids != [] {
      UsefulAlike(config, s, t, ids[..|ids| - 1], k);
    }
  }

  lemma {:induction false} ExpectedAlike(config: Config, s: States, t: States, ids: seq<string>)
    requires config.Valid() && ValidStates(config, s) && ValidStates(config, t)
    requires forall id <- ids :: id in s && id in t && s[id] == t[id]
    ensures Expected(config, s, ids) == Expected(config, t, ids)
  {
    if ids != [] {
      ExpectedAlike(config, s, t, ids[..|ids| - 1]);
    }
  }

  function After(config: Config, states: States, e: Event): States
    requires config.Valid() && ValidStates(config, states)
  {
    match e
    case Prune(live) => Pruned(states, live)
    case Serve(ids, structured, costs, accepted) =>
      var choice := Choose(config, states, ids, structured, costs);
      if choice.Err? || |accepted| != |ids| then states
      else ObserveFirst(config, states, ids, choice.value, accepted, |ids|)
  }

  lemma {:induction false} ObserveFirstValid(config: Config, states: States, ids: seq<string>, drafted: nat,
                                             accepted: seq<nat>, n: nat)
    requires config.Valid() && ValidStates(config, states) && n <= |ids| == |accepted|
    ensures ValidStates(config, ObserveFirst(config, states, ids, drafted, accepted, n))
  {
    if n > 0 {
      ObserveFirstValid(config, states, ids, drafted, accepted, n - 1);
      ObservedKeepsValid(config, ObserveFirst(config, states, ids, drafted, accepted, n - 1), ids[n - 1], drafted,
                         accepted[n - 1]);
    }
  }

  /** No request has had more short drafts in a row than exploration allows. */
  predicate Explored(config: Config, states: States) {
    forall id <- states :: states[id].shortSteps <= config.exploreAfter
  }

  /** Until its turn a request of the batch keeps its state; short drafts are counted once. */
  lemma {:induction false} ObserveFirstExplored(config: Config, states: States, ids: seq<string>, drafted: nat,
                                                accepted: seq<nat>, n: nat)
    requires config.Valid() && Explored(config, states) && n <= |ids| == |accepted| && Distinct(ids)
    requires drafted == config.Maximum() || forall id <- ids :: !Forces(config, states, id)
    ensures var after := ObserveFirst(config, states, ids, drafted, accepted, n);
      && Explored(config, after)
      && forall i :: n <= i < |ids| ==>
           (ids[i] in after <==> ids[i] in states) && (ids[i] in states ==> after[ids[i]] == states[ids[i]])
  {
    if n > 0 {
      ObserveFirstExplored(config, states, ids, drafted, accepted, n - 1);
      assert ids[n - 1] in ids;
    }
  }

  /** A batch with a structured, unknown, new or too long shortened request gets a full draft. */
  lemma FullDraft(config: Config, states: States, ids: seq<string>, structured: set<string>,
                  costs: Option<map<nat, real>>, id: string)
    requires config.Valid() && ValidStates(config, states) && |ids| <= 6 && Distinct(ids) && id in ids
    requires id in structured || id !in states || states[id].steps < config.warmup ||
             states[id].shortSteps >= config.exploreAfter
    ensures Choose(config, states, ids, structured, costs) == Ok(config.lengths[|config.lengths| - 1])
  {
    assert id in structured || Forces(config, states, id);
  }

  /** A choice is refused for a bad batch, or for bad costs where they would have been used. */
  lemma ChoiceRefused(config: Config, states: States, ids: seq<string>, structured: set<string>,
                      costs: Option<map<nat, real>>)
    requires config.Valid() && ValidStates(config, states)
    ensures Choose(config, states, ids, structured, costs).Err? <==>
      || |ids| > 6 || (exists i, j :: 0 <= i < j < |ids| && ids[i] == ids[j])
      || (&& ids != [] && costs.Some?
          && (forall id <- ids ::
                id !in structured && id in states && states[id].steps >= config.warmup &&
                states[id].shortSteps < config.exploreAfter)
          && ((set k | k in config.lengths) != costs.value.Keys || exists k <- costs.value :: costs.value[k] <= 0.0))
  {
    if ids != [] && forall id <- ids :: id !in structured && !Forces(config, states, id) {
      assert forall id <- ids :: id in states;
    }
  }

  /** A choice below the maximum means that no request of the batch forces a full draft. */
  lemma ShortChoice(config: Config, states: States, ids: seq<string>, structured: set<string>,
                    costs: Option<map<nat, real>>)
    requires config.Valid() && ValidStates(config, states)
    requires var choice := Choose(config, states, ids, structured, costs);
      choice.Ok? && choice.value != config.Maximum()
    ensures Distinct(ids) && forall id <- ids :: !Forces(config, states, id)
    ensures forall id <- ids ::
      id !in structured && id in states && states[id].steps >= config.warmup &&
      states[id].shortSteps < config.exploreAfter
  {
    forall id | id in ids ensures id !in structured && !Forces(config, states, id) {
      assert !(id in structured || Forces(config, states, id));
    }
  }

  ghost predicate Reaches(config: Config, events: seq<Event>, states: States)
    requires config.Valid()
  {
    if events == [] then states == map[]
    else
      exists before: States ::
        && ValidStates(config, before) && Reaches(config, events[..|events| - 1], before)
        && states == After(config, before, events[|events| - 1])
  }

  /**
  Over every run of choices, observations and departures, every survival estimate stays a
  nonincreasing sequence of probabilities, and no request has more than exploreAfter short
  drafts in a row.
  */
  lemma {:induction false} EveryRunExplores(config: Config, events: seq<Event>, states: States)
    requires config.Valid() && Reaches(config, events, states)
    ensures ValidStates(config, states) && Explored(config, states)
    decreases |events|
  {
    if events != [] {
      var e := events[|events| - 1];
      var before: States :| ValidStates(config, before) && Reaches(config, events[..|events| - 1], before) &&
        states == After(config, before, e);
      EveryRunExplores(config, events[..|events| - 1], before);
      if e.Serve? {
        var choice := Choose(config, before, e.ids, e.structured, e.costs);
        if choice.Ok? && |e.accepted| == |e.ids| {
          if choice.value != config.Maximum() {
            ShortChoice(config, before, e.ids, e.structured, e.costs);
          }
          ObserveFirstValid(config, before, e.ids, choice.value, e.accepted, |e.ids|);
          ObserveFirstExplored(config, before, e.ids, choice.value, e.accepted, |e.ids|);
        }
      }
    }
  }

  // ----- The object -----

  class PrefixEMA {
    const config: Config
    var state: States

    constructor (config: Config)
      requires config.Valid()
      ensures Valid() && this.config == config && state == map[]
    {
      this.config, state := config, map[];
    }

    predicate Valid()
      reads this
    {
      config.Valid() && ValidStates(config, state)
    }

    method Observe(id: string, drafted: int, accepted: int) returns (ok: bool)
      requires Valid()
      modifies this`state
      ensures Valid()
      ensures ok <==> Observable(config, id, drafted, accepted)
      ensures state == Observed(config, old(state), id, drafted, accepted)
      ensures !ok || drafted == 0 ==> state == old(state)
      ensures ok && drafted > 0 ==> Learned(config, old(state), state, id, drafted, accepted)
    {
      if !Observable(config, id, drafted, accepted) {
        return false;
      }
      if drafted == 0 {
        return true;
      }
      var s := StateOf(config, state, id);
      var survival := Update(s.survival, drafted, accepted);
      ObservedKeepsValid(config, state, id, drafted, accepted);
      ObservedLearns(config, state, id, drafted, accepted);
      state := state[id := State(survival, s.steps + 1, if drafted == config.Maximum() then 0 else s.shortSteps + 1)];
      return true;
    }

    /** The two passes over a survival list. */
    method Update(s: seq<real>, drafted: nat, accepted: nat) returns (survival: seq<real>)
      requires s != []
      ensures survival == NewSurvival(config.alpha, drafted, accepted, s)
      ensures config.Valid() && Survival(s) && accepted <= drafted ==>
        Moved(config.alpha, drafted, accepted, s, survival)
    {
      survival := s;
      ghost var blended := Blended(config.alpha, drafted, accepted, s);
      for i := 0 to |s|
        invariant |survival| == |s|
        invariant forall j :: 0 <= j < |s| ==> survival[j] == if j < i then blended[j] else s[j]
      {
        if !(i >= drafted && accepted == drafted) {
          var observed := if i < accepted then 1.0 else 0.0;
          survival := survival[i := survival[i] + config.alpha * (observed - survival[i])];
        }
      }
      for i := 1 to |s|
        invariant |survival| == |s|
        invariant forall j :: 0 <= j < |s| ==> survival[j] == if j < i then Least(blended, j) else blended[j]
      {
        survival := survival[i := Min(survival[i], survival[i - 1])];
      }
      UpdateMoves(config, drafted, accepted, s);
    }

    method Prune(live: set<string>)
      requires Valid()
      modifies this`state
      ensures Valid() && state.Keys == old(state).Keys * live
      ensures forall id <- state :: state[id] == old(state)[id]
    {
      state := Pruned(state, live);
    }
  }
}
