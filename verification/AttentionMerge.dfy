/**
Combining partial attention results: the two-rank merge (`_merge`) and the split-K combine
(`merge`), over exact reals extended by infinities and NaN, one channel at a time.
*/
module AttentionMerge {

  /** An exponential and its logarithm, known only by their laws. */
  datatype Analysis = Analysis(exp: real -> real, log: real -> real) {
    predicate ExpAdds(x: real, y: real) {
      exp(x + y) == exp(x) * exp(y)
    }

    predicate Positive(x: real) {
      exp(x) > 0.0
    }

    predicate Inverse(x: real) {
      log(exp(x)) == x && (x > 0.0 ==> exp(log(x)) == x)
    }

    ghost predicate Lawful() {
      && (forall x, y :: ExpAdds(x, y))
      && (forall x :: Positive(x))
      && (forall x :: Inverse(x))
    }
  }

  /** A floating-point value without rounding. */
  datatype Ext = Fin(r: real) | NegInf | PosInf | NaN {
    predicate Infinite() {
      this == NegInf || this == PosInf
    }

    /** this > 0; a comparison with NaN is false. */
    predicate AboveZero() {
      this == PosInf || (Fin? && r > 0.0)
    }
  }

  function Sub(x: Ext, y: Ext): Ext {
    match (x, y)
    case (Fin(a), Fin(b)) => Fin(a - b)
    case (NegInf, Fin(_)) => NegInf
    case (NegInf, PosInf) => NegInf
    case (PosInf, Fin(_)) => PosInf
    case (PosInf, NegInf) => PosInf
    case (Fin(_), NegInf) => PosInf
    case (Fin(_), PosInf) => NegInf
    case _ => NaN
  }

  function Add(x: Ext, y: Ext): Ext {
    match (x, y)
    case (Fin(a), Fin(b)) => Fin(a + b)
    case (NegInf, Fin(_)) => NegInf
    case (Fin(_), NegInf) => NegInf
    case (NegInf, NegInf) => NegInf
    case (PosInf, Fin(_)) => PosInf
    case (Fin(_), PosInf) => PosInf
    case (PosInf, PosInf) => PosInf
    case _ => NaN
  }

  /** Multiplication by a positive constant. */
  function Scale(x: Ext, c: real): Ext {
    if x.Fin? then Fin(x.r * c) else x
  }

  function Max(x: Ext, y: Ext): Ext {
    match (x, y)
    case (Fin(a), Fin(b)) => if a >= b then x else y
    case (NegInf, _) => y
    case (_, NegInf) => x
    case (PosInf, _) => x
    case (_, PosInf) => y
    case _ => NaN
  }

  function Exp(m: Analysis, x: Ext): Ext {
    match x
    case Fin(a) => Fin(m.exp(a))
    case NegInf => Fin(0.0)
    case PosInf => PosInf
    case NaN => NaN
  }

  function Log(m: Analysis, x: Ext): Ext {
    match x
    case Fin(a) => if a > 0.0 then Fin(m.log(a)) else if a == 0.0 then NegInf else NaN
    case NegInf => NaN
    case PosInf => PosInf
    case NaN => NaN
  }

  // ----- What attention over a set of keys is -----

  /** One visible key for a fixed query head: its score and one channel of its value. */
  datatype Key = Key(score: real, value: real)

  function Mass(m: Analysis, keys: seq<Key>): real {
    if keys == [] then 0.0 else m.exp(keys[0].score) + Mass(m, keys[1..])
  }

  function Moment(m: Analysis, keys: seq<Key>): real {
    if keys == [] then 0.0 else m.exp(keys[0].score) * keys[0].value + Moment(m, keys[1..])
  }

  /** The weighted mean of the values, and the log of the normalizer. */
  datatype Partial = Partial(output: real, lse: Ext)

  /** Softmax attention over the keys; with no keys the output is zero and the mass vanishes. */
  function Attention(m: Analysis, keys: seq<Key>): Partial {
    if keys == [] || Mass(m, keys) == 0.0 then Partial(0.0, NegInf)
    else Partial(Moment(m, keys) / Mass(m, keys), Log(m, Fin(Mass(m, keys))))
  }

  lemma {:induction false} MassPositive(m: Analysis, keys: seq<Key>)
    requires m.Lawful()
    ensures Mass(m, keys) >= 0.0 && (keys != [] ==> Mass(m, keys) > 0.0)
  {
    if keys != [] {
      assert m.Positive(keys[0].score);
      MassPositive(m, keys[1..]);
    }
  }

  lemma {:induction false} SumsAppend(m: Analysis, a: seq<Key>, b: seq<Key>)
    ensures Mass(m, a + b) == Mass(m, a) + Mass(m, b)
    ensures Moment(m, a + b) == Moment(m, a) + Moment(m, b)
  {
    if a == [] {
      assert a + b == b;
    } else {
      assert (a + b)[1..] == a[1..] + b;
      SumsAppend(m, a[1..], b);
    }
  }

  // ----- Laws -----

  lemma ExpOfDifference(m: Analysis, x: real, y: real)
    requires m.Lawful()
    ensures m.exp(y) > 0.0 && m.exp(x - y) == m.exp(x) / m.exp(y)
  {
    assert m.ExpAdds(x - y, y) && m.Positive(y);
    assert x - y + y == x;
  }

  lemma LogOfQuotient(m: Analysis, x: real, y: real)
    requires m.Lawful() && x > 0.0
    ensures m.exp(y) > 0.0 && x / m.exp(y) > 0.0 && m.log(x / m.exp(y)) == m.log(x) - y
  {
    ExpOfDifference(m, m.log(x), y);
    assert m.Inverse(x) && m.Inverse(m.log(x) - y) && m.Positive(m.log(x) - y);
  }

  // ----- The two-rank merge -----

  /** A normalizer is stored to base two and loaded back to base e. */
  function Stored(p: Partial, log2e: real): Partial {
    Partial(p.output, Scale(p.lse, log2e))
  }

  /** The weight of one side, with NaN and infinities replaced by zero. */
  function Weight(m: Analysis, lse: Ext, normalizer: Ext): Ext {
    var w := Exp(m, Sub(lse, normalizer));
    if w != NaN && !w.Infinite() then w else Fin(0.0)
  }

  /** A weight is always finite and not negative, and zero unless both sides are finite. */
  lemma WeightIsFinite(m: Analysis, lse: Ext, normalizer: Ext)
    requires m.Lawful()
    ensures Weight(m, lse, normalizer).Fin? && Weight(m, lse, normalizer).r >= 0.0
    ensures !lse.Fin? || !normalizer.Fin? ==> Weight(m, lse, normalizer) == Fin(0.0)
  {
    if lse.Fin? && normalizer.Fin? {
      assert m.Positive(lse.r - normalizer.r);
    }
  }

  function Contribution(x: real, w: Ext): real {
    if w.Fin? && w.AboveZero() then x * w.r else 0.0
  }

  /** The common normalizer of two sides. */
  function Normalizer(m: Analysis, a: Ext, b: Ext): Ext {
    var maximum := Max(a, b);
    var shift := if maximum.Infinite() then Fin(0.0) else maximum;
    Add(Log(m, Add(Exp(m, Sub(a, shift)), Exp(m, Sub(b, shift)))), shift)
  }

  /** The combination of rank 0's side with rank 1's. */
  function Combined(m: Analysis, p0: Partial, p1: Partial): real {
    var normalizer := Normalizer(m, p0.lse, p1.lse);
    Contribution(p0.output, Weight(m, p0.lse, normalizer)) + Contribution(p1.output, Weight(m, p1.lse, normalizer))
  }

  function Loaded(p: Partial, ln2: real): Partial {
    Partial(p.output, Scale(p.lse, ln2))
  }

  /** _merge on one rank, for one token, head and channel: rank 0's side always comes first. */
  function Merged(m: Analysis, ln2: real, rank: nat, own: Partial, peer: Partial): real {
    if rank == 0 then Combined(m, Loaded(own, ln2), Loaded(peer, ln2))
    else Combined(m, Loaded(peer, ln2), Loaded(own, ln2))
  }

  lemma StoredIsLoaded(p: Partial, ln2: real, log2e: real)
    requires ln2 * log2e == 1.0
    ensures Loaded(Stored(p, log2e), ln2) == p
  {
    if p.lse.Fin? {
      assert p.lse.r * log2e * ln2 == p.lse.r * (ln2 * log2e);
    }
  }

  /** The normalizer of both sides is the normalizer of the union. */
  lemma NormalizerIsUnion(m: Analysis, a: seq<Key>, b: seq<Key>)
    requires m.Lawful()
    ensures Normalizer(m, Attention(m, a).lse, Attention(m, b).lse) == Attention(m, a + b).lse
  {
    SumsAppend(m, a, b);
    MassPositive(m, a);
    MassPositive(m, b);
    var A, B := Mass(m, a), Mass(m, b);
    if a == [] && b == [] {
    } else if a == [] {
      assert a + b == b;
      NormalizerOfOne(m, m.log(B));
    } else if b == [] {
      assert a + b == a;
      NormalizerOfOne(m, m.log(A));
    } else {
      NormalizerOfTwo(m, A, B);
    }
  }

  lemma NormalizerOfTwo(m: Analysis, x: real, y: real)
    requires m.Lawful() && x > 0.0 && y > 0.0
    ensures Normalizer(m, Fin(m.log(x)), Fin(m.log(y))) == Fin(m.log(x + y))
  {
    var shift := if m.log(x) >= m.log(y) then m.log(x) else m.log(y);
    assert m.Inverse(x) && m.Inverse(y);
    ExpOfDifference(m, m.log(x), shift);
    ExpOfDifference(m, m.log(y), shift);
    SharesAdd(x, y, m.exp(shift));
    LogOfQuotient(m, x + y, shift);
  }

  lemma NormalizerOfOne(m: Analysis, lse: real)
    requires m.Lawful()
    ensures Normalizer(m, NegInf, Fin(lse)) == Normalizer(m, Fin(lse), NegInf) == Fin(lse)
  {
    var one := Fin(m.exp(0.0));
    assert m.Inverse(0.0) && m.Positive(0.0);
    assert Sub(Fin(lse), Fin(lse)) == Fin(0.0);
    assert Add(Fin(0.0), one) == one == Add(one, Fin(0.0));
    assert Log(m, one) == Fin(0.0);
  }

  /** The weight of a side is its share of the mass. */
  lemma WeightIsShare(m: Analysis, keys: seq<Key>, total: real)
    requires m.Lawful() && total > 0.0
    ensures Weight(m, Attention(m, keys).lse, Fin(m.log(total))) == Fin(Mass(m, keys) / total)
  {
    MassPositive(m, keys);
    if keys != [] {
      ExpOfDifference(m, m.log(Mass(m, keys)), m.log(total));
      assert m.Inverse(Mass(m, keys)) && m.Inverse(total);
    }
  }

  lemma ContributionIsMoment(m: Analysis, keys: seq<Key>, total: real)
    requires m.Lawful() && total > 0.0
    ensures Contribution(Attention(m, keys).output, Fin(Mass(m, keys) / total)) == Moment(m, keys) / total
  {
    MassPositive(m, keys);
    if keys != [] {
      var mass, moment := Mass(m, keys), Moment(m, keys);
      assert mass / total > 0.0;
      assert (moment / mass) * (mass / total) == moment / total;
    }
  }

  lemma CombinedIsUnion(m: Analysis, a: seq<Key>, b: seq<Key>)
    requires m.Lawful()
    ensures Combined(m, Attention(m, a), Attention(m, b)) == Attention(m, a + b).output
  {
    NormalizerIsUnion(m, a, b);
    MassPositive(m, a + b);
    if a + b != [] {
      var total := Mass(m, a + b);
      WeightIsShare(m, a, total);
      WeightIsShare(m, b, total);
      ContributionIsMoment(m, a, total);
      ContributionIsMoment(m, b, total);
      SumsAppend(m, a, b);
      SharesAdd(Moment(m, a), Moment(m, b), total);
    }
  }

  lemma SharesAdd(x: real, y: real, total: real)
    requires total > 0.0
    ensures x / total + y / total == (x + y) / total
  {
  }

  /**
  Merging the partial results of two ranks gives attention over the union of their keys, on
  either rank, also when one or both ranks see no keys.
  */
  lemma MergeIsUnion(m: Analysis, ln2: real, log2e: real, keys0: seq<Key>, keys1: seq<Key>)
    requires m.Lawful() && ln2 * log2e == 1.0
    ensures var p0, p1 := Stored(Attention(m, keys0), log2e), Stored(Attention(m, keys1), log2e);
      Merged(m, ln2, 0, p0, p1) == Merged(m, ln2, 1, p1, p0) == Attention(m, keys0 + keys1).output
  {
    StoredIsLoaded(Attention(m, keys0), ln2, log2e);
    StoredIsLoaded(Attention(m, keys1), ln2, log2e);
    CombinedIsUnion(m, keys0, keys1);
  }

  // ----- The split-K combine -----

  function MaxOf(parts: seq<Partial>): Ext {
    if parts == [] then NegInf else Max(parts[0].lse, MaxOf(parts[1..]))
  }

  function SplitWeight(m: Analysis, lse: Ext, safe: real): real {
    if lse.Fin? then m.exp(lse.r - safe) else 0.0
  }

  function TotalWeight(m: Analysis, parts: seq<Partial>, safe: real): real {
    if parts == [] then 0.0 else SplitWeight(m, parts[0].lse, safe) + TotalWeight(m, parts[1..], safe)
  }

  /** The sum of the outputs, each times its weight over the total. */
  function WeightedSum(m: Analysis, parts: seq<Partial>, safe: real, total: real): real
    requires total > 0.0
  {
    if parts == [] then 0.0
    else
      parts[0].output * (SplitWeight(m, parts[0].lse, safe) / total) + WeightedSum(m, parts[1..], safe, total)
  }

  /** merge: the combination of the results of any number of splits. */
  function SplitMerged(m: Analysis, parts: seq<Partial>): Partial {
    var maximum := MaxOf(parts);
    var safe := if maximum.Fin? then maximum.r else 0.0;
    var total := TotalWeight(m, parts, safe);
    Partial(if total > 0.0 && maximum.Fin? then WeightedSum(m, parts, safe, total) else 0.0,
            if maximum.Infinite() then maximum else Add(maximum, Log(m, Fin(total))))
  }

  function Concat(splits: seq<seq<Key>>): seq<Key> {
    if splits == [] then [] else splits[0] + Concat(splits[1..])
  }

  function Parts(m: Analysis, splits: seq<seq<Key>>): seq<Partial> {
    if splits == [] then [] else [Attention(m, splits[0])] + Parts(m, splits[1..])
  }

  lemma {:induction false} MaxOfParts(m: Analysis, splits: seq<seq<Key>>)
    requires m.Lawful()
    ensures if Concat(splits) == [] then MaxOf(Parts(m, splits)) == NegInf else MaxOf(Parts(m, splits)).Fin?
  {
    if splits != [] {
      assert Parts(m, splits)[1..] == Parts(m, splits[1..]);
      MassPositive(m, splits[0]);
      MaxOfParts(m, splits[1..]);
    }
  }

  lemma SplitWeightIsMass(m: Analysis, keys: seq<Key>, safe: real)
    requires m.Lawful()
    ensures m.exp(safe) > 0.0
    ensures SplitWeight(m, Attention(m, keys).lse, safe) == Mass(m, keys) / m.exp(safe)
  {
    MassPositive(m, keys);
    assert m.Positive(safe) && m.Inverse(Mass(m, keys));
    if keys != [] {
      ExpOfDifference(m, m.log(Mass(m, keys)), safe);
    }
  }

  lemma {:induction false} TotalWeightIsMass(m: Analysis, splits: seq<seq<Key>>, safe: real)
    requires m.Lawful()
    ensures m.exp(safe) > 0.0
    ensures TotalWeight(m, Parts(m, splits), safe) == Mass(m, Concat(splits)) / m.exp(safe)
  {
    assert m.Positive(safe);
    if splits != [] {
      assert Parts(m, splits)[1..] == Parts(m, splits[1..]);
      SplitWeightIsMass(m, splits[0], safe);
      TotalWeightIsMass(m, splits[1..], safe);
      SumsAppend(m, splits[0], Concat(splits[1..]));
      SharesAdd(Mass(m, splits[0]), Mass(m, Concat(splits[1..])), m.exp(safe));
    }
  }

  /** A split contributes its share of the moment: the shift cancels. */
  lemma SplitContribution(m: Analysis, keys: seq<Key>, safe: real, mass: real)
    requires m.Lawful() && mass > 0.0
    ensures m.exp(safe) > 0.0 && mass / m.exp(safe) > 0.0
    ensures Attention(m, keys).output * (SplitWeight(m, Attention(m, keys).lse, safe) / (mass / m.exp(safe))) ==
            Moment(m, keys) / mass
  {
    var e, own := m.exp(safe), Mass(m, keys);
    MassPositive(m, keys);
    SplitWeightIsMass(m, keys, safe);
    ShiftCancels(own, mass, e);
    ContributionIsMoment(m, keys, mass);
  }

  lemma ShiftCancels(x: real, y: real, e: real)
    requires y > 0.0 && e > 0.0
    ensures y / e > 0.0 && (x / e) / (y / e) == x / y
  {
    var d := y / e;
    assert d * e == y;
    assert d > 0.0;
    var q := (x / e) / d;
    assert q * d == x / e;
    assert q * y == q * d * e == x;
  }

  lemma {:induction false} WeightedSumIsMoment(m: Analysis, splits: seq<seq<Key>>, safe: real, mass: real)
    requires m.Lawful() && mass > 0.0
    ensures m.exp(safe) > 0.0 && mass / m.exp(safe) > 0.0
    ensures WeightedSum(m, Parts(m, splits), safe, mass / m.exp(safe)) == Moment(m, Concat(splits)) / mass
  {
    assert m.Positive(safe);
    ShiftCancels(mass, mass, m.exp(safe));
    if splits != [] {
      assert Parts(m, splits)[1..] == Parts(m, splits[1..]);
      SplitContribution(m, splits[0], safe, mass);
      WeightedSumIsMoment(m, splits[1..], safe, mass);
      SumsAppend(m, splits[0], Concat(splits[1..]));
      SharesAdd(Moment(m, splits[0]), Moment(m, Concat(splits[1..])), mass);
    }
  }

  /** Combining any splits of the keys, empty ones included, gives attention over all of them. */
  lemma SplitMergeIsUnion(m: Analysis, splits: seq<seq<Key>>)
    requires m.Lawful()
    ensures SplitMerged(m, Parts(m, splits)) == Attention(m, Concat(splits))
  {
    var keys, maximum := Concat(splits), MaxOf(Parts(m, splits));
    MaxOfParts(m, splits);
    MassPositive(m, keys);
    if keys != [] {
      var safe, mass := maximum.r, Mass(m, keys);
      TotalWeightIsMass(m, splits, safe);
      WeightedSumIsMoment(m, splits, safe, mass);
      LogOfQuotient(m, mass, safe);
    }
  }

  /**
  What the attention kernel ends with. Its maximum is minus infinity when it has met no key,
  and otherwise any finite number: the greatest score, or a sink above it.
  */
  function Finished(m: Analysis, keys: seq<Key>, maximum: Ext): Partial
    requires maximum.Fin? || (maximum == NegInf && keys == [])
  {
    var total := if maximum.Fin? then ShiftedMass(m, keys, maximum.r) else 0.0;
    var lse := if maximum == NegInf then NegInf else Add(maximum, Log(m, Fin(total)));
    Partial(if total > 0.0 && lse.Fin? then ShiftedMoment(m, keys, maximum.r) / total else 0.0, lse)
  }

  function ShiftedMass(m: Analysis, keys: seq<Key>, maximum: real): real {
    if keys == [] then 0.0 else m.exp(keys[0].score - maximum) + ShiftedMass(m, keys[1..], maximum)
  }

  function ShiftedMoment(m: Analysis, keys: seq<Key>, maximum: real): real {
    if keys == [] then 0.0
    else m.exp(keys[0].score - maximum) * keys[0].value + ShiftedMoment(m, keys[1..], maximum)
  }

  lemma {:induction false} ShiftedSums(m: Analysis, keys: seq<Key>, maximum: real)
    requires m.Lawful()
    ensures m.exp(maximum) > 0.0
    ensures ShiftedMass(m, keys, maximum) == Mass(m, keys) / m.exp(maximum)
    ensures ShiftedMoment(m, keys, maximum) == Moment(m, keys) / m.exp(maximum)
  {
    assert m.Positive(maximum);
    if keys != [] {
      var e, w := m.exp(maximum), m.exp(keys[0].score);
      ExpOfDifference(m, keys[0].score, maximum);
      ShiftedSums(m, keys[1..], maximum);
      SharesAdd(w, Mass(m, keys[1..]), e);
      assert (w / e) * keys[0].value == (w * keys[0].value) / e;
      SharesAdd(w * keys[0].value, Moment(m, keys[1..]), e);
    }
  }

  /** The result does not depend on the maximum that was subtracted. */
  lemma FinishedIsAttention(m: Analysis, keys: seq<Key>, maximum: Ext)
    requires m.Lawful() && (maximum.Fin? || (maximum == NegInf && keys == []))
    ensures Finished(m, keys, maximum) == Attention(m, keys)
  {
    if maximum.Fin? {
      ShiftedSums(m, keys, maximum.r);
      MassPositive(m, keys);
      if keys != [] {
        LogOfQuotient(m, Mass(m, keys), maximum.r);
        ShiftCancels(Moment(m, keys), Mass(m, keys), m.exp(maximum.r));
      }
    }
  }
}
