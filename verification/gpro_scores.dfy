/** The per-node scores of the trust-region (GPRO) MCTS variant: advantage
    normalisation, entropy bonus, PPO-style clipped proximity, KL divergence,
    importance-sampling ratio, the trust-region flag, and the two blended scores
    (selection score and final response score). Arithmetic is exact over `real`;
    `Math.log` is the parameter `ln`, applied only to positive arguments. */
module GproScores {
  import opened Common
  import opened Nodes

  /** The `1e-10` guard against division by zero and log of zero. */
  const Epsilon: real := 0.0000000001
  /** PPO clip range `epsilon`. */
  const ClipRange: real := 0.2
  const EntropyCoef: real := 0.01
  const TrustRegionDelta: real := 0.01
  /** Penalty subtracted from the selection score of a node in violation. */
  const SelectionPenalty: real := 0.5
  /** Penalty subtracted from the final score of a node in violation. */
  const ScorePenalty: real := 0.2

  type Positive = x: real | x > 0.0 witness 1.0

  /** The natural logarithm, left uninterpreted. */
  type Log = Positive -> real

  // ---------------------------------------------------------------- advantage

  /** `x / (|x| + 1)`: squashes an advantage into (-1, 1), keeping its sign. */
  function NormalizeAdvantage(x: real): (r: real)
    ensures -1.0 < r < 1.0
    ensures r > 0.0 <==> x > 0.0
    ensures r < 0.0 <==> x < 0.0
  {
    var d := Abs(x) + 1.0;
    var r := x / d;
    assert r * d == x;
    r
  }

  /** Inverse of the normalisation on (-1, 1). */
  function Denormalize(r: real): real
    requires -1.0 < r < 1.0
  {
    r / (1.0 - Abs(r))
  }

  lemma DenormalizeNormalize(x: real)
    ensures Denormalize(NormalizeAdvantage(x)) == x
  {
    var d := Abs(x) + 1.0;
    var r := NormalizeAdvantage(x);
    assert r * d == x;
    if x >= 0.0 {
      assert Abs(r) == r;
      assert (1.0 - r) * d == 1.0;
      assert r / (1.0 - r) == r * d;
    } else {
      assert Abs(r) == -r;
      assert (1.0 + r) * d == 1.0;
      assert r / (1.0 + r) == r * d;
    }
  }

  lemma NormalizeDenormalize(r: real)
    requires -1.0 < r < 1.0
    ensures NormalizeAdvantage(Denormalize(r)) == r
  {
    var x := Denormalize(r);
    var e := 1.0 - Abs(r);
    assert x * e == r;
    if r >= 0.0 {
      QuotientNonNegative(r, e);
      assert (x + 1.0) * e == 1.0;
      assert x / (x + 1.0) == r;
    } else {
      QuotientPositive(-r, e);
      assert -r / e == -x;
      assert (-x + 1.0) * e == 1.0;
      assert x / (-x + 1.0) == r;
    }
  }

  /** The normalisation is strictly increasing, so ranking by normalised
      advantage is ranking by raw advantage. */
  lemma NormalizeStrictlyIncreasing(x: real, y: real)
    requires x < y
    ensures NormalizeAdvantage(x) < NormalizeAdvantage(y)
  {
    var dx, dy := Abs(x) + 1.0, Abs(y) + 1.0;
    if x < 0.0 && y >= 0.0 {
    } else if x >= 0.0 {
      assert x * dy < y * dx;
      QuotientLess(x, dx, y, dy);
    } else {
      assert x * dy < y * dx;
      QuotientLess(x, dx, y, dy);
    }
  }

  lemma QuotientLess(a: real, da: real, b: real, db: real)
    requires da > 0.0 && db > 0.0
    requires a * db < b * da
    ensures a / da < b / db
  {
    var qa, qb := a / da, b / db;
    assert qa * da == a && qb * db == b;
    assert (qa * da) * db < (qb * db) * da;
    assert (qa - qb) * (da * db) < 0.0;
    assert da * db > 0.0;
  }

  /** The baseline an advantage is measured against: the parent's value
      estimate, or 0 for a node without a parent. */
  function Baseline(parent: Option<GNode>): real
  {
    match parent
    case None => 0.0
    case Some(p) => p.valueEstimate
  }

  function EstimateAdvantage(node: GNode, parent: Option<GNode>): (r: real)
    ensures -1.0 < r < 1.0
    ensures r > 0.0 <==> node.valueEstimate > Baseline(parent)
    ensures r < 0.0 <==> node.valueEstimate < Baseline(parent)
    ensures parent.None? ==> r == NormalizeAdvantage(node.valueEstimate)
  {
    NormalizeAdvantage(node.valueEstimate - Baseline(parent))
  }

  // ---------------------------------------------------------------- entropy

  /** `sum of p * ln(p + 1e-10)` over the entries, in insertion order. */
  function EntropySum(ln: Log, p: Probs): real
    requires NonNegative(p)
  {
    if |p| == 0 then 0.0
    else
      var last := p[|p| - 1].1;
      EntropySum(ln, p[..|p| - 1]) + last * ln(last + Epsilon)
  }

  function EntropyBonus(ln: Log, p: Probs): (r: real)
    requires NonNegative(p)
    ensures |p| == 0 ==> r == 0.0
  {
    EntropyCoef * -EntropySum(ln, p)
  }

  lemma {:induction false} EntropySumConcat(ln: Log, a: Probs, b: Probs)
    requires NonNegative(a) && NonNegative(b)
    ensures NonNegative(a + b)
    ensures EntropySum(ln, a + b) == EntropySum(ln, a) + EntropySum(ln, b)
    decreases |b|
  {
    if |b| > 0 {
      var b' := b[..|b| - 1];
      assert (a + b)[..|a + b| - 1] == a + b';
      EntropySumConcat(ln, a, b');
    } else {
      assert a + b == a;
    }
  }

  /** The entropy bonus does not depend on the order of the map's entries:
      any rearrangement of them gives the same bonus. */
  lemma {:induction false} EntropyBonusOrderIndependent(ln: Log, p: Probs, q: Probs)
    requires NonNegative(p) && multiset(p) == multiset(q)
    ensures NonNegative(q)
    ensures EntropyBonus(ln, p) == EntropyBonus(ln, q)
  {
    PermutationNonNegative(p, q);
    EntropySumPermutation(ln, p, q);
  }

  lemma {:induction false} EntropySumPermutation(ln: Log, p: Probs, q: Probs)
    requires NonNegative(p) && NonNegative(q) && multiset(p) == multiset(q)
    ensures EntropySum(ln, p) == EntropySum(ln, q)
    decreases |p|
  {
    if |p| == 0 {
      assert |q| == |multiset(q)| == 0;
    } else {
      var k := PickOccurrence(p, q);
      var x := q[k];
      var rest := q[..k] + q[k + 1..];
      assert q == q[..k] + [x] + q[k + 1..];
      NonNegativeParts(q, k);
      EntropySumPermutation(ln, p[..|p| - 1], rest);
      EntropySumConcat(ln, q[..k], q[k + 1..]);
      EntropySumConcat(ln, q[..k], [x]);
      EntropySumConcat(ln, q[..k] + [x], q[k + 1..]);
      assert [x][..0] == [];
    }
  }

  // ---------------------------------------------------------------- KL divergence

  /** `old.priorActionProbs.get(action) || 1e-10`: a missing key and a stored
      0 both fall back to the guard value. */
  function OldProb(prior: Probs, action: string): (r: real)
    requires NonNegative(prior)
    ensures r > 0.0
    ensures Lookup(prior, action).None? ==> r == Epsilon
    ensures Lookup(prior, action) == Some(0.0) ==> r == Epsilon
    ensures Lookup(prior, action).Some? && Lookup(prior, action).value != 0.0 ==> r == Lookup(prior, action).value
  {
    match Lookup(prior, action)
    case Some(v) => if v != 0.0 then v else Epsilon
    case None => Epsilon
  }

  lemma QuotientPositive(a: real, b: real)
    requires a > 0.0 && b > 0.0
    ensures a / b > 0.0
  {
    assert (a / b) * b == a;
  }

  lemma QuotientNonNegative(a: real, b: real)
    requires a >= 0.0 && b > 0.0
    ensures a / b >= 0.0
  {
    assert (a / b) * b == a;
  }

  /** `p_old * ln(p_old / (p_new + 1e-10))` for one entry (a, p_new) of the current node. */
  function KLTerm(ln: Log, prior: Probs, entry: (string, real)): real
    requires entry.1 >= 0.0 && NonNegative(prior)
  {
    var oldProb := OldProb(prior, entry.0);
    QuotientPositive(oldProb, entry.1 + Epsilon);
    oldProb * ln(oldProb / (entry.1 + Epsilon))
  }

  /** The sum of `KLTerm` over current's entries. */
  function KLSum(ln: Log, current: Probs, prior: Probs): real
    requires NonNegative(current) && NonNegative(prior)
  {
    if |current| == 0 then 0.0
    else KLSum(ln, current[..|current| - 1], prior) + KLTerm(ln, prior, current[|current| - 1])
  }

  function KLDivergence(ln: Log, current: Probs, prior: Probs): (r: real)
    requires NonNegative(current) && NonNegative(prior)
    ensures |current| == 0 ==> r == 0.0
  {
    KLSum(ln, current, prior)
  }

  lemma {:induction false} KLSumConcat(ln: Log, a: Probs, b: Probs, prior: Probs)
    requires NonNegative(a) && NonNegative(b) && NonNegative(prior)
    ensures NonNegative(a + b)
    ensures KLSum(ln, a + b, prior) == KLSum(ln, a, prior) + KLSum(ln, b, prior)
    decreases |b|
  {
    if |b| > 0 {
      var b' := b[..|b| - 1];
      assert (a + b)[..|a + b| - 1] == a + b';
      KLSumConcat(ln, a, b', prior);
      assert KLSum(ln, a + b, prior) == KLSum(ln, a + b', prior) + KLTerm(ln, prior, b[|b| - 1]);
    } else {
      assert a + b == a;
    }
  }

  /** Like the entropy, the divergence is a sum over the current node's
      entries: any rearrangement of them gives the same divergence. */
  lemma {:induction false} KLDivergenceOrderIndependent(ln: Log, p: Probs, q: Probs, prior: Probs)
    requires NonNegative(p) && NonNegative(prior) && multiset(p) == multiset(q)
    ensures NonNegative(q)
    ensures KLDivergence(ln, p, prior) == KLDivergence(ln, q, prior)
  {
    PermutationNonNegative(p, q);
    KLSumPermutation(ln, p, q, prior);
  }

  lemma {:induction false} KLSumPermutation(ln: Log, p: Probs, q: Probs, prior: Probs)
    requires NonNegative(p) && NonNegative(q) && NonNegative(prior) && multiset(p) == multiset(q)
    ensures KLSum(ln, p, prior) == KLSum(ln, q, prior)
    decreases |p|
  {
    if |p| == 0 {
      assert |q| == |multiset(q)| == 0;
    } else {
      var k := PickOccurrence(p, q);
      var x := q[k];
      var rest := q[..k] + q[k + 1..];
      assert q == q[..k] + [x] + q[k + 1..];
      NonNegativeParts(q, k);
      KLSumPermutation(ln, p[..|p| - 1], rest, prior);
      KLSumConcat(ln, q[..k], q[k + 1..], prior);
      KLSumConcat(ln, q[..k], [x], prior);
      KLSumConcat(ln, q[..k] + [x], q[k + 1..], prior);
      assert [x][..0] == [];
    }
  }

  // ---------------------------------------------------------------- importance sampling

  /** `p_new / (p_old + 1e-10)` for each of the current node's entries. */
  function ImportanceTerms(current: Probs, prior: Probs): (r: seq<real>)
    requires NonNegative(current) && NonNegative(prior)
    ensures |r| == |current|
    ensures forall i :: 0 <= i < |r| ==> r[i] >= 0.0
  {
    seq(|current|, i requires 0 <= i < |current| =>
      QuotientNonNegative(current[i].1, OldProb(prior, current[i].0) + Epsilon);
      current[i].1 / (OldProb(prior, current[i].0) + Epsilon))
  }

  /** Mean of the per-action ratios over ALL of the current node's actions
      (missing prior actions count with the guard value), or 1 with no actions. */
  function ImportanceSamplingRatio(current: Probs, prior: Probs): (r: real)
    requires NonNegative(current) && NonNegative(prior)
    ensures |current| == 0 ==> r == 1.0
    ensures |current| > 0 ==>
      SeqMin(ImportanceTerms(current, prior)) <= r <= SeqMax(ImportanceTerms(current, prior))
    ensures r >= 0.0
  {
    if |current| > 0 then
      SeqMinAttained(ImportanceTerms(current, prior));
      Mean(ImportanceTerms(current, prior))
    else 1.0
  }

  // ---------------------------------------------------------------- proximity

  lemma ProductNonNegative(a: real, b: real)
    requires a >= 0.0 && b >= 0.0
    ensures a * b >= 0.0
  {
  }

  /** A clipped ratio scales an advantage by at most 1 + eps = 1.2 when the
      advantage is positive, and by at least 1 - eps = 0.8 when it is negative. */
  lemma ClippedTimesBound(c: real, a: real)
    requires 0.8 <= c <= 1.2
    ensures a >= 0.0 ==> c * a <= 1.2 * a
    ensures a <= 0.0 ==> c * a <= 0.8 * a
  {
    if a >= 0.0 {
      ProductNonNegative(1.2 - c, a);
      assert (1.2 - c) * a == 1.2 * a - c * a;
    }
    if a <= 0.0 {
      ProductNonNegative(c - 0.8, -a);
      assert (c - 0.8) * -a == 0.8 * a - c * a;
    }
  }

  /** `max(min(ratio, 1 + eps), 1 - eps)`. */
  function Clip(ratio: real): (c: real)
    ensures 1.0 - ClipRange <= c <= 1.0 + ClipRange
    ensures 1.0 - ClipRange <= ratio <= 1.0 + ClipRange ==> c == ratio
    ensures ratio < 1.0 - ClipRange ==> c == 1.0 - ClipRange
    ensures ratio > 1.0 + ClipRange ==> c == 1.0 + ClipRange
  {
    Max(Min(ratio, 1.0 + ClipRange), 1.0 - ClipRange)
  }

  function ValueRatio(current: GNode, prior: GNode): real
    requires prior.valueEstimate + Epsilon != 0.0
  {
    current.valueEstimate / (prior.valueEstimate + Epsilon)
  }

  /** The PPO clipped surrogate `min(ratio * A, clip(ratio) * A)`: the smaller
      of the unclipped and clipped objectives, so a positive advantage gains at
      most `(1 + eps) * A` and a negative one costs at least `(1 - eps) * |A|`. */
  function ProximityScore(current: GNode, prior: GNode): (r: real)
    requires prior.valueEstimate + Epsilon != 0.0
    ensures var ratio := ValueRatio(current, prior);
      && r <= ratio * current.info.advantageEstimate
      && r <= Clip(ratio) * current.info.advantageEstimate
      && (r == ratio * current.info.advantageEstimate || r == Clip(ratio) * current.info.advantageEstimate)
    ensures 1.0 - ClipRange <= ValueRatio(current, prior) <= 1.0 + ClipRange ==>
      r == ValueRatio(current, prior) * current.info.advantageEstimate
    ensures current.info.advantageEstimate >= 0.0 ==> r <= 1.2 * current.info.advantageEstimate
    ensures current.info.advantageEstimate <= 0.0 ==> r <= 0.8 * current.info.advantageEstimate
  {
    var ratio := ValueRatio(current, prior);
    var a := current.info.advantageEstimate;
    var c := Clip(ratio);
    ClippedTimesBound(c, a);
    Min(ratio * a, c * a)
  }

  // ---------------------------------------------------------------- node initialisation

  predicate IsViolation(klDiv: real)
  {
    klDiv > TrustRegionDelta
  }

  /** Preconditions of the initialisation: probabilities are non-negative (a
      negative one would send a NaN through Math.log) and the proximity ratio's
      denominator is non-zero. */
  predicate CanInitialize(node: GNode, parent: Option<GNode>)
  {
    && NonNegative(node.priorActionProbs)
    && (parent.Some? ==>
          NonNegative(parent.value.priorActionProbs) && parent.value.valueEstimate + Epsilon != 0.0)
  }

  /** initializeGPRONode: sets the six GPRO fields, in the source's order (the
      proximity score reads the advantage just computed). */
  function InitializeNode(ln: Log, node: GNode, parent: Option<GNode>): (r: GNode)
    requires CanInitialize(node, parent)
    ensures r == node.(info := node.info.(advantageEstimate := r.info.advantageEstimate,
                                          entropyBonus := r.info.entropyBonus,
                                          proximityScore := r.info.proximityScore, klDiv := r.info.klDiv,
                                          trustRegionViolation := r.info.trustRegionViolation,
                                          importanceSamplingRatio := r.info.importanceSamplingRatio))
    ensures r.info.trustRegionViolation <==> r.info.klDiv > TrustRegionDelta
    ensures -1.0 < r.info.advantageEstimate < 1.0
    ensures r.info.advantageEstimate > 0.0 <==> node.valueEstimate > Baseline(parent)
    ensures r.info.advantageEstimate < 0.0 <==> node.valueEstimate < Baseline(parent)
    ensures r.info.importanceSamplingRatio.Some? && r.info.importanceSamplingRatio.value >= 0.0
    ensures parent.None? ==>
      && r.info.proximityScore == 1.0 && r.info.klDiv == 0.0
      && r.info.importanceSamplingRatio == Some(1.0) && !r.info.trustRegionViolation
    ensures |node.priorActionProbs| == 0 ==>
      && r.info.entropyBonus == 0.0 && r.info.klDiv == 0.0
      && r.info.importanceSamplingRatio == Some(1.0) && !r.info.trustRegionViolation
  {
    var advantage := EstimateAdvantage(node, parent);
    var entropy := EntropyBonus(ln, node.priorActionProbs);
    var proximity :=
      if parent.Some? then ProximityScore(node.(info := node.info.(advantageEstimate := advantage)), parent.value) else 1.0;
    var kl :=
      if parent.Some? then KLDivergence(ln, node.priorActionProbs, parent.value.priorActionProbs) else 0.0;
    var ratio :=
      if parent.Some? then ImportanceSamplingRatio(node.priorActionProbs, parent.value.priorActionProbs) else 1.0;
    node.(info := node.info.(advantageEstimate := advantage, entropyBonus := entropy,
                             proximityScore := proximity, klDiv := kl,
                             trustRegionViolation := IsViolation(kl), importanceSamplingRatio := Some(ratio)))
  }

  // ---------------------------------------------------------------- blended scores

  /** calculateNodeScore: the score children are ranked by during trajectory
      simulation. */
  function NodeScore(n: GNode): (r: real)
    ensures r <= n.info.policyScore + n.info.advantageEstimate + n.info.entropyBonus
    ensures r < n.info.policyScore + n.info.advantageEstimate + n.info.entropyBonus
        <==> n.info.trustRegionViolation
  {
    n.info.policyScore + n.info.advantageEstimate + n.info.entropyBonus
      - (if n.info.trustRegionViolation then SelectionPenalty else 0.0)
  }

  /** Being in violation costs exactly 0.5 in the selection score, all else equal. */
  lemma NodeScoreViolationPenalty(n: GNode)
    ensures NodeScore(n.(info := n.info.(trustRegionViolation := true)))
         == NodeScore(n.(info := n.info.(trustRegionViolation := false))) - 0.5
  {
  }

  /** calculateGPROEnhancedScore: the score returned to the caller. */
  function EnhancedScore(n: GNode): (r: real)
    ensures var i := n.info;
      0.0 <= i.score <= 1.0 && 0.0 <= i.policyScore <= 1.0 && -1.0 < i.advantageEstimate < 1.0
        && 0.0 <= i.entropyBonus <= 1.0 && 0.0 <= i.proximityScore <= 1.0
      ==> -0.4 < r < 1.8
    ensures n.info.trustRegionViolation && n.info.score <= 0.0 && n.info.policyScore <= 0.0
        && n.info.advantageEstimate <= 0.0 && n.info.entropyBonus <= 0.0 && n.info.proximityScore <= 0.0
      ==> r < 0.0
  {
    n.info.score + n.info.policyScore * 0.3 + n.info.advantageEstimate * 0.2 + n.info.entropyBonus * 0.1
      + n.info.proximityScore * 0.2 + (if n.info.trustRegionViolation then -ScorePenalty else 0.0)
  }

  /** Being in violation costs exactly 0.2 in the returned score, all else equal;
      and the score ignores the value estimate and the probabilities, the two
      fields the policy update writes. */
  lemma EnhancedScoreProperties(n: GNode, v: real, p: Probs)
    ensures EnhancedScore(n.(info := n.info.(trustRegionViolation := true)))
         == EnhancedScore(n.(info := n.info.(trustRegionViolation := false))) - 0.2
    ensures EnhancedScore(n.(valueEstimate := v, priorActionProbs := p)) == EnhancedScore(n)
  {
  }
}
