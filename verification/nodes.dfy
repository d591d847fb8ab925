/** The data the GPRO strategies work on: thought nodes with their policy and
    trust-region fields, the node store as a map from id to node, and the
    request/response records every strategy exchanges with its caller. */
module Nodes {
  import opened Common

  type Id = string

  /** A JavaScript `Map<string, number>` of action probabilities, as its
      entries in insertion order. `DistinctKeys` is the Map's own invariant. */
  type Probs = seq<(string, real)>

  predicate DistinctKeys(p: Probs)
  {
    forall i, j :: 0 <= i < j < |p| ==> p[i].0 != p[j].0
  }

  predicate NonNegative(p: Probs)
  {
    forall i :: 0 <= i < |p| ==> p[i].1 >= 0.0
  }

  /** A rearrangement of non-negative entries is non-negative. */
  lemma PermutationNonNegative(p: Probs, q: Probs)
    requires NonNegative(p) && multiset(p) == multiset(q)
    ensures NonNegative(q)
  {
    forall j | 0 <= j < |q|
      ensures q[j].1 >= 0.0
    {
      assert q[j] in multiset(p);
    }
  }

  /** The pieces of a non-negative sequence around position `k` are non-negative. */
  lemma NonNegativeParts(q: Probs, k: nat)
    requires NonNegative(q) && k < |q|
    ensures NonNegative(q[..k]) && NonNegative(q[k + 1..]) && NonNegative([q[k]])
    ensures NonNegative(q[..k] + q[k + 1..])
  {
    var rest := q[..k] + q[k + 1..];
    forall j | 0 <= j < |rest|
      ensures rest[j].1 >= 0.0
    {
      if j < k {
        assert rest[j] == q[j];
      } else {
        assert rest[j] == q[j + 1];
      }
    }
  }

  /** `map.get(key)`: the value stored under `key`, if any. */
  function Lookup(p: Probs, key: string): (r: Option<real>)
    ensures r.None? <==> forall i :: 0 <= i < |p| ==> p[i].0 != key
    ensures r.Some? ==> exists i :: 0 <= i < |p| && p[i].0 == key && p[i].1 == r.value
  {
    if |p| == 0 then None
    else if p[0].0 == key then Some(p[0].1)
    else
      var r := Lookup(p[1..], key);
      assert forall i :: 1 <= i < |p| ==> p[1..][i - 1] == p[i];
      r
  }

  /** Every entry's probability multiplied by `factor`; keys and their order kept. */
  function ScaleProbs(p: Probs, factor: real): (r: Probs)
    ensures |r| == |p|
    ensures forall i :: 0 <= i < |p| ==> r[i].0 == p[i].0 && r[i].1 == p[i].1 * factor
  {
    seq(|p|, i requires 0 <= i < |p| => (p[i].0, p[i].1 * factor))
  }

  lemma ScaleProbsOne(p: Probs)
    ensures ScaleProbs(p, 1.0) == p
  {
  }

  /** Scaling by `a` and then by `b` is scaling by their product `c`. */
  lemma ScaleProbsTwice(p: Probs, a: real, b: real, c: real)
    requires c == a * b
    ensures ScaleProbs(ScaleProbs(p, a), b) == ScaleProbs(p, c)
  {
    var l := ScaleProbs(ScaleProbs(p, a), b);
    var r := ScaleProbs(p, c);
    forall i | 0 <= i < |p|
      ensures l[i] == r[i]
    {
      var x := p[i].1;
      assert ScaleProbs(p, a)[i].1 == x * a;
      assert l[i].1 == (x * a) * b;
      assert r[i].1 == x * (a * b);
      assert (x * a) * b == x * (a * b);
      assert l[i].0 == r[i].0;
    }
  }

  /** A thought node with the policy-guided and GPRO extension fields, split
      into the two fields the policy update writes (the value estimate and the
      action probabilities) and everything else. Fields the GPRO code never
      reads (visits, totalReward, clipRange, mistakeHistory, improvements,
      untriedActions, puct, ...) are not represented. An absent
      `trustRegionViolation` reads as false and an absent `kl_div` as 0. */
  datatype GNode = GNode(info: NodeInfo, valueEstimate: real, priorActionProbs: Probs)

  datatype NodeInfo = NodeInfo(
    id: Id,
    thought: string,
    depth: int,
    score: real,
    children: seq<Id>,
    parentId: Option<Id>,
    isComplete: bool,
    policyScore: real,
    advantageEstimate: real,
    entropyBonus: real,
    proximityScore: real,
    klDiv: real,
    trustRegionViolation: bool,
    importanceSamplingRatio: Option<real>,
    confidence: Option<real>,
    reflections: seq<string>)

  /** The node store, abstracted to its id-to-node table. Each id stands for one
      node object: a mutation of the object is an update of the table at its id. */
  type Tree = map<Id, GNode>

  predicate ChildrenStored(t: Tree)
  {
    forall id | id in t :: forall c | c in t[id].info.children :: c in t
  }

  predicate WellFormed(t: Tree)
  {
    && ChildrenStored(t)
    && forall id | id in t :: NonNegative(t[id].priorActionProbs) && DistinctKeys(t[id].priorActionProbs)
  }

  /** `t2` differs from `t1` at most in the value estimates and probabilities,
      the only fields the policy update writes. */
  predicate SameShape(t1: Tree, t2: Tree)
  {
    && t1.Keys == t2.Keys
    && forall id {:trigger t2[id]} | id in t1 :: t2[id].info == t1[id].info
  }

  lemma SameShapeTransitive(t1: Tree, t2: Tree, t3: Tree)
    requires SameShape(t1, t2) && SameShape(t2, t3)
    ensures SameShape(t1, t3)
  {
  }

  /** Writing a node's value estimate and probabilities keeps the shape. */
  lemma SameShapeSet(t: Tree, id: Id, v: real, p: Probs)
    requires id in t
    ensures SameShape(t, t[id := GNode(t[id].info, v, p)])
  {
  }

  lemma SameShapeKeepsChildren(t1: Tree, t2: Tree)
    requires SameShape(t1, t2) && ChildrenStored(t1)
    ensures ChildrenStored(t2)
  {
    forall id | id in t2
      ensures forall c | c in t2[id].info.children :: c in t2
    {
      assert t2[id].info.children == t1[id].info.children;
    }
  }

  /** ReasoningRequest. */
  datatype Request = Request(
    thought: string,
    thoughtNumber: int,
    totalThoughts: int,
    nextThoughtNeeded: bool,
    parentId: Option<Id>,
    strategyType: Option<string>,
    beamWidth: Option<int>,
    numSimulations: Option<int>)

  datatype ReasoningContext = ReasoningContext(
    instruction: string,
    currentPath: seq<string>,
    alternativePaths: seq<string>,
    mistakes: seq<string>,
    improvements: seq<string>,
    confidence: Option<real>)

  /** advantageStats of GPROMetrics; `std` is the square root of `meanSquare`.
      An empty trajectory list yields NaN and infinities, kept as `AdvantageNonFinite`. */
  datatype AdvantageStats =
    | AdvantageStats(mean: real, meanSquare: real, min: real, max: real)
    | AdvantageNonFinite

  datatype SamplingStats =
    | SamplingStats(meanRatio: real, minRatio: real, maxRatio: real)
    | SamplingNonFinite

  /** The GPRO metrics the update loop writes. The loss fields, meanDivergence
      and clipFraction stay at their initial zero and are not represented. */
  datatype GproMetrics = GproMetrics(
    advantageStats: AdvantageStats,
    trustRegionViolations: nat,
    samplingStats: SamplingStats)

  function InitialMetrics(): GproMetrics
  {
    GproMetrics(AdvantageStats(0.0, 0.0, 0.0, 0.0), 0, SamplingStats(1.0, 1.0, 1.0))
  }

  datatype NodeStats = NodeStats(
    advantageEstimate: real,
    entropyBonus: real,
    proximityScore: real,
    trustRegionViolation: bool)

  datatype ResponseMetrics = ResponseMetrics(gpro: GproMetrics, nodeStats: NodeStats)

  /** ReasoningResponse; the GPRO fields are absent from other strategies' responses. */
  datatype Response = Response(
    nodeId: Id,
    thought: string,
    score: real,
    depth: int,
    isComplete: bool,
    nextThoughtNeeded: bool,
    possiblePaths: Option<int>,
    bestScore: Option<real>,
    strategyUsed: Option<string>,
    currentPrompt: Option<string>,
    reasoningContext: Option<ReasoningContext>,
    metrics: Option<ResponseMetrics>)
}
