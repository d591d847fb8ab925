/** processThought of the trust-region strategy (GPROMCTS) and of the
    experimental mcts-003-alpha strategy: build a fresh thought node,
    initialise its GPRO fields against the parent, run the optimisation loop
    while more thoughts are needed, and answer with the enhanced score.

    The fresh node has no children and no action probabilities, so every
    simulated trajectory is the node alone, it never breaks the trust region,
    and the optimisation only changes its value estimate. The returned score is
    fixed by the parent's value estimate before the loop starts. */
module GproStrategy {
  import opened Common
  import opened Text
  import opened Nodes
  import opened GproScores
  import opened GproSearch
  import opened GproPrompt

  /** learningRate of the trust-region strategy. */
  const LearningRate: real := 0.1

  /** The banner the response's reasoning context puts before the instruction. */
  const PromptBanner: string := "**REASONING PROMPT**\n"

  /** The parent lookup: an absent or empty parent id is falsy and gives no
      parent, and so does an id the store does not hold. */
  function ResolveParent(store: Tree, parentId: Option<Id>): (r: Option<GNode>)
    ensures r.Some? ==> parentId.Some? && parentId.value in store && r.value == store[parentId.value]
    ensures r.None? <==> parentId.None? || parentId.value == "" || parentId.value !in store
  {
    if parentId.Some? && parentId.value != "" && parentId.value in store then Some(store[parentId.value])
    else None
  }

  /** The node processThought creates: depth one less than the thought number,
      no children, complete exactly when no further thought is needed, every
      score and estimate zero, no action probabilities, an importance ratio of 1
      and no reflections. The trust-region strategy also sets confidence 1; the
      experimental one leaves it absent. */
  function FreshNode(request: Request, id: Id, confidence: Option<real>): (r: GNode)
    ensures r.info.id == id && r.info.thought == request.thought && r.info.parentId == request.parentId
    ensures r.info.depth == request.thoughtNumber - 1
    ensures r.info.isComplete <==> !request.nextThoughtNeeded
    ensures Unlinked(r) && r.info.confidence == confidence && r.info.reflections == []
    ensures forall parent: Option<GNode> :: CanInitialize(r, parent) <==>
      (parent.Some? ==> NonNegative(parent.value.priorActionProbs) && parent.value.valueEstimate + Epsilon != 0.0)
  {
    GNode(
      NodeInfo(id, request.thought, request.thoughtNumber - 1, 0.0, [], request.parentId,
               !request.nextThoughtNeeded, 0.0, 0.0, 0.0, 0.0, 0.0, false, Some(1.0), confidence, []),
      0.0, [])
  }

  /** The value estimate `c` passes of the update give a node that starts at
      zero: `c` gains of `lr` times its advantage. */
  function Gains(c: nat, lr: real, a: real): real
  {
    (c as real) * (lr * a)
  }

  /** The enhanced score of a freshly initialised node, in closed form: 0.2
      without a parent, and otherwise a fraction of the advantage the node's
      zero value estimate has over the parent's. */
  function FreshScore(parent: Option<GNode>): real
  {
    match parent
    case None => 0.2
    case Some(p) =>
      var a := NormalizeAdvantage(0.0 - p.valueEstimate);
      if a >= 0.0 then 0.2 * a else 0.36 * a
  }

  /** A node with no probabilities and zero value and scores, once initialised:
      its divergence and entropy are zero, so it is inside the trust region, its
      ratio is 1, and its enhanced score is the closed form above, positive
      exactly when the parent's value estimate is negative (or there is no
      parent) and negative exactly when it is positive. */
  lemma FreshInitialization(ln: Log, node: GNode, parent: Option<GNode>)
    requires node.priorActionProbs == [] && node.valueEstimate == 0.0
    requires node.info.score == 0.0 && node.info.policyScore == 0.0
    requires CanInitialize(node, parent)
    ensures var r := InitializeNode(ln, node, parent);
      && r.info.klDiv == 0.0 && !r.info.trustRegionViolation
      && r.info.entropyBonus == 0.0 && r.info.importanceSamplingRatio == Some(1.0)
      && r.info.advantageEstimate == NormalizeAdvantage(0.0 - Baseline(parent))
      && EnhancedScore(r) == FreshScore(parent)
    ensures parent.None? ==> FreshScore(parent) == 0.2
    ensures parent.Some? ==> (FreshScore(parent) > 0.0 <==> parent.value.valueEstimate < 0.0)
    ensures parent.Some? ==> (FreshScore(parent) < 0.0 <==> parent.value.valueEstimate > 0.0)
    ensures -0.36 < FreshScore(parent) <= 0.2
  {
    var r := InitializeNode(ln, node, parent);
    if parent.Some? {
      var p := parent.value;
      var a := r.info.advantageEstimate;
      var current := node.(info := node.info.(advantageEstimate := a));
      assert current.valueEstimate == 0.0;
      ZeroQuotient(p.valueEstimate + Epsilon);
      assert ValueRatio(current, p) == 0.0;
      assert Clip(0.0) == 0.8;
      assert r.info.proximityScore == Min(0.0 * a, 0.8 * a);
    }
  }

  lemma ZeroQuotient(d: real)
    requires d != 0.0
    ensures 0.0 / d == 0.0
  {
  }

  /** A node without children is the whole of its own trajectory. */
  lemma ChildlessTrajectory(t: Tree, id: Id, maxDepth: int)
    requires ChildrenStored(t) && id in t && t[id].info.children == []
    ensures SimulateTrajectory(t, id, maxDepth) == [id]
  {
    SimulateTrajectoryIsSimulation(t, id, maxDepth);
    assert forall b :: !ValidStep(t, id, b);
  }

  /** `n` copies of the one-element trajectory: `n` entries, all `id`. */
  lemma {:induction false} RepeatSingle(id: Id, n: nat)
    ensures |Repeat([id], n)| == n
    ensures forall i :: 0 <= i < |Repeat([id], n)| ==> Repeat([id], n)[i] == id
    ensures multiset(Repeat([id], n))[id] == n
  {
    RepeatCounts([id], n);
  }

  /** The optimisation loop on a childless node inside the trust region: each
      pass samples the node alone `min(10, count)` times, never reports a
      violation, saves every visit, and after `k` passes the node has been
      updated `k * min(10, count)` times. */
  lemma ChildlessOptimization(t: Tree, id: Id, maxDepth: int, simulationCount: int, k: nat, lr: real)
    requires ChildrenStored(t) && id in t && t[id].info.children == [] && !IsViolation(t[id].info.klDiv)
    ensures var traj := SampleTrajectories(t, id, maxDepth, simulationCount);
      && traj == Repeat([id], NumSamples(simulationCount))
      && !Violates(t, traj)
      && Saved(t, traj) == traj
      && Passes(t, traj, k, lr)[id] == Visited(t[id], k * NumSamples(simulationCount), lr)
  {
    ChildlessTrajectory(t, id, maxDepth);
    var n := NumSamples(simulationCount);
    RepeatSingle(id, n);
    SingleNodePasses(t, id, n, k, lr);
  }

  /** Updating along `n` visits of one node inside the trust region: no
      violation, every visit saved, and `k` passes update it `k * n` times. */
  lemma SingleNodePasses(t: Tree, id: Id, n: nat, k: nat, lr: real)
    requires id in t && !IsViolation(t[id].info.klDiv)
    requires |Repeat([id], n)| == n && multiset(Repeat([id], n))[id] == n
    requires forall i :: 0 <= i < |Repeat([id], n)| ==> Repeat([id], n)[i] == id
    ensures !Violates(t, Repeat([id], n))
    ensures Saved(t, Repeat([id], n)) == Repeat([id], n)
    ensures Passes(t, Repeat([id], n), k, lr)[id] == Visited(t[id], k * n, lr)
  {
    var traj := Repeat([id], n);
    SavedCounts(t, traj);
    PassesEffect(t, traj, k, lr);
    TimesProduct(k, n);
  }

  /** The metrics of `n` visits of one node: every statistic is that node's. */
  lemma ConstantMetrics(t: Tree, id: Id, n: nat, m: GproMetrics)
    requires id in t && n > 0
    ensures var a := t[id].info.advantageEstimate;
      var q := RatioOrOne(t[id]);
      UpdateMetrics(t, Repeat([id], n), m)
        == m.(advantageStats := AdvantageStats(a, Square(a), a, a), samplingStats := SamplingStats(q, q, q))
  {
    var traj := Repeat([id], n);
    RepeatCounts([id], n);
    assert forall i :: 0 <= i < |traj| ==> traj[i] == id;
    ConstantStats(Advantages(t, traj), t[id].info.advantageEstimate);
    ConstantStats(Ratios(t, traj), RatioOrOne(t[id]));
  }

  /** A node that no tree links to yet, as processThought builds it: no
      children, no probabilities, a zero value estimate, inside the trust
      region, with an importance ratio of 1. */
  predicate Unlinked(n: GNode)
  {
    && n.info.children == [] && n.priorActionProbs == [] && n.valueEstimate == 0.0
    && !IsViolation(n.info.klDiv) && n.info.importanceSamplingRatio == Some(1.0)
  }

  /** `k` rounds of `n` visits of one node: `k * n` entries, all that node. */
  lemma RepeatRounds(id: Id, n: nat, k: nat)
    ensures |Repeat(Repeat([id], n), k)| == k * n
    ensures forall i :: 0 <= i < |Repeat(Repeat([id], n), k)| ==> Repeat(Repeat([id], n), k)[i] == id
  {
    var traj := Repeat([id], n);
    RepeatSingle(id, n);
    RepeatCounts(traj, k);
    assert forall i :: 0 <= i < |Repeat(traj, k)| ==> Repeat(traj, k)[i] in traj;
  }

  /** A node with no probabilities and a zero value estimate, after `c`
      updates: only its value estimate has moved, to `c` times the gain. */
  lemma VisitedFresh(node: GNode, c: nat, lr: real)
    requires node.priorActionProbs == [] && node.valueEstimate == 0.0
    ensures Visited(node, c, lr) == node.(valueEstimate := Gains(c, lr, node.info.advantageEstimate))
  {
    assert VisitedProbs(node, c, lr) == [];
  }

  /** The part both strategies share: create the node, initialise it against
      the parent found in `store`, and run the optimisation loop with learning
      rate `lr` unless the node is complete. `node` is the node afterwards,
      `metrics` the strategy's metrics afterwards and `saved` the log of
      saveNode calls. */
  method InitializeAndOptimize(ln: Log, request: Request, id: Id, store: Tree, confidence: Option<real>,
                               lr: real, maxDepth: int, simulationCount: int, m: GproMetrics)
    returns (node: GNode, metrics: GproMetrics, saved: seq<Id>)
    requires CanInitialize(FreshNode(request, id, confidence), ResolveParent(store, request.parentId))
    ensures var init := InitializeNode(ln, FreshNode(request, id, confidence), ResolveParent(store, request.parentId));
      var a := init.info.advantageEstimate;
      && node == init.(valueEstimate :=
           if request.nextThoughtNeeded then Gains(3 * NumSamples(simulationCount), lr, a) else 0.0)
      && (request.nextThoughtNeeded && simulationCount >= 1 ==>
            metrics == m.(advantageStats := AdvantageStats(a, Square(a), a, a),
                          samplingStats := SamplingStats(1.0, 1.0, 1.0)))
    ensures EnhancedScore(node) == FreshScore(ResolveParent(store, request.parentId))
    ensures node.info.advantageEstimate == NormalizeAdvantage(0.0 - Baseline(ResolveParent(store, request.parentId)))
    ensures node.priorActionProbs == [] && node.info.id == id && node.info.confidence == confidence
    ensures !node.info.trustRegionViolation && node.info.klDiv == 0.0 && node.info.entropyBonus == 0.0
    ensures metrics.trustRegionViolations == m.trustRegionViolations
    ensures !request.nextThoughtNeeded ==> metrics == m && saved == []
    ensures request.nextThoughtNeeded && simulationCount < 1 ==>
      metrics.advantageStats.AdvantageNonFinite? && metrics.samplingStats.SamplingNonFinite?
    ensures |saved| == (if request.nextThoughtNeeded then 3 * NumSamples(simulationCount) else 0)
    ensures forall i :: 0 <= i < |saved| ==> saved[i] == id
  {
    var parent := ResolveParent(store, request.parentId);
    var created := FreshNode(request, id, confidence);
    var init := InitializeNode(ln, created, parent);
    FreshInitialization(ln, created, parent);
    assert init.info.isComplete == !request.nextThoughtNeeded;
    assert init.valueEstimate == 0.0 && init.priorActionProbs == [] && init.info.children == [];
    if !init.info.isComplete {
      node, metrics, saved := OptimizeChildless(init, id, lr, maxDepth, simulationCount, m);
    } else {
      node, metrics, saved := init, m, [];
      assert node == init.(valueEstimate := 0.0);
    }
    EnhancedScoreProperties(init, node.valueEstimate, []);
  }

  /** runGPROOptimization on the node processThought has just built, which
      no tree links to yet: its value estimate ends at `3 * min(10, count)`
      gains and nothing else about it changes. */
  method OptimizeChildless(init: GNode, id: Id, lr: real, maxDepth: int, simulationCount: int, m: GproMetrics)
    returns (node: GNode, metrics: GproMetrics, saved: seq<Id>)
    requires Unlinked(init)
    ensures node == init.(valueEstimate :=
      Gains(3 * NumSamples(simulationCount), lr, init.info.advantageEstimate))
    ensures metrics.trustRegionViolations == m.trustRegionViolations
    ensures simulationCount >= 1 ==>
      var a := init.info.advantageEstimate;
      metrics == m.(advantageStats := AdvantageStats(a, Square(a), a, a), samplingStats := SamplingStats(1.0, 1.0, 1.0))
    ensures simulationCount < 1 ==>
      metrics.advantageStats.AdvantageNonFinite? && metrics.samplingStats.SamplingNonFinite?
    ensures |saved| == 3 * NumSamples(simulationCount)
    ensures forall i :: 0 <= i < |saved| ==> saved[i] == id
  {
    var t := map[id := init];
    var n := NumSamples(simulationCount);
    var tree, flags;
    tree, metrics, saved, flags := RunOptimization(t, id, maxDepth, simulationCount, lr, m);
    ChildlessOptimization(t, id, maxDepth, simulationCount, 3, lr);
    RepeatRounds(id, n, 3);
    if n > 0 {
      ConstantMetrics(t, id, n, m);
      assert RatioOrOne(t[id]) == 1.0;
    }
    VisitedFresh(init, 3 * n, lr);
    node := tree[id];
  }

  /** processThought of the trust-region strategy. `base` is the response of
      the inherited strategy, `store` the node store the parent is read from,
      `all` and `getPath` what the prompt reads from the state manager, and `m`
      the strategy's metrics before the call. The answer keeps the inherited
      response and replaces the thought, the score, the prompt, the reasoning
      context and the metrics. */
  method ProcessThought(ln: Log, base: Response, request: Request, id: Id, store: Tree,
                        maxDepth: int, simulationCount: int, m: GproMetrics,
                        all: seq<GNode>, getPath: Id -> seq<GNode>)
    returns (response: Response, node: GNode, metrics: GproMetrics, saved: seq<Id>)
    requires CanInitialize(FreshNode(request, id, Some(1.0)), ResolveParent(store, request.parentId))
    ensures response == base.(thought := request.thought, score := response.score,
                              currentPrompt := response.currentPrompt,
                              reasoningContext := response.reasoningContext, metrics := response.metrics)
    ensures response.score == FreshScore(ResolveParent(store, request.parentId))
    ensures response.currentPrompt == Some(ConstructPromptInstruction(node, AnalyzeMistakes(getPath(id))))
    ensures response.reasoningContext.Some?
    ensures var context := response.reasoningContext.value;
      && context.instruction == PromptBanner + response.currentPrompt.value
      && context.currentPath == Thoughts(getPath(id))
      && context.alternativePaths == Thoughts(Flatten(AlternativePaths(node, all, getPath)))
      && context.mistakes == AnalyzeMistakes(getPath(id))
      && context.improvements == SuggestImprovements(node)
      && context.confidence == Some(1.0)
      && (forall k, i: nat :: MistakeMessage(k, i) in context.mistakes
            <==> 1 <= i < |getPath(id)| && Detects(k, getPath(id)[i - 1], getPath(id)[i]))
    ensures var hints := response.reasoningContext.value.improvements;
      && LowEntropyHint in hints && ViolationHint !in hints
      && (LowValueHint in hints <==> node.valueEstimate < 0.5)
    ensures StartsWith(response.currentPrompt.value, Header)
    ensures EndsWith(response.currentPrompt.value, BacktrackHint) <==> node.valueEstimate < 0.5
    ensures response.metrics
         == Some(ResponseMetrics(metrics, NodeStats(node.info.advantageEstimate, 0.0, node.info.proximityScore, false)))
    ensures node.info.id == id && !node.info.trustRegionViolation
    ensures node.valueEstimate
         == (if request.nextThoughtNeeded
             then Gains(3 * NumSamples(simulationCount), LearningRate, node.info.advantageEstimate)
             else 0.0)
    ensures metrics.trustRegionViolations == m.trustRegionViolations
    ensures !request.nextThoughtNeeded ==> metrics == m && saved == []
    ensures |saved| == (if request.nextThoughtNeeded then 3 * NumSamples(simulationCount) else 0)
    ensures forall i :: 0 <= i < |saved| ==> saved[i] == id
  {
    node, metrics, saved :=
      InitializeAndOptimize(ln, request, id, store, Some(1.0), LearningRate, maxDepth, simulationCount, m);
    var prompt := GenerateReasoningPrompt(node, all, getPath);
    var context := ReasoningContext(
      PromptBanner + prompt.instruction, prompt.context.currentPath, prompt.context.alternativePaths,
      prompt.reflection.mistakes, prompt.reflection.improvements, prompt.reflection.confidence);
    var stats := NodeStats(node.info.advantageEstimate, node.info.entropyBonus, node.info.proximityScore,
                           node.info.trustRegionViolation);
    response := base.(thought := node.info.thought, score := EnhancedScore(node),
                      currentPrompt := Some(prompt.instruction), reasoningContext := Some(context),
                      metrics := Some(ResponseMetrics(metrics, stats)));
  }

  /** processThought of the experimental strategy: the same node and loop with
      the inherited learning rate `lr`, answering with the inherited response
      whose score alone is replaced. */
  method ProcessThought003(ln: Log, base: Response, request: Request, id: Id, store: Tree, lr: real,
                           maxDepth: int, simulationCount: int, m: GproMetrics)
    returns (response: Response, node: GNode, metrics: GproMetrics, saved: seq<Id>)
    requires CanInitialize(FreshNode(request, id, None), ResolveParent(store, request.parentId))
    ensures response == base.(score := FreshScore(ResolveParent(store, request.parentId)))
    ensures node.info.id == id && node.info.confidence.None? && !node.info.trustRegionViolation
    ensures node.valueEstimate
         == (if request.nextThoughtNeeded
             then Gains(3 * NumSamples(simulationCount), lr, node.info.advantageEstimate)
             else 0.0)
    ensures metrics.trustRegionViolations == m.trustRegionViolations
    ensures !request.nextThoughtNeeded ==> metrics == m && saved == []
    ensures |saved| == (if request.nextThoughtNeeded then 3 * NumSamples(simulationCount) else 0)
  {
    node, metrics, saved :=
      InitializeAndOptimize(ln, request, id, store, None, lr, maxDepth, simulationCount, m);
    response := base.(score := EnhancedScore(node));
  }
}
