# mcp-reasoner: the trust-region strategy, request validation, strategy factory and external-model text handling, in Dafny

mcp-reasoner is an MCP server that answers calls to its `mcp-reasoner` tool by
running one of several search strategies over a tree of "thought" nodes. This project
models four parts of it and proves properties of each.

- **The GPRO trust-region strategy.** This covers `GPROMCTS` and its
  experimental copy `MCTS003AlphaStrategy`. When a thought arrives, the
  strategy creates a policy node. It then fills in five things: the node's
  advantage (its value against the parent's, squashed into (-1, 1)), an
  entropy bonus, a PPO-style clipped proximity score, the KL divergence from
  the parent's action distribution, and an importance-sampling ratio. Next it
  runs up to three rounds of optimisation. Each round samples trajectories
  greedily through the tree and adds the learning rate times its advantage to
  every visited node's value estimate (the advantage may be negative). A visited node that is not in
  violation also has each action probability multiplied by one plus the
  learning rate times its advantage, and is saved; a node in violation keeps
  its probabilities and is not saved. The round then updates the advantage and
  sampling statistics. Nodes whose KL divergence exceeds the
  trust-region bound of 0.01 count as violations. The response carries a
  blended score, a reasoning prompt built from the node's path and the mistakes
  found along it, and the metrics.
- **processInput** of the server's entry point. The tool's arguments get their
  defaults, then five checks run in a fixed order and the first one that fails
  gives the error.
- **createStrategy.** A strategy identifier selects one of six strategies.
- **The external-model strategy's `extractThinking`** and the response it builds.

Files and modules:
- `common.dfy` (`Common`): Option/Result, and the sums, minima, maxima and means the metrics use.
- `text.dfy` (`Text`): prefix and suffix tests, `join`, and decimal rendering.
- `nodes.dfy` (`Nodes`): the policy node, the node store, the request and response records, and the metrics records.
- `gpro_scores.dfy` (`GproScores`): the per-node quantities and the two blended scores.
- `gpro_search.dfy` (`GproSearch`): child selection, trajectory simulation and sampling, the policy update, the metrics, and the three-round optimisation loop.
- `gpro_prompt.dfy` (`GproPrompt`): mistake analysis, best outcomes, improvement hints, alternative paths, and the prompt text.
- `gpro_strategy.dfy` (`GproStrategy`): processThought of both strategy classes.
- `input_validation.dfy` (`InputValidation`, `EntryPoint`): processInput, and what it implies for the strategy.
- `factory.dfy` (`Factory`): createStrategy.
- `r1_sonnet.dfy` (`R1Sonnet`): answer-span removal, `trim`, and the response.

Modelling choices:
- The node store is a map from id to node, holding one object per id.
- Action probabilities are a sequence of (action, probability) pairs with distinct actions.
- The natural logarithm is a parameter `ln` over positive reals.
- `saveNode` calls are recorded as a log of ids.
- The state manager's `getAllNodes` and `getPath` are parameters (`all`, `getPath`).
- `CONFIG.maxDepth` is a parameter, and so is the node id that `uuidv4` would generate.

## Model

| member | source | states |
|---|---|---|
| GproScores.NormalizeAdvantage | src/strategies/search/mcts/variants/GPROMCTS.ts:333-335 | the normalised advantage lies strictly between -1 and 1 and has the sign of the raw advantage |
| GproScores.DenormalizeNormalize | src/strategies/search/mcts/variants/GPROMCTS.ts:333-335 | normalisation loses nothing: an explicit inverse recovers every raw advantage |
| GproScores.NormalizeDenormalize | src/strategies/search/mcts/variants/GPROMCTS.ts:333-335 | every value in (-1, 1) is the normalisation of some advantage |
| GproScores.NormalizeStrictlyIncreasing | src/strategies/search/mcts/variants/GPROMCTS.ts:333-335 | a larger raw advantage always normalises to a larger value |
| GproScores.EstimateAdvantage | src/strategies/search/mcts/variants/GPROMCTS.ts:327-331 | the advantage is positive exactly when the node's value exceeds its parent's (0 without a parent), negative exactly when below, and always inside (-1, 1) |
| GproScores.EntropyBonus | src/strategies/search/mcts/variants/GPROMCTS.ts:337-341 | a node without action probabilities gets no entropy bonus |
| GproScores.EntropySumConcat | src/strategies/search/mcts/variants/GPROMCTS.ts:337-341 | the entropy sum over two groups of actions is the sum of the groups' entropies |
| GproScores.EntropyBonusOrderIndependent | src/strategies/search/mcts/variants/GPROMCTS.ts:337-341 | any rearrangement of the probability map's entries gives the same bonus (the two lists hold the same entries as multisets) |
| GproScores.OldProb | src/strategies/search/mcts/variants/GPROMCTS.ts:355 | the parent's probability for an action is always positive: an absent or zero entry falls back to 1e-10, any other entry is used as it is |
| GproScores.KLDivergence | src/strategies/search/mcts/variants/GPROMCTS.ts:352-359 | a node without action probabilities has divergence 0 |
| GproScores.KLSumConcat | src/strategies/search/mcts/variants/GPROMCTS.ts:352-359 | the divergence sum over two groups of actions is the sum of the groups' sums |
| GproScores.KLDivergenceOrderIndependent | src/strategies/search/mcts/variants/GPROMCTS.ts:352-359 | any rearrangement of the current node's probability entries gives the same divergence from the same prior |
| GproScores.ImportanceTerms | src/strategies/search/mcts/variants/GPROMCTS.ts:365-369 | one non-negative ratio per action of the node |
| GproScores.ImportanceSamplingRatio | src/strategies/search/mcts/variants/GPROMCTS.ts:361-372 | the ratio is 1 without actions; otherwise it lies between the smallest and largest per-action ratio, and it is never negative |
| GproScores.Clip | src/strategies/search/mcts/variants/GPROMCTS.ts:345-348 | the clipped ratio lies in [0.8, 1.2], equals the ratio inside that band, and sits at the nearer bound outside it |
| GproScores.ProximityScore | src/strategies/search/mcts/variants/GPROMCTS.ts:343-350 | the pessimistic PPO objective: the score is one of the unclipped and clipped surrogates and at most both; it equals the unclipped one when the ratio is in the band, and is at most 1.2·A (A ≥ 0) or 0.8·A (A ≤ 0) |
| GproScores.InitializeNode | src/strategies/search/mcts/variants/GPROMCTS.ts:304-325 | only the six GPRO fields change; the node violates the trust region exactly when its divergence exceeds 0.01; the advantage has the sign of value minus baseline; the ratio is present and non-negative; a root node gets proximity 1, divergence 0 and ratio 1 and never violates; a node without action probabilities gets entropy 0, divergence 0 and ratio 1 |
| GproScores.NodeScore | src/strategies/search/mcts/variants/GPROMCTS.ts:438-445 | the selection score never exceeds policy score + advantage + entropy bonus, and falls below that sum exactly when the node violates the trust region |
| GproScores.NodeScoreViolationPenalty | src/strategies/search/mcts/variants/GPROMCTS.ts:438-445 | a trust-region violation lowers the selection score by exactly 0.5 and changes nothing else |
| GproScores.EnhancedScore | src/strategies/search/mcts/variants/GPROMCTS.ts:497-513 | when score, policy score, entropy bonus and proximity lie in [0, 1] and the advantage in (-1, 1), the returned score lies in (-0.4, 1.8); a violating node whose components are all at most 0 gets a negative score |
| GproScores.EnhancedScoreProperties | src/strategies/search/mcts/variants/GPROMCTS.ts:497-513 | a violation lowers the returned score by exactly 0.2, and the score ignores the node's value estimate and action probabilities |
| GproSearch.FirstBestUnique | src/strategies/search/mcts/variants/GPROMCTS.ts:432-435 | at most one index is the first index of the maximal score |
| GproSearch.BestIndex | src/strategies/search/mcts/variants/GPROMCTS.ts:432-435 | the reduction returns the first child of maximal score: no child scores higher, and every earlier child scores strictly lower |
| GproSearch.SelectNextNode | src/strategies/search/mcts/variants/GPROMCTS.ts:425-436 | the selected node is one of the node's children |
| GproSearch.SelectNextNodeSpec | src/strategies/search/mcts/variants/GPROMCTS.ts:425-436 | nothing is selected exactly when there are no children; otherwise the selection is the first best-scoring child, and no child scores higher |
| GproSearch.Walk | src/strategies/search/mcts/variants/GPROMCTS.ts:414-420 | the walk extends the trajectory it was given and never leaves the store |
| GproSearch.WalkSimulates | src/strategies/search/mcts/variants/GPROMCTS.ts:414-420 | continuing a valid walk prefix produces a complete simulation |
| GproSearch.SimulateTrajectory | src/strategies/search/mcts/variants/GPROMCTS.ts:410-423 | the trajectory is non-empty, starts at the start node, and stays inside the store |
| GproSearch.SimulateTrajectoryIsSimulation | src/strategies/search/mcts/variants/GPROMCTS.ts:410-423 | the trajectory meets the independent description: each step goes to the selected child, and the walk stops at a complete node, at a node without children, or at the maximum depth |
| GproSearch.SimulationUnique | src/strategies/search/mcts/variants/GPROMCTS.ts:410-423 | that description determines the trajectory: two simulations from the same start are equal |
| GproSearch.SimulationAgree | src/strategies/search/mcts/variants/GPROMCTS.ts:414-420 | two walk prefixes from the same start agree wherever both are defined |
| GproSearch.SimulationSameShape | src/strategies/search/mcts/variants/GPROMCTS.ts:447-477 | a simulation stays a simulation after the policy update, which only touches value estimates and action probabilities |
| GproSearch.SimulateSameShape | src/strategies/search/mcts/variants/GPROMCTS.ts:378-383 | every optimisation round samples the same trajectory, because the update leaves selection scores alone |
| GproSearch.RepeatCounts | src/strategies/search/mcts/variants/GPROMCTS.ts:402-405 | n copies of a trajectory have n times its length and n times each node's count |
| GproSearch.NumSamples | src/strategies/search/mcts/variants/GPROMCTS.ts:400 | the number of samples is min(10, simulation count), at most 10, and positive exactly when the count is at least 1 |
| GproSearch.SampleTrajectories | src/strategies/search/mcts/variants/GPROMCTS.ts:398-408 | every sampled node is in the store |
| GproSearch.SampleTrajectoriesCounts | src/strategies/search/mcts/variants/GPROMCTS.ts:398-408 | the sampled list is the number of samples times the trajectory, is non-empty exactly when the count is at least 1, and holds each node that many times more often |
| GproSearch.VisitedZero | src/strategies/search/mcts/variants/GPROMCTS.ts:452-468 | a node visited no times is unchanged |
| GproSearch.VisitedAdd | src/strategies/search/mcts/variants/GPROMCTS.ts:452-468 | a visits then b visits equal a+b visits of the closed form |
| GproSearch.VisitedOnce | src/strategies/search/mcts/variants/GPROMCTS.ts:452-468 | one more update step is one more visit of the closed form |
| GproSearch.UpdateAt | src/strategies/search/mcts/variants/GPROMCTS.ts:452-468 | updating one node keeps the store's ids, applies one update step to that node, and leaves every other node unchanged |
| GproSearch.UpdatePolicy | src/strategies/search/mcts/variants/GPROMCTS.ts:447-477 | the update neither adds nor removes nodes |
| GproSearch.UpdatePolicySameShape | src/strategies/search/mcts/variants/GPROMCTS.ts:447-477 | the update changes only value estimates and action probabilities |
| GproSearch.UpdatePolicyEffect | src/strategies/search/mcts/variants/GPROMCTS.ts:447-477 | after the update, every node equals its closed form for the number of times it occurs in the trajectories, whatever their order |
| GproSearch.SavedCounts | src/strategies/search/mcts/variants/GPROMCTS.ts:459-470 | a violating node is never saved, every other node is saved once per occurrence, only visited nodes are saved, and the log equals the trajectories exactly when nothing violates |
| GproSearch.SavedShorter | src/strategies/search/mcts/variants/GPROMCTS.ts:459-470 | the save log is never longer than the trajectories |
| GproSearch.SavedSameShape | src/strategies/search/mcts/variants/GPROMCTS.ts:459-470 | the save log and the violation flag are the same in every round, because the update leaves divergences alone |
| GproSearch.RatioOrOne | src/strategies/search/mcts/variants/GPROMCTS.ts:481 | an absent or zero ratio counts as 1 in the statistics, any other ratio as it is |
| GproSearch.Advantages | src/strategies/search/mcts/variants/GPROMCTS.ts:480 | one advantage per trajectory entry, that node's advantage |
| GproSearch.Ratios | src/strategies/search/mcts/variants/GPROMCTS.ts:481 | one ratio per trajectory entry, that node's ratio with the fallback |
| GproSearch.UpdateMetrics | src/strategies/search/mcts/variants/GPROMCTS.ts:479-495 | the violation counter is untouched, and both statistics are non-finite exactly when no trajectory was sampled |
| GproSearch.UpdateMetricsBounds | src/strategies/search/mcts/variants/GPROMCTS.ts:479-495 | minimum ≤ mean ≤ maximum; every sampled advantage and ratio lies between the minimum and maximum, both of which are attained; the mean square is non-negative |
| GproSearch.UpdateMetricsSameShape | src/strategies/search/mcts/variants/GPROMCTS.ts:479-495 | the statistics are the same in every round, because the update leaves advantages and ratios alone |
| GproSearch.UpdateMetricsCounter | src/strategies/search/mcts/variants/GPROMCTS.ts:479-495 | the statistics do not depend on the violation counter they are stored beside |
| GproSearch.PassesSameShape | src/strategies/search/mcts/variants/GPROMCTS.ts:378-395 | any number of rounds changes only value estimates and action probabilities |
| GproSearch.PassesEffect | src/strategies/search/mcts/variants/GPROMCTS.ts:378-395 | after n rounds over the same trajectories, each node is its closed form for n times its occurrence count |
| GproSearch.OptimizationRound | src/strategies/search/mcts/variants/GPROMCTS.ts:380-389 | one round samples, updates every visited node once more, logs the non-violating saves, reports whether anything violated, and adds one to the counter on a violation |
| GproSearch.RunOptimization | src/strategies/search/mcts/variants/GPROMCTS.ts:374-396 | three rounds run when nothing violates and two when something does (the second violation stops the loop); the store is the closed form for that many rounds; the save log repeats each round's log; the counter grows by 2 on a violation and 0 otherwise; the statistics are those of the sampled trajectories |
| GproPrompt.Thoughts | src/strategies/search/mcts/variants/GPROMCTS.ts:176 | one entry per path node, its thought |
| GproPrompt.MistakeMessageInjective | src/strategies/search/mcts/variants/GPROMCTS.ts:124-136 | different kinds or steps give different mistake messages |
| GproPrompt.StepMistakes | src/strategies/search/mcts/variants/GPROMCTS.ts:119-137 | at most three messages per step |
| GproPrompt.StepMistakesMembers | src/strategies/search/mcts/variants/GPROMCTS.ts:119-137 | a mistake message for check k and step j is among step i's messages exactly when j = i and check k fires between steps i-1 and i |
| GproPrompt.StepMistakesExplained | src/strategies/search/mcts/variants/GPROMCTS.ts:119-137 | every message for step i is the message of some check that fires at step i, so no other string is produced |
| GproPrompt.AnalyzeMistakes | src/strategies/search/mcts/variants/GPROMCTS.ts:116-140 | a path of at most one node has no mistakes; otherwise there are at most three per step |
| GproPrompt.MistakesExplained | src/strategies/search/mcts/variants/GPROMCTS.ts:116-140 | every reported string is the message of some check at some step 1 ≤ i < path length where that check fires; together with MistakeReported, the messages are exactly those of the firing checks |
| GproPrompt.MistakeReported | src/strategies/search/mcts/variants/GPROMCTS.ts:116-140 | a mistake of a given kind is reported at step i exactly when step i exists and that check fires between steps i-1 and i (a score drop below 70%, a violation, or a value jump above 0.5) |
| GproPrompt.OutcomeCandidatesMembers | src/strategies/search/mcts/variants/GPROMCTS.ts:144-146 | a thought is a candidate exactly when some stored node with score above 0.8 and depth at least the node's has that thought |
| GproPrompt.BestOutcomes | src/strategies/search/mcts/variants/GPROMCTS.ts:142-148 | at most three outcomes: all the candidates (in store order) if there are at most three, otherwise exactly the first three; each the thought of a qualifying node |
| GproPrompt.SuggestImprovements | src/strategies/search/mcts/variants/GPROMCTS.ts:150-166 | at most three hints; each hint is present exactly when its condition holds (value below 0.5, entropy below 0.1, violation) |
| GproPrompt.ConstructPromptInstruction | src/strategies/search/mcts/variants/GPROMCTS.ts:190-208 | the instruction opens with the fixed header; the mistakes heading follows it exactly when there are mistakes, and then starts with the first mistake; right after the mistakes block come the current-thought line and the three questions; the instruction ends with the backtracking hint exactly when the value estimate is below 0.5 |
| GproPrompt.PromptMistakesBlock | src/strategies/search/mcts/variants/GPROMCTS.ts:190-197 | the text after the header opens with the mistakes heading exactly when there are mistakes, and then starts with the first one |
| GproPrompt.PromptBacktrackHint | src/strategies/search/mcts/variants/GPROMCTS.ts:198-205 | the text after the header ends with the backtracking hint when the value estimate is below 0.5, and otherwise ends with the questions, whose second-to-last character differs from the hint's |
| GproPrompt.DepthOrderSpec | src/strategies/search/mcts/variants/GPROMCTS.ts:89-94 | the depth groups are distinct and cover the depth of every stored node |
| GproPrompt.GroupedIsPermutation | src/strategies/search/mcts/variants/GPROMCTS.ts:89-111 | walking the depth groups collects the same alternative nodes as one filter over the whole store, counted with multiplicity |
| GproPrompt.AlternativeSources | src/strategies/search/mcts/variants/GPROMCTS.ts:96-111 | the alternatives are, up to order, the stored nodes whose depth is at most the node's, that are off its path, and scoring above 0.5 |
| GproPrompt.AlternativePaths | src/strategies/search/mcts/variants/GPROMCTS.ts:84-114 | one path per alternative node, the path to that node |
| GproPrompt.GenerateReasoningPrompt | src/strategies/search/mcts/variants/GPROMCTS.ts:168-188 | the context's current path is the thoughts of the node's path; its failed attempts are the reflection's mistakes; a mistake is listed exactly when its check fires on the path; at most three best outcomes |
| GproStrategy.ResolveParent | src/strategies/search/mcts/variants/GPROMCTS.ts:239-240 | a parent is found only for a present, non-empty id the store holds, and it is the stored node; an absent, empty or unknown id gives no parent |
| GproStrategy.FreshNode | src/strategies/search/mcts/variants/GPROMCTS.ts:243-266 | the new node carries the generated id, the request's thought and parent id, depth thought number - 1, is complete exactly when no further thought is needed, has no children, probabilities or reflections, value 0, ratio 1 and the given confidence, and can be initialised against any parent whose probabilities are non-negative and whose value plus 1e-10 is not 0 |
| GproStrategy.FreshInitialization | src/strategies/search/mcts/variants/GPROMCTS.ts:243-269 | a freshly created node never violates the trust region and gets divergence 0, entropy 0 and ratio 1; its score is 0.2 without a parent, and otherwise positive exactly when the parent's value is negative, negative exactly when it is positive, and in (-0.36, 0.2] |
| GproStrategy.ChildlessTrajectory | src/strategies/search/mcts/variants/GPROMCTS.ts:410-423 | a node without children is a trajectory by itself |
| GproStrategy.ChildlessOptimization | src/strategies/search/mcts/variants/GPROMCTS.ts:374-408 | for a childless non-violating node the sample is that node once per sample, nothing violates, every visit is saved, and after k rounds the node is its closed form for k times the sample count |
| GproStrategy.ConstantMetrics | src/strategies/search/mcts/variants/GPROMCTS.ts:479-495 | statistics over one repeated node have that node's advantage as mean, minimum and maximum, its square as mean square, and its ratio throughout |
| GproStrategy.VisitedFresh | src/strategies/search/mcts/variants/GPROMCTS.ts:452-456 | a node with value 0 and no actions visited c times has value c·(learning rate·advantage) and is otherwise unchanged |
| GproStrategy.OptimizeChildless | src/strategies/search/mcts/variants/GPROMCTS.ts:374-396 | optimising a fresh node runs three rounds, adds 3·min(10, count)·lr·A to its value (a decrease when A < 0), saves it 3·min(10, count) times, leaves the counter alone, and sets the statistics to the node's own advantage and a ratio of 1 (non-finite with no samples) |
| GproStrategy.InitializeAndOptimize | src/strategies/search/mcts/variants/GPROMCTS.ts:243-274 | a node needing further thoughts ends with value 3·min(10, count)·lr·A, and a complete one keeps value 0, no saves and unchanged metrics; either way the score is the fresh score, and the node never violates |
| GproStrategy.ProcessThought | src/strategies/search/mcts/variants/GPROMCTS.ts:235-302 | the response is the base response with the thought, the fresh score, the prompt (the instruction built from the node and the mistakes on its path), the context (banner + prompt, the path's thoughts, the flattened thoughts of the alternative paths, the mistakes found on the path, the node's improvement hints, confidence 1) and the metrics with the node's stats; the hints always include the low-entropy hint (entropy is 0), never the violation hint, and the low-value hint exactly when the final value is below 0.5; the prompt ends with the backtracking hint under the same condition; learning rate 0.1 |
| GproStrategy.ProcessThought003 | src/strategies/experiments/mcts-003-alpha.ts:150-191 | the experimental copy returns the base response with only the score replaced by the fresh score; the node has no confidence; value, saves and counter behave as in the main class |
| InputValidation.Normalize | src/index.ts:30-38 | the thought is empty exactly when absent or empty; the counters are as sent or 0 when absent; the flag is true only when sent as true; the strategy is passed through; beam width and simulation count are as sent, or 3 and 50 when absent or 0 |
| InputValidation.Failures | src/index.ts:41-55 | at most five failing checks |
| InputValidation.FailuresEmpty | src/index.ts:41-55 | no check fails exactly when all five constraints hold |
| InputValidation.ProcessInput | src/index.ts:29-58 | the input is accepted exactly when the defaulted request meets all five constraints, and then returned as defaulted; otherwise the error is the first failing check in source order |
| InputValidation.AcceptedInputs | src/index.ts:29-58 | which arguments are accepted, stated on the raw arguments themselves: a non-empty thought; both counters present and at least 1; beam width absent, 0 or in 1..10; simulation count absent, 0 or in 1..150 |
| InputValidation.ThoughtChecked | src/index.ts:41-43 | an absent or empty thought is always the error reported |
| InputValidation.MissingThoughtNumber | src/index.ts:31-46 | with a thought present, an absent thought number is rejected as below 1 |
| InputValidation.AcceptedDefaults | src/index.ts:30-38 | an accepted request keeps the thought, counters and strategy as sent and reads a missing flag as false; the beam width is 3 exactly when it was absent or 0 (or 3 as sent), and the simulation count likewise with 50 |
| InputValidation.ToRequest | src/index.ts:141-149 | the request has no parent id, and the step's seven fields can be read back from it unchanged |
| EntryPoint.ServerRequestHasNoParent | src/index.ts:141-149 | a request built from accepted arguments has no parent, so the trust-region strategy can always initialise its node and its own score for it is 0.2 |
| Factory.Parse | src/strategies/factory.ts:11-18 | a recognised string is the identifier of the kind it names |
| Factory.ParseIdentifier | src/strategies/factory.ts:11-18 | every kind is recovered from its identifier |
| Factory.ParseComplete | src/strategies/factory.ts:11-18 | a string is unrecognised exactly when it is none of the six identifiers |
| Factory.IdentifierInjective | src/strategies/factory.ts:11-18 | distinct kinds have distinct identifiers |
| Factory.CreateStrategy | src/strategies/factory.ts:20-45 | a strategy is created exactly for the six identifiers, of the kind the identifier names; any other string fails with "Unknown strategy type: " followed by it; beam search receives the beam width, the four tree-search variants the simulation count |
| Factory.DistinctStrategies | src/strategies/factory.ts:28-43 | different identifiers create different strategies |
| Factory.BeamWidthOnlyForBeamSearch | src/strategies/factory.ts:28-43 | only beam search depends on the beam width |
| Factory.SimulationsIgnored | src/strategies/factory.ts:29-38 | beam search and the external model do not depend on the simulation count |
| Factory.ConfigIrrelevant | src/strategies/factory.ts:20-45 | the configuration argument never changes the outcome |
| R1Sonnet.FindFrom | src/strategies/r1-sonnet.ts:59 | the search returns the first occurrence at or after the start, and nothing when there is none |
| R1Sonnet.StripAnswers | src/strategies/r1-sonnet.ts:59 | removing spans never lengthens the text |
| R1Sonnet.StripUnchangedIff | src/strategies/r1-sonnet.ts:59 | the text comes back unchanged exactly when no opening tag is followed later by a closing tag |
| R1Sonnet.NoSpanUnchanged | src/strategies/r1-sonnet.ts:59 | text without a span is left as it is |
| R1Sonnet.SpanShortens | src/strategies/r1-sonnet.ts:59 | text with a span gets strictly shorter |
| R1Sonnet.NoSpanStartsInIff | src/strategies/r1-sonnet.ts:59 | the stepwise "no span starts in this prefix" condition holds exactly when no index of the prefix begins a span |
| R1Sonnet.KeepPlain | src/strategies/r1-sonnet.ts:59 | a prefix at none of whose indices a span starts is kept as it is, whatever follows it |
| R1Sonnet.PlainPrefix | src/strategies/r1-sonnet.ts:59 | no span starts inside text that has no `<` |
| R1Sonnet.LeadingSpan | src/strategies/r1-sonnet.ts:59 | a span at the front is removed up to the nearest closing tag, whatever it contains, newlines included |
| R1Sonnet.SingleSpan | src/strategies/r1-sonnet.ts:59 | a prefix in which no span starts, a span, then more text: the prefix is kept, the span removed, and the rest processed on its own |
| R1Sonnet.Trim | src/strategies/r1-sonnet.ts:59 | the result is the part of the text between whitespace-only ends, and begins and ends with a non-whitespace character |
| R1Sonnet.TrimmedUnique | src/strategies/r1-sonnet.ts:59 | a text has only one such trimmed part |
| R1Sonnet.TrimCharacterised | src/strategies/r1-sonnet.ts:59 | anything satisfying the trimmed-part description is what `trim` returns |
| R1Sonnet.TrimIdempotent | src/strategies/r1-sonnet.ts:59 | trimming twice is trimming once |
| R1Sonnet.ExtractThinking | src/strategies/r1-sonnet.ts:57-60 | the extracted thinking is no longer than the reply and neither begins nor ends with whitespace |
| R1Sonnet.ExtractWithoutSpan | src/strategies/r1-sonnet.ts:57-60 | a reply without a span is only trimmed |
| R1Sonnet.R1Response | src/strategies/r1-sonnet.ts:62-81 | the thought is the extracted thinking; the score is its length over 100, so between 0 and the reply's length over 100; depth is the thought number; the node is complete exactly when no further thought is needed; the strategy is reported as "r1_sonnet"; no other optional field is set |

## Left out

- getMetrics (GPROMCTS.ts:515-522 and mcts-003-alpha.ts:404-411) only copies the metrics record out. It is not modelled.
- `Math.sqrt` of the mean square: the model stores the mean square, which is the standard deviation's square.
- Floating point: every quantity is a real number. NaN, Infinity and rounding are not modelled. A division by an empty count is the `NonFinite` case of the statistics.
- GproScores.ProximityScore: requires the parent's value plus 1e-10 to be non-zero. In JavaScript that division gives an infinity or NaN, which the model does not represent.
- `Math.log` is the parameter `ln`. Only its use on positive arguments (probability + 1e-10, and ratios of positive numbers) is modelled.
- Action probabilities are assumed non-negative. A negative one makes `Math.log` NaN.
- The state manager is not part of this model. `getNode` is a lookup in the store map; `getAllNodes` and `getPath` are the parameters `all` and `getPath`; `saveNode` is the returned log of ids.
- `super.processThought` (PolicyGuidedMCTS) is not part of this model: its response is the parameter `base`. The experimental class's learning rate comes from that superclass, so it is the parameter `lr`.
- The experimental class's own generateReasoningPrompt and constructPromptInstruction (mcts-003-alpha.ts:83-123) are never called by its processThought. They rely on helpers that file does not define, so they are not modelled.
- Concurrency and `async`/`await` are not modelled: every call runs to completion in order.
- Node ids (`uuidv4`, and the clock-and-random id of the external strategy) are parameters.
- `CONFIG.maxDepth` is a parameter.
- The HTTP call to the external model (r1-sonnet.ts:28-55) is not modelled: the reply text is a parameter.
- R1Sonnet.R1Response: the score uses the length in Unicode scalar values. JavaScript's `length` counts UTF-16 code units, so characters outside the Basic Multilingual Plane count once here and twice there.
- InputValidation.ProcessInput: arguments are integers, booleans and strings as the tool's schema declares. JavaScript's coercion of other values (`Number("abc")` giving NaN, fractional numbers, truthy strings for the flag) is not modelled.
- InputValidation.ProcessInput: a tool call without an `arguments` object is not modelled. `RawInput` always describes an object, possibly with every field absent, and for that the model reports "thought must be provided". In the source, `input.thought` on `undefined` throws a TypeError (index.ts:31), and the handler's catch reports that error's own message (index.ts:273-286).
- `src/reasoner.ts` is not part of this model. EntryPoint.ServerRequestHasNoParent assumes that the Reasoner hands the request to the trust-region strategy unchanged and returns that strategy's score unchanged; the 0.2 it states is the strategy's own score.
- GproSearch.SelectNextNode: every child id is assumed to be stored (`ChildrenStored`, and the same for GproSearch.ChildScores). In the source a missing child gives `undefined`, and calculateNodeScore then throws (GPROMCTS.ts:426-434); that error path is not modelled.
- The strategy objects that createStrategy constructs (beam search, MCTS and its variants, GroqStrategy) are represented only by their kind and the parameter they receive. Their behaviour is outside this model.

## Notes on code and documentation

- runGPROOptimization counts violating rounds in total, not consecutively (GPROMCTS.ts:375-393). With three rounds and the same trajectories sampled in each round, the two readings cannot differ.
- updateGPROPolicy still moves a violating node's value estimate; it skips only the probability update and the save (GPROMCTS.ts:452-469).
- The identifier `r1_sonnet` creates the Groq-backed strategy in the factory, not the OpenRouter strategy whose text handling `R1Sonnet` models.
- The `mcts_003_alpha` identifier creates the main trust-region class. The experimental copy is never created by the factory.
