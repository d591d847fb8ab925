/** The reasoning prompt the trust-region variant attaches to its response:
    the mistakes found along the current path, the best outcomes and the
    alternative paths elsewhere in the tree, the improvement hints, and the
    instruction text. The state manager's `getPath` and `getAllNodes` are
    inputs: a function from id to path and a list of all stored nodes. */
module GproPrompt {
  import opened Common
  import opened Text
  import opened Nodes

  /** Concatenation of a list of lists, `Array.prototype.flat()` one level deep. */
  function Flatten<T>(xss: seq<seq<T>>): (r: seq<T>)
    ensures |xss| == 0 ==> r == []
  {
    if |xss| == 0 then [] else Flatten(xss[..|xss| - 1]) + xss[|xss| - 1]
  }

  function Thoughts(path: seq<GNode>): (r: seq<string>)
    ensures |r| == |path|
    ensures forall i :: 0 <= i < |path| ==> r[i] == path[i].info.thought
  {
    seq(|path|, i requires 0 <= i < |path| => path[i].info.thought)
  }

  function Ids(path: seq<GNode>): (r: seq<Id>)
    ensures |r| == |path|
    ensures forall i :: 0 <= i < |path| ==> r[i] == path[i].info.id
  {
    seq(|path|, i requires 0 <= i < |path| => path[i].info.id)
  }

  // ---------------------------------------------------------------- mistakes

  /** The three checks analyzeMistakes runs on each step of the path. */
  datatype MistakeKind = QualityDrop | TrustRegionBreach | InconsistentValue

  function MistakeMessage(k: MistakeKind, step: nat): string
  {
    MistakePrefix(k) + NatToDecimal(step)
  }

  function MistakePrefix(k: MistakeKind): (r: string)
    ensures |r| > 0
  {
    match k
    case QualityDrop => "Reasoning quality dropped at step "
    case TrustRegionBreach => "Trust region violated at step "
    case InconsistentValue => "Inconsistent value estimates at step "
  }

  /** Whether the move from `prev` to `cur` shows the mistake: the score fell
      below 70% of the previous one, the node is in violation, or the value
      estimate moved by more than 0.5. */
  predicate Detects(k: MistakeKind, prev: GNode, cur: GNode)
  {
    match k
    case QualityDrop => cur.info.score < prev.info.score * 0.7
    case TrustRegionBreach => cur.info.trustRegionViolation
    case InconsistentValue => Abs(cur.valueEstimate - prev.valueEstimate) > 0.5
  }

  /** A message names its check and its step, and nothing else produces it. */
  lemma MistakeMessageInjective(k1: MistakeKind, i1: nat, k2: MistakeKind, i2: nat)
    requires MistakeMessage(k1, i1) == MistakeMessage(k2, i2)
    ensures k1 == k2 && i1 == i2
  {
    var m := MistakeMessage(k1, i1);
    assert m[0] == MistakePrefix(k1)[0] && m[0] == MistakePrefix(k2)[0];
    var p := MistakePrefix(k1);
    assert k1 == k2;
    assert NatToDecimal(i1) == m[|p|..] == NatToDecimal(i2);
    NatToDecimalInjective(i1, i2);
  }

  /** The messages for step `i` (the move from `path[i-1]` to `path[i]`), in the
      order the checks run. */
  function StepMistakes(path: seq<GNode>, i: nat): (r: seq<string>)
    requires 1 <= i < |path|
    ensures |r| <= 3
  {
    (if Detects(QualityDrop, path[i - 1], path[i]) then [MistakeMessage(QualityDrop, i)] else [])
    + (if Detects(TrustRegionBreach, path[i - 1], path[i]) then [MistakeMessage(TrustRegionBreach, i)] else [])
    + (if Detects(InconsistentValue, path[i - 1], path[i]) then [MistakeMessage(InconsistentValue, i)] else [])
  }

  lemma StepMistakesMembers(path: seq<GNode>, i: nat, k: MistakeKind, j: nat)
    requires 1 <= i < |path|
    ensures MistakeMessage(k, j) in StepMistakes(path, i) <==> j == i && Detects(k, path[i - 1], path[i])
  {
    var m := MistakeMessage(k, j);
    var a := if Detects(QualityDrop, path[i - 1], path[i]) then [MistakeMessage(QualityDrop, i)] else [];
    var b := if Detects(TrustRegionBreach, path[i - 1], path[i]) then [MistakeMessage(TrustRegionBreach, i)] else [];
    var c := if Detects(InconsistentValue, path[i - 1], path[i]) then [MistakeMessage(InconsistentValue, i)] else [];
    assert StepMistakes(path, i) == a + b + c;
    assert m in a + b + c <==> m in a || m in b || m in c;
    if m in a {
      MistakeMessageInjective(k, j, QualityDrop, i);
    } else if m in b {
      MistakeMessageInjective(k, j, TrustRegionBreach, i);
    } else if m in c {
      MistakeMessageInjective(k, j, InconsistentValue, i);
    }
  }

  /** Every message for step `i` names a check that fires at that step. */
  lemma StepMistakesExplained(path: seq<GNode>, i: nat, m: string)
    requires 1 <= i < |path|
    ensures m in StepMistakes(path, i) ==> exists k :: m == MistakeMessage(k, i) && Detects(k, path[i - 1], path[i])
  {
  }

  /** analyzeMistakes: the messages for steps 1 .. |path|-1, in step order. */
  function AnalyzeMistakes(path: seq<GNode>): (r: seq<string>)
    ensures |path| <= 1 ==> r == []
    ensures |path| > 1 ==> |r| <= 3 * (|path| - 1)
  {
    if |path| <= 1 then []
    else
      var init := path[..|path| - 1];
      assert forall i :: 0 <= i < |init| ==> init[i] == path[i];
      AnalyzeMistakes(init) + StepMistakes(path, |path| - 1)
  }

  /** The steps before the last one are reported as in the path without its
      last node. */
  lemma {:induction false} EarlierReported(path: seq<GNode>, k: MistakeKind, i: nat)
    requires |path| > 1
    decreases |path|, 0
    ensures MistakeMessage(k, i) in AnalyzeMistakes(path[..|path| - 1])
        <==> 1 <= i < |path| - 1 && Detects(k, path[i - 1], path[i])
  {
    var init := path[..|path| - 1];
    MistakeReported(init, k, i);
    if 1 <= i < |init| {
      assert init[i - 1] == path[i - 1] && init[i] == path[i];
    }
  }

  /** A message is reported exactly when its check fires at its step. */
  lemma {:induction false} MistakeReported(path: seq<GNode>, k: MistakeKind, i: nat)
    decreases |path|, 1
    ensures MistakeMessage(k, i) in AnalyzeMistakes(path)
        <==> 1 <= i < |path| && Detects(k, path[i - 1], path[i])
  {
    if |path| > 1 {
      AnalyzeMistakesSplit(path, MistakeMessage(k, i));
      EarlierReported(path, k, i);
      StepMistakesMembers(path, |path| - 1, k, i);
    }
  }

  /** A message is reported for the whole path iff it is reported for the path
      without its last node or for the last step. */
  lemma AnalyzeMistakesSplit(path: seq<GNode>, m: string)
    requires |path| > 1
    ensures m in AnalyzeMistakes(path)
        <==> m in AnalyzeMistakes(path[..|path| - 1]) || m in StepMistakes(path, |path| - 1)
  {
  }

  /** Nothing else is reported: every message names a step of the path and a
      check that fires at that step. */
  lemma {:induction false} MistakesExplained(path: seq<GNode>, m: string)
    ensures m in AnalyzeMistakes(path) ==>
      exists k, i: nat :: m == MistakeMessage(k, i) && 1 <= i < |path| && Detects(k, path[i - 1], path[i])
  {
    if |path| > 1 && m in AnalyzeMistakes(path) {
      var init := path[..|path| - 1];
      assert forall j :: 0 <= j < |init| ==> init[j] == path[j];
      if m in AnalyzeMistakes(init) {
        MistakesExplained(init, m);
        var k, i: nat :| m == MistakeMessage(k, i) && 1 <= i < |init| && Detects(k, init[i - 1], init[i]);
        assert init[i - 1] == path[i - 1] && init[i] == path[i];
      } else {
        StepMistakesExplained(path, |path| - 1, m);
      }
    }
  }

  // ---------------------------------------------------------------- best outcomes

  predicate IsBestOutcome(n: GNode, node: GNode)
  {
    n.info.score > 0.8 && n.info.depth >= node.info.depth
  }

  /** The thoughts of all nodes that qualify as best outcomes, in store order. */
  function OutcomeCandidates(node: GNode, all: seq<GNode>): (r: seq<string>)
    ensures |r| <= |all|
  {
    if |all| == 0 then []
    else
      var last := all[|all| - 1];
      OutcomeCandidates(node, all[..|all| - 1]) + (if IsBestOutcome(last, node) then [last.info.thought] else [])
  }

  /** Every candidate is the thought of a qualifying node, and every qualifying
      node's thought is a candidate. */
  lemma {:induction false} OutcomeCandidatesMembers(node: GNode, all: seq<GNode>, x: string)
    ensures x in OutcomeCandidates(node, all)
        <==> exists j :: 0 <= j < |all| && IsBestOutcome(all[j], node) && all[j].info.thought == x
  {
    if |all| > 0 {
      var init := all[..|all| - 1];
      assert forall j :: 0 <= j < |init| ==> init[j] == all[j];
      OutcomeCandidatesMembers(node, init, x);
      if exists j :: 0 <= j < |all| && IsBestOutcome(all[j], node) && all[j].info.thought == x {
        var j :| 0 <= j < |all| && IsBestOutcome(all[j], node) && all[j].info.thought == x;
        if j < |init| {
          assert init[j] == all[j];
        }
      }
    }
  }

  /** getBestOutcomes: the first three candidates. */
  function BestOutcomes(node: GNode, all: seq<GNode>): (r: seq<string>)
    ensures |r| <= 3
    ensures r <= OutcomeCandidates(node, all)
    ensures |OutcomeCandidates(node, all)| <= 3 ==> r == OutcomeCandidates(node, all)
    ensures |OutcomeCandidates(node, all)| > 3 ==> r == OutcomeCandidates(node, all)[..3]
    ensures forall x | x in r :: exists j :: 0 <= j < |all| && IsBestOutcome(all[j], node) && all[j].info.thought == x
  {
    var c := OutcomeCandidates(node, all);
    var r := if |c| <= 3 then c else c[..3];
    forall x | x in r
      ensures exists j :: 0 <= j < |all| && IsBestOutcome(all[j], node) && all[j].info.thought == x
    {
      OutcomeCandidatesMembers(node, all, x);
    }
    r
  }

  // ---------------------------------------------------------------- improvements

  const LowValueHint: string := "Consider alternative approaches with higher value estimates"
  const LowEntropyHint: string := "Explore more diverse reasoning paths"
  const ViolationHint: string := "Stay within established reasoning bounds"

  /** suggestImprovements: one hint per weak spot of the node, in a fixed order. */
  function SuggestImprovements(node: GNode): (r: seq<string>)
    ensures |r| <= 3
    ensures LowValueHint in r <==> node.valueEstimate < 0.5
    ensures LowEntropyHint in r <==> node.info.entropyBonus < 0.1
    ensures ViolationHint in r <==> node.info.trustRegionViolation
  {
    assert |LowValueHint| == 59 && |LowEntropyHint| == 36 && |ViolationHint| == 40;
    (if node.valueEstimate < 0.5 then [LowValueHint] else [])
    + (if node.info.entropyBonus < 0.1 then [LowEntropyHint] else [])
    + (if node.info.trustRegionViolation then [ViolationHint] else [])
  }

  // ---------------------------------------------------------------- instruction

  const Header: string := "Let's carefully analyze the current reasoning path:\n\n"
  const MistakesHeading: string := "Previous mistakes to avoid:\n"
  const Aspects: string :=
    "Consider these aspects:\n"
    + "1. Is this reasoning step logically sound?\n"
    + "2. What alternative approaches might be better?\n"
    + "3. How does this connect to the overall goal?\n\n"
  const BacktrackHint: string := "The current path seems suboptimal. Consider backtracking or exploring alternatives.\n"

  function MistakesBlock(mistakes: seq<string>): string
  {
    if |mistakes| > 0 then MistakesHeading + Join(mistakes, "\n") + "\n\n" else ""
  }

  function ThoughtLine(node: GNode): string
  {
    "Current thought: \"" + node.info.thought + "\"\n\n"
  }

  /** constructPromptInstruction: the header, then the mistakes block exactly
      when there are mistakes (opening with the first of them), then the
      current thought and the three questions, and at the end the
      backtracking hint exactly when the value estimate is below 0.5. */
  function ConstructPromptInstruction(node: GNode, mistakes: seq<string>): (r: string)
    ensures StartsWith(r, Header)
    ensures StartsWith(r[|Header|..], MistakesHeading) <==> |mistakes| > 0
    ensures |mistakes| > 0 ==> StartsWith(r[|Header|..], MistakesHeading + mistakes[0])
    ensures var at := |Header| + |MistakesBlock(mistakes)|;
      && at + |ThoughtLine(node) + Aspects| <= |r|
      && r[at..at + |ThoughtLine(node) + Aspects|] == ThoughtLine(node) + Aspects
    ensures EndsWith(r, BacktrackHint) <==> node.valueEstimate < 0.5
  {
    InstructionLayout(node, mistakes);
    Header + InstructionBody(node, mistakes)
  }

  lemma InstructionLayout(node: GNode, mistakes: seq<string>)
    ensures var r := Header + InstructionBody(node, mistakes);
      && StartsWith(r, Header)
      && (StartsWith(r[|Header|..], MistakesHeading) <==> |mistakes| > 0)
      && (|mistakes| > 0 ==> StartsWith(r[|Header|..], MistakesHeading + mistakes[0]))
      && |Header| + |MistakesBlock(mistakes)| + |ThoughtLine(node) + Aspects| <= |r|
      && r[|Header| + |MistakesBlock(mistakes)|..|Header| + |MistakesBlock(mistakes)| + |ThoughtLine(node) + Aspects|]
         == ThoughtLine(node) + Aspects
      && (EndsWith(r, BacktrackHint) <==> node.valueEstimate < 0.5)
  {
    var body := InstructionBody(node, mistakes);
    ConcatParts(Header, MistakesBlock(mistakes), ThoughtLine(node) + Aspects, Hint(node));
    PromptMistakesBlock(node, mistakes);
    assert EndsWith(Header + body, BacktrackHint) <==> node.valueEstimate < 0.5 by {
      PromptBacktrackHint(node, mistakes);
      if node.valueEstimate < 0.5 {
        EndsWithPrepend(Header, body, BacktrackHint);
      } else {
        PenultimateDiffers(Header, body, BacktrackHint);
      }
    }
  }

  /** The backtracking hint, present only for a low value estimate. */
  function Hint(node: GNode): string
  {
    if node.valueEstimate < 0.5 then BacktrackHint else ""
  }

  /** What follows the header. */
  function InstructionBody(node: GNode, mistakes: seq<string>): string
  {
    MistakesBlock(mistakes) + (ThoughtLine(node) + Aspects) + Hint(node)
  }

  /** After the header, the mistakes block comes first exactly when there are
      mistakes, and it starts with the first of them. */
  lemma PromptMistakesBlock(node: GNode, mistakes: seq<string>)
    ensures var body := InstructionBody(node, mistakes);
      && (StartsWith(body, MistakesHeading) <==> |mistakes| > 0)
      && (|mistakes| > 0 ==> StartsWith(body, MistakesHeading + mistakes[0]))
  {
    var block := MistakesBlock(mistakes);
    var q := ThoughtLine(node) + Aspects;
    var front := block + q;
    if |mistakes| == 0 {
      assert (front + Hint(node))[0] == 'C' != MistakesHeading[0];
    } else {
      var first := MistakesHeading + mistakes[0];
      assert StartsWith(MistakesHeading + Join(mistakes, "\n"), first);
      PrefixExtend(first, MistakesHeading + Join(mistakes, "\n"), "\n\n");
      PrefixExtend(first, block, q);
      PrefixExtend(first, front, Hint(node));
    }
  }

  /** The questions end in a blank line, the hint in a full stop and a newline. */
  lemma ClosingCharacters()
    ensures |Aspects| >= 2 && |BacktrackHint| >= 2
    ensures Aspects[|Aspects| - 2] != BacktrackHint[|BacktrackHint| - 2]
  {
    assert Aspects[|Aspects| - 2] == '\n';
    assert BacktrackHint[|BacktrackHint| - 2] == '.';
  }

  /** The text after the header closes with the backtracking hint when the
      value estimate is below 0.5, and otherwise with the questions, whose
      second-to-last character the hint does not share. */
  lemma PromptBacktrackHint(node: GNode, mistakes: seq<string>)
    ensures var body := InstructionBody(node, mistakes);
      && (node.valueEstimate < 0.5 ==> EndsWith(body, BacktrackHint))
      && (node.valueEstimate >= 0.5 ==>
            |body| >= 2 && |BacktrackHint| >= 2 && body[|body| - 2] != BacktrackHint[|BacktrackHint| - 2])
  {
    var front := MistakesBlock(mistakes) + ThoughtLine(node);
    var body := InstructionBody(node, mistakes);
    ClosingCharacters();
    if node.valueEstimate < 0.5 {
      EndsWithAppend(MistakesBlock(mistakes) + (ThoughtLine(node) + Aspects), BacktrackHint);
    } else {
      assert body == front + Aspects;
      assert body[|body| - 2] == Aspects[|Aspects| - 2];
    }
  }

  // ---------------------------------------------------------------- alternative paths

  /** A node whose path counts as an alternative: not deeper than the current
      node, not on the current path, and with a score above 0.5. */
  predicate IsAlternative(n: GNode, node: GNode, pathIds: seq<Id>)
  {
    n.info.depth <= node.info.depth && n.info.id !in pathIds && n.info.score > 0.5
  }

  /** The alternatives in store order: the reference the grouping is checked against. */
  function Alternatives(all: seq<GNode>, node: GNode, pathIds: seq<Id>): (r: seq<GNode>)
  {
    if |all| == 0 then []
    else
      var last := all[|all| - 1];
      Alternatives(all[..|all| - 1], node, pathIds) + (if IsAlternative(last, node, pathIds) then [last] else [])
  }

  /** The distinct depths of the nodes, in order of first appearance: the
      iteration order of the depth-keyed Map getAlternativePaths builds. */
  function DepthOrder(all: seq<GNode>): (r: seq<int>)
  {
    if |all| == 0 then []
    else
      var prev := DepthOrder(all[..|all| - 1]);
      if all[|all| - 1].info.depth in prev then prev else prev + [all[|all| - 1].info.depth]
  }

  predicate Distinct(ds: seq<int>)
  {
    forall i, j :: 0 <= i < j < |ds| ==> ds[i] != ds[j]
  }

  lemma {:induction false} DepthOrderSpec(all: seq<GNode>)
    ensures Distinct(DepthOrder(all))
    ensures forall j :: 0 <= j < |all| ==> all[j].info.depth in DepthOrder(all)
  {
    if |all| > 0 {
      var init := all[..|all| - 1];
      assert forall j :: 0 <= j < |init| ==> init[j] == all[j];
      DepthOrderSpec(init);
    }
  }

  /** The nodes of one depth group that pass the filter, in store order. */
  function Group(all: seq<GNode>, d: int, pathIds: seq<Id>): (r: seq<GNode>)
  {
    if |all| == 0 then []
    else
      var last := all[|all| - 1];
      Group(all[..|all| - 1], d, pathIds)
        + (if last.info.depth == d && last.info.id !in pathIds && last.info.score > 0.5 then [last] else [])
  }

  /** The filtered groups of the depths `ds` not deeper than the node, one
      after the other. */
  function Grouped(all: seq<GNode>, ds: seq<int>, node: GNode, pathIds: seq<Id>): (r: seq<GNode>)
  {
    if |ds| == 0 then []
    else (if ds[0] <= node.info.depth then Group(all, ds[0], pathIds) else []) + Grouped(all, ds[1..], node, pathIds)
  }

  lemma {:induction false} GroupedSnoc(all: seq<GNode>, x: GNode, ds: seq<int>, node: GNode, pathIds: seq<Id>)
    requires Distinct(ds)
    ensures multiset(Grouped(all + [x], ds, node, pathIds))
         == multiset(Grouped(all, ds, node, pathIds))
            + (if x.info.depth in ds && IsAlternative(x, node, pathIds) then multiset{x} else multiset{})
  {
    if |ds| > 0 {
      var d := ds[0];
      assert (all + [x])[..|all|] == all;
      GroupedSnoc(all, x, ds[1..], node, pathIds);
      assert x.info.depth in ds <==> x.info.depth == d || x.info.depth in ds[1..];
      assert x.info.depth == d ==> x.info.depth !in ds[1..];
    }
  }

  /** Grouping by depth only reorders the alternatives: every alternative's
      path is gathered exactly as often as the node occurs in the store. */
  lemma {:induction false} GroupedIsPermutation(all: seq<GNode>, ds: seq<int>, node: GNode, pathIds: seq<Id>)
    requires Distinct(ds)
    requires forall j :: 0 <= j < |all| ==> all[j].info.depth in ds
    ensures multiset(Grouped(all, ds, node, pathIds)) == multiset(Alternatives(all, node, pathIds))
  {
    if |all| == 0 {
      GroupedEmpty(ds, node, pathIds);
    } else {
      var init := all[..|all| - 1];
      var x := all[|all| - 1];
      assert all == init + [x];
      assert forall j :: 0 <= j < |init| ==> init[j] == all[j];
      GroupedIsPermutation(init, ds, node, pathIds);
      GroupedSnoc(init, x, ds, node, pathIds);
    }
  }

  lemma {:induction false} GroupedEmpty(ds: seq<int>, node: GNode, pathIds: seq<Id>)
    ensures Grouped([], ds, node, pathIds) == []
  {
    if |ds| > 0 {
      GroupedEmpty(ds[1..], node, pathIds);
    }
  }

  /** The nodes whose paths getAlternativePaths collects, in the order it
      collects them. */
  function AlternativeSources(node: GNode, all: seq<GNode>, pathIds: seq<Id>): (r: seq<GNode>)
    ensures multiset(r) == multiset(Alternatives(all, node, pathIds))
  {
    DepthOrderSpec(all);
    GroupedIsPermutation(all, DepthOrder(all), node, pathIds);
    Grouped(all, DepthOrder(all), node, pathIds)
  }

  /** getAlternativePaths: the stored path of every alternative node. */
  function AlternativePaths(node: GNode, all: seq<GNode>, getPath: Id -> seq<GNode>): (r: seq<seq<GNode>>)
    ensures var sources := AlternativeSources(node, all, Ids(getPath(node.info.id)));
      && |r| == |sources|
      && forall i :: 0 <= i < |r| ==> r[i] == getPath(sources[i].info.id)
  {
    var sources := AlternativeSources(node, all, Ids(getPath(node.info.id)));
    seq(|sources|, i requires 0 <= i < |sources| => getPath(sources[i].info.id))
  }

  // ---------------------------------------------------------------- the prompt

  datatype PromptContext = PromptContext(
    currentPath: seq<string>,
    alternativePaths: seq<string>,
    bestOutcomes: seq<string>,
    failedAttempts: seq<string>,
    reasoning: seq<string>)

  datatype Reflection = Reflection(mistakes: seq<string>, improvements: seq<string>, confidence: Option<real>)

  datatype ReasoningPrompt = ReasoningPrompt(instruction: string, context: PromptContext, reflection: Reflection)

  /** generateReasoningPrompt of the trust-region variant; the alternative paths
      are flattened into one list of thoughts. */
  function GenerateReasoningPrompt(node: GNode, all: seq<GNode>, getPath: Id -> seq<GNode>): (r: ReasoningPrompt)
    ensures var path := getPath(node.info.id);
      && r.context.currentPath == Thoughts(path)
      && r.context.failedAttempts == r.reflection.mistakes
      && (forall k, i: nat :: MistakeMessage(k, i) in r.reflection.mistakes
            <==> 1 <= i < |path| && Detects(k, path[i - 1], path[i]))
      && |r.context.bestOutcomes| <= 3
  {
    var path := getPath(node.info.id);
    var mistakes := AnalyzeMistakes(path);
    forall k, i: nat
      ensures MistakeMessage(k, i) in mistakes <==> 1 <= i < |path| && Detects(k, path[i - 1], path[i])
    {
      MistakeReported(path, k, i);
    }
    var alternatives := AlternativePaths(node, all, getPath);
    ReasoningPrompt(
      ConstructPromptInstruction(node, mistakes),
      PromptContext(
        Thoughts(path),
        Thoughts(Flatten(alternatives)),
        BestOutcomes(node, all),
        mistakes,
        Flatten(seq(|path|, i requires 0 <= i < |path| => path[i].info.reflections))),
      Reflection(mistakes, SuggestImprovements(node), node.info.confidence))
  }
}
