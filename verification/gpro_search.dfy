/** The trust-region optimisation loop: trajectory simulation down the tree by
    best selection score, the value/probability update that leaves nodes outside
    the trust region's probabilities alone, the aggregate metrics, and the
    three-iteration loop with early stopping. The node store is the `Tree`
    table; a mutation of a node object is an update of the table at its id, and
    every `saveNode` call is recorded in a log of ids. */
module GproSearch {
  import opened Common
  import opened Nodes
  import opened GproScores

  // ---------------------------------------------------------------- selection

  /** `k` is the index `reduce` with a strict `>` settles on: a maximal score
      with no equal score before it. */
  predicate IsFirstBest(scores: seq<real>, k: int)
  {
    && 0 <= k < |scores|
    && (forall i :: 0 <= i < |scores| ==> scores[i] <= scores[k])
    && (forall i :: 0 <= i < k ==> scores[i] < scores[k])
  }

  /** At most one index is the first best one. */
  lemma FirstBestUnique(scores: seq<real>, k1: int, k2: int)
    requires IsFirstBest(scores, k1) && IsFirstBest(scores, k2)
    ensures k1 == k2
  {
    assert scores[k1] == scores[k2];
  }

  /** `xs.reduce((best, cur) => score(cur) > score(best) ? cur : best)`, as an
      index: a left fold that replaces the running best only on a strict win. */
  function BestIndex(scores: seq<real>): (k: nat)
    requires |scores| > 0
    ensures IsFirstBest(scores, k)
  {
    if |scores| == 1 then 0
    else
      var init := scores[..|scores| - 1];
      assert forall i :: 0 <= i < |init| ==> init[i] == scores[i];
      var k := BestIndex(init);
      if scores[|scores| - 1] > scores[k] then |scores| - 1 else k
  }

  /** The selection scores of a node's children, in `children` order. */
  function ChildScores(t: Tree, n: GNode): (r: seq<real>)
    requires forall c | c in n.info.children :: c in t
    ensures |r| == |n.info.children|
    ensures forall i :: 0 <= i < |r| ==> r[i] == NodeScore(t[n.info.children[i]])
  {
    seq(|n.info.children|, i requires 0 <= i < |n.info.children| => NodeScore(t[n.info.children[i]]))
  }

  /** selectNextNode: no node for a childless node, otherwise the first child
      of maximal selection score. */
  function SelectNextNode(t: Tree, n: GNode): (r: Option<Id>)
    requires forall c | c in n.info.children :: c in t
    ensures r.Some? ==> r.value in n.info.children
  {
    if |n.info.children| == 0 then None
    else Some(n.info.children[BestIndex(ChildScores(t, n))])
  }

  lemma SelectNextNodeSpec(t: Tree, n: GNode)
    requires forall c | c in n.info.children :: c in t
    ensures var r := SelectNextNode(t, n);
      && (r.None? <==> |n.info.children| == 0)
      && (r.Some? ==> exists k :: IsFirstBest(ChildScores(t, n), k) && n.info.children[k] == r.value)
      && (r.Some? ==> forall c | c in n.info.children :: NodeScore(t[c]) <= NodeScore(t[r.value]))
  {
    if |n.info.children| > 0 {
      var scores := ChildScores(t, n);
      var k := BestIndex(scores);
      assert forall c | c in n.info.children :: exists i :: 0 <= i < |scores| && n.info.children[i] == c;
    }
  }

  // ---------------------------------------------------------------- trajectories

  /** The walk may go from `a` to `b`: `a` is not complete and `b` is its
      first child of maximal selection score. */
  predicate ValidStep(t: Tree, a: Id, b: Id)
    requires a in t && ChildrenStored(t)
  {
    && !t[a].info.isComplete
    && exists k :: 0 <= k < |t[a].info.children| && IsFirstBest(ChildScores(t, t[a]), k) && t[a].info.children[k] == b
  }

  /** The walk halts at a node of a trajectory of length `len`. */
  predicate Halts(t: Tree, last: Id, len: int, maxDepth: int)
    requires last in t
  {
    t[last].info.isComplete || |t[last].info.children| == 0 || len >= maxDepth
  }

  /** The walk so far: starts at `start`, stays in the store, is no longer than
      `maxDepth` once it has left the start, and every move is a valid step. */
  predicate IsWalkPrefix(t: Tree, start: Id, maxDepth: int, r: seq<Id>)
    requires ChildrenStored(t)
  {
    && |r| >= 1 && r[0] == start
    && (forall i :: 0 <= i < |r| ==> r[i] in t)
    && (|r| == 1 || |r| <= maxDepth)
    && (forall i :: 0 <= i < |r| - 1 ==> ValidStep(t, r[i], r[i + 1]))
  }

  /** A complete simulated trajectory: a walk prefix that has halted. */
  predicate IsSimulation(t: Tree, start: Id, maxDepth: int, r: seq<Id>)
    requires ChildrenStored(t)
  {
    && IsWalkPrefix(t, start, maxDepth, r)
    && Halts(t, r[|r| - 1], |r|, maxDepth)
  }

  /** The walk continued from `traj` until it halts. */
  function Walk(t: Tree, traj: seq<Id>, maxDepth: int): (r: seq<Id>)
    requires ChildrenStored(t)
    requires |traj| >= 1 && forall i :: 0 <= i < |traj| ==> traj[i] in t
    ensures traj <= r
    ensures forall i :: 0 <= i < |r| ==> r[i] in t
    decreases maxDepth - |traj|
  {
    var current := t[traj[|traj| - 1]];
    if current.info.isComplete || |traj| >= maxDepth then traj
    else
      match SelectNextNode(t, current)
      case None => traj
      case Some(next) =>
        var traj' := traj + [next];
        assert forall i :: 0 <= i < |traj| ==> traj'[i] == traj[i];
        Walk(t, traj', maxDepth)
  }

  /** Continuing a walk prefix yields a complete simulated trajectory. */
  lemma {:induction false} WalkSimulates(t: Tree, traj: seq<Id>, maxDepth: int)
    requires ChildrenStored(t)
    requires |traj| >= 1 && IsWalkPrefix(t, traj[0], maxDepth, traj)
    ensures IsSimulation(t, traj[0], maxDepth, Walk(t, traj, maxDepth))
    decreases maxDepth - |traj|
  {
    var current := t[traj[|traj| - 1]];
    if !(current.info.isComplete || |traj| >= maxDepth) {
      match SelectNextNode(t, current)
      case None =>
      case Some(next) =>
        var traj' := traj + [next];
        SelectNextNodeSpec(t, current);
        assert ValidStep(t, traj[|traj| - 1], next);
        assert forall i :: 0 <= i < |traj| ==> traj'[i] == traj[i];
        WalkSimulates(t, traj', maxDepth);
    }
  }

  /** simulateTrajectory: from `start`, repeatedly move to the selected child
      while the current node is not complete and the trajectory is shorter than
      `maxDepth`. */
  function SimulateTrajectory(t: Tree, start: Id, maxDepth: int): (r: seq<Id>)
    requires ChildrenStored(t) && start in t
    ensures |r| >= 1 && r[0] == start
    ensures forall i :: 0 <= i < |r| ==> r[i] in t
  {
    Walk(t, [start], maxDepth)
  }

  /** The simulated trajectory is the walk `IsSimulation` describes. */
  lemma SimulateTrajectoryIsSimulation(t: Tree, start: Id, maxDepth: int)
    requires ChildrenStored(t) && start in t
    ensures IsSimulation(t, start, maxDepth, SimulateTrajectory(t, start, maxDepth))
  {
    WalkSimulates(t, [start], maxDepth);
  }

  /** The properties in `IsSimulation` single out one trajectory. */
  lemma {:induction false} SimulationUnique(t: Tree, start: Id, maxDepth: int, r1: seq<Id>, r2: seq<Id>)
    requires ChildrenStored(t)
    requires IsSimulation(t, start, maxDepth, r1) && IsSimulation(t, start, maxDepth, r2)
    requires |r1| <= |r2|
    ensures r1 == r2
  {
    forall i | 0 <= i < |r1|
      ensures r1[i] == r2[i]
    {
      SimulationAgree(t, start, maxDepth, r1, r2, i);
    }
    assert |r1| < |r2| ==> ValidStep(t, r2[|r1| - 1], r2[|r1|]);
  }

  lemma {:induction false} SimulationAgree(t: Tree, start: Id, maxDepth: int, r1: seq<Id>, r2: seq<Id>, i: nat)
    requires ChildrenStored(t)
    requires IsWalkPrefix(t, start, maxDepth, r1) && IsWalkPrefix(t, start, maxDepth, r2)
    requires i < |r1| && i < |r2|
    ensures r1[i] == r2[i]
  {
    if i > 0 {
      SimulationAgree(t, start, maxDepth, r1, r2, i - 1);
      var a := r1[i - 1];
      assert ValidStep(t, a, r1[i]) && ValidStep(t, a, r2[i]);
      var k1 :| IsFirstBest(ChildScores(t, t[a]), k1) && t[a].info.children[k1] == r1[i];
      var k2 :| IsFirstBest(ChildScores(t, t[a]), k2) && t[a].info.children[k2] == r2[i];
      FirstBestUnique(ChildScores(t, t[a]), k1, k2);
    }
  }

  lemma ChildScoresSameShape(t1: Tree, t2: Tree, a: Id)
    requires ChildrenStored(t1) && SameShape(t1, t2) && a in t1
    ensures ChildrenStored(t2)
    ensures ChildScores(t2, t2[a]) == ChildScores(t1, t1[a])
  {
    SameShapeKeepsChildren(t1, t2);
    var children := t1[a].info.children;
    assert t2[a].info.children == children;
    forall i | 0 <= i < |children|
      ensures NodeScore(t2[children[i]]) == NodeScore(t1[children[i]])
    {
      var c := children[i];
      assert t2[c].info == t1[c].info;
    }
  }

  lemma {:induction false} SimulationSameShape(t1: Tree, t2: Tree, start: Id, maxDepth: int, r: seq<Id>)
    requires ChildrenStored(t1) && SameShape(t1, t2)
    requires IsSimulation(t1, start, maxDepth, r)
    ensures ChildrenStored(t2)
    ensures IsSimulation(t2, start, maxDepth, r)
  {
    SameShapeKeepsChildren(t1, t2);
    forall i | 0 <= i < |r| - 1
      ensures ValidStep(t2, r[i], r[i + 1])
    {
      assert ValidStep(t1, r[i], r[i + 1]);
      ChildScoresSameShape(t1, t2, r[i]);
    }
    var last := r[|r| - 1];
    assert t2[last].info.children == t1[last].info.children && t2[last].info.isComplete == t1[last].info.isComplete;
  }

  /** Selection ignores the value estimates and the probabilities, so a store
      that differs only in those yields the same trajectory. */
  lemma SimulateSameShape(t1: Tree, t2: Tree, start: Id, maxDepth: int)
    requires ChildrenStored(t1) && start in t1 && SameShape(t1, t2)
    ensures ChildrenStored(t2) && start in t2
    ensures SimulateTrajectory(t2, start, maxDepth) == SimulateTrajectory(t1, start, maxDepth)
  {
    SameShapeKeepsChildren(t1, t2);
    var r1 := SimulateTrajectory(t1, start, maxDepth);
    var r2 := SimulateTrajectory(t2, start, maxDepth);
    SimulateTrajectoryIsSimulation(t1, start, maxDepth);
    SimulateTrajectoryIsSimulation(t2, start, maxDepth);
    SimulationSameShape(t1, t2, start, maxDepth, r1);
    if |r1| <= |r2| {
      SimulationUnique(t2, start, maxDepth, r1, r2);
    } else {
      SimulationUnique(t2, start, maxDepth, r2, r1);
    }
  }

  // ---------------------------------------------------------------- sampling

  /** `n` copies of `s`, one after the other. */
  function Repeat(s: seq<Id>, n: nat): (r: seq<Id>)
    ensures forall i :: 0 <= i < |r| ==> r[i] in s
  {
    if n == 0 then [] else Repeat(s, n - 1) + s
  }

  lemma {:induction false} RepeatCounts(s: seq<Id>, n: nat)
    ensures |Repeat(s, n)| == n * |s|
    ensures forall x :: multiset(Repeat(s, n))[x] == n * multiset(s)[x]
  {
    if n > 0 {
      var prev := Repeat(s, n - 1);
      RepeatCounts(s, n - 1);
      assert multiset(prev + s) == multiset(prev) + multiset(s);
      assert forall x :: n * multiset(s)[x] == (n - 1) * multiset(s)[x] + multiset(s)[x];
      assert n * |s| == (n - 1) * |s| + |s|;
    }
  }

  /** `Math.min(10, simulationCount)` iterations of a `for` loop: none when the
      count is not positive. */
  function NumSamples(simulationCount: int): (n: nat)
    ensures n <= 10
    ensures simulationCount >= 0 ==> n == Min(10.0, simulationCount as real) as int
    ensures n > 0 <==> simulationCount >= 1
  {
    if simulationCount <= 0 then 0 else if simulationCount < 10 then simulationCount else 10
  }

  /** sampleTrajectories: the simulated trajectory, once per sample, flattened.
      Nothing changes between the samples, so all of them are the same walk. */
  function SampleTrajectories(t: Tree, start: Id, maxDepth: int, simulationCount: int): (r: seq<Id>)
    requires ChildrenStored(t) && start in t
    ensures forall i :: 0 <= i < |r| ==> r[i] in t
  {
    var traj := SimulateTrajectory(t, start, maxDepth);
    Repeat(traj, NumSamples(simulationCount))
  }

  /** The samples hold each node of the simulated trajectory `min(10, count)`
      times and nothing else, so they are non-empty exactly when the count is
      positive. */
  lemma SampleTrajectoriesCounts(t: Tree, start: Id, maxDepth: int, simulationCount: int)
    requires ChildrenStored(t) && start in t
    ensures var traj := SimulateTrajectory(t, start, maxDepth);
      var r := SampleTrajectories(t, start, maxDepth, simulationCount);
      && |r| == NumSamples(simulationCount) * |traj|
      && (|r| > 0 <==> simulationCount >= 1)
      && forall x :: multiset(r)[x] == NumSamples(simulationCount) * multiset(traj)[x]
  {
    var traj := SimulateTrajectory(t, start, maxDepth);
    RepeatCounts(traj, NumSamples(simulationCount));
    var n := NumSamples(simulationCount);
    assert n > 0 ==> n * |traj| >= |traj|;
  }

  // ---------------------------------------------------------------- policy update

  /** What one pass adds to a node's value estimate: `lr * advantage`. */
  function Gain(n: GNode, lr: real): real
  {
    lr * n.info.advantageEstimate
  }

  /** What one pass multiplies a probability by: `1 + lr * advantage`. */
  function Factor(n: GNode, lr: real): real
  {
    1.0 + Gain(n, lr)
  }

  /** One pass of the update over a node: the value estimate grows by the
      gain; outside the trust region the probabilities are left alone, inside
      they are all multiplied by the factor. */
  function UpdateStep(n: GNode, lr: real): GNode
  {
    GNode(n.info, n.valueEstimate + Gain(n, lr), StepProbs(n, lr))
  }

  function StepProbs(n: GNode, lr: real): Probs
  {
    if IsViolation(n.info.klDiv) then n.priorActionProbs
    else ScaleProbs(n.priorActionProbs, Factor(n, lr))
  }

  function Pow(x: real, c: nat): real
  {
    if c == 0 then 1.0 else Pow(x, c - 1) * x
  }

  lemma {:induction false} PowAdd(x: real, a: nat, b: nat)
    ensures Pow(x, a + b) == Pow(x, a) * Pow(x, b)
    decreases b
  {
    if b > 0 {
      PowAdd(x, a, b - 1);
      assert Pow(x, a + b) == Pow(x, a + (b - 1)) * x;
      assert (Pow(x, a) * Pow(x, b - 1)) * x == Pow(x, a) * (Pow(x, b - 1) * x);
    }
  }

  lemma ScalePowAdd(p: Probs, f: real, a: nat, b: nat)
    ensures ScaleProbs(ScaleProbs(p, Pow(f, a)), Pow(f, b)) == ScaleProbs(p, Pow(f, a + b))
  {
    var x, y, z := Pow(f, a), Pow(f, b), Pow(f, a + b);
    assert z == x * y by {
      PowAdd(f, a, b);
    }
    ScaleProbsTwice(p, x, y, z);
  }

  /** The value estimate after `c` passes of the update. */
  function VisitedValue(n: GNode, c: nat, lr: real): real
  {
    n.valueEstimate + (c as real) * Gain(n, lr)
  }

  /** The probabilities after `c` passes: untouched outside the trust region,
      otherwise multiplied by the `c`-th power of the per-pass factor. */
  function VisitedProbs(n: GNode, c: nat, lr: real): Probs
  {
    if IsViolation(n.info.klDiv) then n.priorActionProbs
    else ScaleProbs(n.priorActionProbs, Pow(Factor(n, lr), c))
  }

  /** A node after `c` passes of the update, in closed form. */
  function Visited(n: GNode, c: nat, lr: real): GNode
  {
    GNode(n.info, VisitedValue(n, c, lr), VisitedProbs(n, c, lr))
  }

  lemma VisitedZero(n: GNode, lr: real)
    ensures Visited(n, 0, lr) == n
  {
    ScaleProbsOne(n.priorActionProbs);
  }

  lemma VisitedAdd(n: GNode, a: nat, b: nat, lr: real)
    ensures Visited(Visited(n, a, lr), b, lr) == Visited(n, a + b, lr)
  {
    var m := Visited(n, a, lr);
    var g := Gain(n, lr);
    assert Gain(m, lr) == g && Factor(m, lr) == Factor(n, lr) && m.info.klDiv == n.info.klDiv;
    assert ((a + b) as real) * g == (a as real) * g + (b as real) * g;
    ScalePowAdd(n.priorActionProbs, Factor(n, lr), a, b);
  }

  lemma VisitedOnce(n: GNode, c: nat, lr: real)
    ensures UpdateStep(Visited(n, c, lr), lr) == Visited(n, c + 1, lr)
  {
    var m := Visited(n, c, lr);
    assert Gain(m, lr) == Gain(n, lr) && Factor(m, lr) == Factor(n, lr) && m.info.klDiv == n.info.klDiv;
    assert Pow(Factor(n, lr), 1) == Factor(n, lr);
    assert UpdateStep(m, lr) == Visited(m, 1, lr);
    VisitedAdd(n, c, 1, lr);
  }

  /** The store after one `UpdateStep` on the node stored under `id`. */
  function UpdateAt(t: Tree, id: Id, lr: real): (r: Tree)
    requires id in t
    ensures r.Keys == t.Keys
    ensures r[id] == UpdateStep(t[id], lr)
    ensures forall x | x in t && x != id :: r[x] == t[x]
  {
    t[id := UpdateStep(t[id], lr)]
  }

  /** The store after updateGPROPolicy: the flattened trajectories visited in
      order, each visit one `UpdateStep` on the stored node. */
  function UpdatePolicy(t: Tree, traj: seq<Id>, lr: real): (r: Tree)
    requires forall i :: 0 <= i < |traj| ==> traj[i] in t
    ensures r.Keys == t.Keys
  {
    if |traj| == 0 then t
    else
      var init := traj[..|traj| - 1];
      assert forall i :: 0 <= i < |init| ==> init[i] == traj[i];
      UpdateAt(UpdatePolicy(t, init, lr), traj[|traj| - 1], lr)
  }

  /** The update writes only value estimates and probabilities. */
  lemma {:induction false} UpdatePolicySameShape(t: Tree, traj: seq<Id>, lr: real)
    requires forall i :: 0 <= i < |traj| ==> traj[i] in t
    ensures SameShape(t, UpdatePolicy(t, traj, lr))
  {
    if |traj| > 0 {
      var init := traj[..|traj| - 1];
      var last := traj[|traj| - 1];
      assert forall i :: 0 <= i < |init| ==> init[i] == traj[i];
      UpdatePolicySameShape(t, init, lr);
      var prev := UpdatePolicy(t, init, lr);
      var n := prev[last];
      SameShapeSet(prev, last, n.valueEstimate + Gain(n, lr), StepProbs(n, lr));
      SameShapeTransitive(t, prev, UpdatePolicy(t, traj, lr));
    }
  }

  /** The `saveNode` calls of updateGPROPolicy, in order: one per visit to a
      node inside the trust region. The loop tests `kl_div`, which no update
      writes, so the test against the original store is the test it makes. */
  function Saved(t: Tree, traj: seq<Id>): (r: seq<Id>)
    requires forall i :: 0 <= i < |traj| ==> traj[i] in t
  {
    if |traj| == 0 then []
    else
      var init := traj[..|traj| - 1];
      var id := traj[|traj| - 1];
      assert forall i :: 0 <= i < |init| ==> init[i] == traj[i];
      Saved(t, init) + if IsViolation(t[id].info.klDiv) then [] else [id]
  }

  /** The flag updateGPROPolicy returns: some visited node lies outside the
      trust region. */
  predicate Violates(t: Tree, traj: seq<Id>)
    requires forall i :: 0 <= i < |traj| ==> traj[i] in t
  {
    exists i :: 0 <= i < |traj| && IsViolation(t[traj[i]].info.klDiv)
  }

  /** The log holds every visit to a node inside the trust region, and no visit
      to one outside it; it is the whole trajectory list exactly when the flag
      is down. */
  lemma SavedCounts(t: Tree, traj: seq<Id>)
    requires forall i :: 0 <= i < |traj| ==> traj[i] in t
    ensures forall x | x in t ::
      multiset(Saved(t, traj))[x] == if IsViolation(t[x].info.klDiv) then 0 else multiset(traj)[x]
    ensures forall x | x in Saved(t, traj) :: x in traj
    ensures Saved(t, traj) == traj <==> !Violates(t, traj)
  {
    SavedMultiplicities(t, traj);
    SavedWhole(t, traj);
  }

  /** The multiplicity half of SavedCounts, by induction on the trajectories. */
  lemma {:induction false} SavedMultiplicities(t: Tree, traj: seq<Id>)
    requires forall i :: 0 <= i < |traj| ==> traj[i] in t
    ensures forall x | x in t ::
      multiset(Saved(t, traj))[x] == if IsViolation(t[x].info.klDiv) then 0 else multiset(traj)[x]
    ensures forall x | x in Saved(t, traj) :: x in traj
  {
    if |traj| > 0 {
      var init := traj[..|traj| - 1];
      var last := traj[|traj| - 1];
      assert traj == init + [last];
      assert forall i :: 0 <= i < |init| ==> init[i] == traj[i];
      SavedMultiplicities(t, init);
      SavedSnoc(t, init, last);
    }
  }

  /** The flag half of SavedCounts: nothing is dropped iff nothing violates. */
  lemma {:induction false} SavedWhole(t: Tree, traj: seq<Id>)
    requires forall i :: 0 <= i < |traj| ==> traj[i] in t
    ensures Saved(t, traj) == traj <==> !Violates(t, traj)
  {
    if |traj| > 0 {
      var init := traj[..|traj| - 1];
      var last := traj[|traj| - 1];
      assert traj == init + [last];
      assert forall i :: 0 <= i < |init| ==> init[i] == traj[i];
      SavedWhole(t, init);
      SavedShorter(t, init);
      SavedSnoc(t, init, last);
      ViolatesSnoc(t, init, last);
    }
  }

  /** One more visit is logged unless its node violates. */
  lemma SavedSnoc(t: Tree, init: seq<Id>, last: Id)
    requires last in t && forall i :: 0 <= i < |init| ==> init[i] in t
    ensures Saved(t, init + [last]) == Saved(t, init) + if IsViolation(t[last].info.klDiv) then [] else [last]
  {
    assert (init + [last])[..|init|] == init;
  }

  /** One more visit raises the flag iff its node violates. */
  lemma ViolatesSnoc(t: Tree, init: seq<Id>, last: Id)
    requires last in t && forall i :: 0 <= i < |init| ==> init[i] in t
    ensures Violates(t, init + [last]) <==> Violates(t, init) || IsViolation(t[last].info.klDiv)
  {
    var traj := init + [last];
    if Violates(t, traj) && !IsViolation(t[last].info.klDiv) {
      var i :| 0 <= i < |traj| && IsViolation(t[traj[i]].info.klDiv);
      assert traj[i] == init[i];
    }
    if Violates(t, init) {
      var i :| 0 <= i < |init| && IsViolation(t[init[i]].info.klDiv);
      assert traj[i] == init[i];
    }
    if IsViolation(t[last].info.klDiv) {
      assert traj[|init|] == last;
    }
  }

  lemma {:induction false} SavedShorter(t: Tree, traj: seq<Id>)
    requires forall i :: 0 <= i < |traj| ==> traj[i] in t
    ensures |Saved(t, traj)| <= |traj|
  {
    if |traj| > 0 {
      var init := traj[..|traj| - 1];
      assert forall i :: 0 <= i < |init| ==> init[i] == traj[i];
      SavedShorter(t, init);
    }
  }

  /** Each node ends up updated once per occurrence in the trajectories. */
  lemma {:induction false} UpdatePolicyEffect(t: Tree, traj: seq<Id>, lr: real)
    requires forall i :: 0 <= i < |traj| ==> traj[i] in t
    ensures forall id | id in t :: UpdatePolicy(t, traj, lr)[id] == Visited(t[id], multiset(traj)[id], lr)
  {
    if |traj| == 0 {
      forall id | id in t
        ensures t[id] == Visited(t[id], 0, lr)
      {
        VisitedZero(t[id], lr);
      }
    } else {
      var init := traj[..|traj| - 1];
      var last := traj[|traj| - 1];
      assert traj == init + [last];
      assert forall i :: 0 <= i < |init| ==> init[i] == traj[i];
      UpdatePolicyEffect(t, init, lr);
      var prev := UpdatePolicy(t, init, lr);
      var r := UpdatePolicy(t, traj, lr);
      assert r == UpdateAt(prev, last, lr);
      forall id | id in t
        ensures r[id] == Visited(t[id], multiset(traj)[id], lr)
      {
        if id == last {
          assert multiset(traj)[id] == multiset(init)[id] + 1;
          VisitedOnce(t[id], multiset(init)[id], lr);
        } else {
          assert multiset(traj)[id] == multiset(init)[id];
        }
      }
    }
  }

  /** The log and the flag read only the trust-region test, which the update
      leaves alone. */
  lemma SavedSameShape(t1: Tree, t2: Tree, traj: seq<Id>)
    requires SameShape(t1, t2)
    requires forall i :: 0 <= i < |traj| ==> traj[i] in t1
    ensures forall i :: 0 <= i < |traj| ==> traj[i] in t2
    ensures Saved(t2, traj) == Saved(t1, traj)
    ensures Violates(t2, traj) == Violates(t1, traj)
  {
    assert forall i :: 0 <= i < |traj| ==> t2[traj[i]].info == t1[traj[i]].info;
    SavedSameShapeInduct(t1, t2, traj);
  }

  lemma {:induction false} SavedSameShapeInduct(t1: Tree, t2: Tree, traj: seq<Id>)
    requires t1.Keys == t2.Keys
    requires forall i :: 0 <= i < |traj| ==> traj[i] in t1 && t2[traj[i]].info == t1[traj[i]].info
    ensures Saved(t2, traj) == Saved(t1, traj)
  {
    if |traj| > 0 {
      var init := traj[..|traj| - 1];
      assert forall i :: 0 <= i < |init| ==> init[i] == traj[i];
      SavedSameShapeInduct(t1, t2, init);
    }
  }

  // ---------------------------------------------------------------- metrics

  /** `node.importanceSamplingRatio || 1`: an absent ratio and a ratio of 0 both
      count as 1. */
  function RatioOrOne(n: GNode): (r: real)
    ensures n.info.importanceSamplingRatio.None? ==> r == 1.0
    ensures n.info.importanceSamplingRatio == Some(0.0) ==> r == 1.0
    ensures n.info.importanceSamplingRatio.Some? && n.info.importanceSamplingRatio.value != 0.0 ==>
      r == n.info.importanceSamplingRatio.value
  {
    match n.info.importanceSamplingRatio
    case Some(v) => if v != 0.0 then v else 1.0
    case None => 1.0
  }

  function Advantages(t: Tree, traj: seq<Id>): (r: seq<real>)
    requires forall i :: 0 <= i < |traj| ==> traj[i] in t
    ensures |r| == |traj|
    ensures forall i :: 0 <= i < |traj| ==> r[i] == t[traj[i]].info.advantageEstimate
  {
    seq(|traj|, i requires 0 <= i < |traj| => t[traj[i]].info.advantageEstimate)
  }

  function Ratios(t: Tree, traj: seq<Id>): (r: seq<real>)
    requires forall i :: 0 <= i < |traj| ==> traj[i] in t
    ensures |r| == |traj|
    ensures forall i :: 0 <= i < |traj| ==> r[i] == RatioOrOne(t[traj[i]])
  {
    seq(|traj|, i requires 0 <= i < |traj| => RatioOrOne(t[traj[i]]))
  }

  /** updateGPROMetrics: mean, mean square (the square of "std"), minimum and
      maximum of the visited nodes' advantages, and mean, minimum and maximum
      of their importance ratios. An empty list divides 0 by 0 and takes the
      extremes of nothing, which yields non-finite numbers. */
  function UpdateMetrics(t: Tree, traj: seq<Id>, m: GproMetrics): (r: GproMetrics)
    requires forall i :: 0 <= i < |traj| ==> traj[i] in t
    ensures r.trustRegionViolations == m.trustRegionViolations
    ensures r.advantageStats.AdvantageNonFinite? <==> |traj| == 0
    ensures r.samplingStats.SamplingNonFinite? <==> |traj| == 0
  {
    if |traj| == 0 then m.(advantageStats := AdvantageNonFinite, samplingStats := SamplingNonFinite)
    else
      var advantages := Advantages(t, traj);
      var ratios := Ratios(t, traj);
      var n := |traj| as real;
      m.(advantageStats := AdvantageStats(Mean(advantages), SumOfSquares(advantages) / n,
                                          SeqMin(advantages), SeqMax(advantages)),
         samplingStats := SamplingStats(Mean(ratios), SeqMin(ratios), SeqMax(ratios)))
  }

  /** For a non-empty list the statistics are finite and ordered: each minimum
      and maximum is attained by a visited node and bounds all of them, and
      each mean lies between them. */
  lemma UpdateMetricsBounds(t: Tree, traj: seq<Id>, m: GproMetrics)
    requires forall i :: 0 <= i < |traj| ==> traj[i] in t
    ensures var r := UpdateMetrics(t, traj, m);
      r.advantageStats.AdvantageStats? ==>
      var a := r.advantageStats;
      && a.min <= a.mean <= a.max
      && a.meanSquare >= 0.0
      && (forall i :: 0 <= i < |traj| ==> a.min <= t[traj[i]].info.advantageEstimate <= a.max)
      && (exists i :: 0 <= i < |traj| && t[traj[i]].info.advantageEstimate == a.min)
      && (exists i :: 0 <= i < |traj| && t[traj[i]].info.advantageEstimate == a.max)
    ensures var r := UpdateMetrics(t, traj, m);
      r.samplingStats.SamplingStats? ==>
      var q := r.samplingStats;
      && q.minRatio <= q.meanRatio <= q.maxRatio
      && (forall i :: 0 <= i < |traj| ==> q.minRatio <= RatioOrOne(t[traj[i]]) <= q.maxRatio)
      && (exists i :: 0 <= i < |traj| && RatioOrOne(t[traj[i]]) == q.minRatio)
      && (exists i :: 0 <= i < |traj| && RatioOrOne(t[traj[i]]) == q.maxRatio)
  {
    if |traj| > 0 {
      QuotientNonNegative(SumOfSquares(Advantages(t, traj)), |traj| as real);
      SeqMinAttained(Advantages(t, traj));
      SeqMaxAttained(Advantages(t, traj));
      SeqMinAttained(Ratios(t, traj));
      SeqMaxAttained(Ratios(t, traj));
    }
  }

  /** The metrics read only fields the update leaves alone, so computing them
      after the update (as the source does) or before it gives the same. */
  lemma UpdateMetricsSameShape(t1: Tree, t2: Tree, traj: seq<Id>, m: GproMetrics)
    requires SameShape(t1, t2)
    requires forall i :: 0 <= i < |traj| ==> traj[i] in t1
    ensures forall i :: 0 <= i < |traj| ==> traj[i] in t2
    ensures UpdateMetrics(t2, traj, m) == UpdateMetrics(t1, traj, m)
  {
    assert Advantages(t2, traj) == Advantages(t1, traj);
    forall i | 0 <= i < |traj|
      ensures RatioOrOne(t2[traj[i]]) == RatioOrOne(t1[traj[i]])
    {
      assert t2[traj[i]].info.importanceSamplingRatio == t1[traj[i]].info.importanceSamplingRatio;
    }
    assert Ratios(t2, traj) == Ratios(t1, traj);
  }

  // ---------------------------------------------------------------- optimisation loop

  /** The metrics depend on the previous metrics only through the violation
      counter, which they keep. */
  lemma UpdateMetricsCounter(t: Tree, traj: seq<Id>, m1: GproMetrics, m2: GproMetrics)
    requires forall i :: 0 <= i < |traj| ==> traj[i] in t
    ensures UpdateMetrics(t, traj, m1)
         == UpdateMetrics(t, traj, m2).(trustRegionViolations := m1.trustRegionViolations)
  {
  }

  /** The store after `n` passes of the update along the same trajectories. */
  function Passes(t: Tree, traj: seq<Id>, n: nat, lr: real): (r: Tree)
    requires forall i :: 0 <= i < |traj| ==> traj[i] in t
    ensures r.Keys == t.Keys
  {
    if n == 0 then t else UpdatePolicy(Passes(t, traj, n - 1, lr), traj, lr)
  }

  lemma {:induction false} PassesSameShape(t: Tree, traj: seq<Id>, n: nat, lr: real)
    requires forall i :: 0 <= i < |traj| ==> traj[i] in t
    ensures SameShape(t, Passes(t, traj, n, lr))
  {
    if n > 0 {
      var prev := Passes(t, traj, n - 1, lr);
      assert SameShape(t, prev) by {
        PassesSameShape(t, traj, n - 1, lr);
      }
      assert SameShape(prev, Passes(t, traj, n, lr)) by {
        assert forall i :: 0 <= i < |traj| ==> traj[i] in prev;
        UpdatePolicySameShape(prev, traj, lr);
      }
      SameShapeTransitive(t, prev, Passes(t, traj, n, lr));
    }
  }

  /** `n` times `k`, as repeated addition: the visits `n` passes make to a node
      that occurs `k` times in the trajectories. */
  function Times(n: nat, k: nat): nat
  {
    if n == 0 then 0 else Times(n - 1, k) + k
  }

  lemma {:induction false} TimesProduct(n: nat, k: nat)
    ensures Times(n, k) == n * k
  {
    if n > 0 {
      TimesProduct(n - 1, k);
      assert n * k == (n - 1) * k + k;
    }
  }

  /** After `n` passes each node has been updated once per occurrence in the
      trajectories, `n` times over. */
  predicate PassesClosedForm(t: Tree, traj: seq<Id>, n: nat, lr: real)
    requires forall i :: 0 <= i < |traj| ==> traj[i] in t
  {
    forall id | id in t :: Passes(t, traj, n, lr)[id] == Visited(t[id], Times(n, multiset(traj)[id]), lr)
  }

  lemma {:induction false} PassesEffect(t: Tree, traj: seq<Id>, n: nat, lr: real)
    requires forall i :: 0 <= i < |traj| ==> traj[i] in t
    ensures PassesClosedForm(t, traj, n, lr)
  {
    if n == 0 {
      forall id | id in t
        ensures t[id] == Visited(t[id], 0, lr)
      {
        VisitedZero(t[id], lr);
      }
    } else {
      PassesEffect(t, traj, n - 1, lr);
      PassesEffectStep(t, traj, n, lr);
    }
  }

  lemma PassesEffectStep(t: Tree, traj: seq<Id>, n: nat, lr: real)
    requires forall i :: 0 <= i < |traj| ==> traj[i] in t
    requires n > 0
    requires PassesClosedForm(t, traj, n - 1, lr)
    ensures PassesClosedForm(t, traj, n, lr)
  {
    var prev := Passes(t, traj, n - 1, lr);
    var next := Passes(t, traj, n, lr);
    assert next == UpdatePolicy(prev, traj, lr);
    UpdatePolicyEffect(prev, traj, lr);
    forall id | id in t
      ensures next[id] == Visited(t[id], Times(n, multiset(traj)[id]), lr)
    {
      VisitedAdd(t[id], Times(n - 1, multiset(traj)[id]), multiset(traj)[id], lr);
    }
  }

  /** One pass of the `for` loop of runGPROOptimization, on the original store
      `t` after `n` earlier passes: sample from `start`, update the policy along
      the samples, record the metrics, count a violation. */
  method OptimizationRound(t: Tree, start: Id, maxDepth: int, simulationCount: int, lr: real,
                           ghost traj: seq<Id>, ghost n: nat, store: Tree, m: GproMetrics)
    returns (next: Tree, metrics: GproMetrics, saved: seq<Id>, violated: bool)
    requires ChildrenStored(t) && start in t
    requires traj == SampleTrajectories(t, start, maxDepth, simulationCount)
    requires store == Passes(t, traj, n, lr)
    ensures next == Passes(t, traj, n + 1, lr)
    ensures saved == Saved(t, traj)
    ensures violated == Violates(t, traj)
    ensures metrics == UpdateMetrics(t, traj, m).(trustRegionViolations :=
      m.trustRegionViolations + if violated then 1 else 0)
  {
    PassesSameShape(t, traj, n, lr);
    PassesSameShape(t, traj, n + 1, lr);
    SimulateSameShape(t, store, start, maxDepth);
    var trajectories := SampleTrajectories(store, start, maxDepth, simulationCount);
    next := UpdatePolicy(store, trajectories, lr);
    saved := Saved(store, trajectories);
    violated := Violates(store, trajectories);
    SavedSameShape(t, store, traj);
    metrics := UpdateMetrics(next, trajectories, m);
    UpdateMetricsSameShape(t, next, traj, m);
    if violated {
      metrics := metrics.(trustRegionViolations := metrics.trustRegionViolations + 1);
    }
  }

  /** runGPROOptimization on the node stored under `start`: up to three passes
      of sampling and updating, leaving early once two passes have reported a
      violation. Every pass walks the same trajectories, because the update
      writes nothing selection reads, so either every pass violates and the
      loop stops after two, or none does and it runs all three. `saved` is the
      log of saveNode calls, `flags` the flag each pass returned. */
  method RunOptimization(t: Tree, start: Id, maxDepth: int, simulationCount: int, lr: real, m: GproMetrics)
    returns (tree: Tree, metrics: GproMetrics, saved: seq<Id>, flags: seq<bool>)
    requires ChildrenStored(t) && start in t
    ensures var traj := SampleTrajectories(t, start, maxDepth, simulationCount);
      && (flags == if Violates(t, traj) then [true, true] else [false, false, false])
      && tree == Passes(t, traj, |flags|, lr)
      && saved == Repeat(Saved(t, traj), |flags|)
      && metrics == UpdateMetrics(t, traj, m).(trustRegionViolations :=
           m.trustRegionViolations + if Violates(t, traj) then 2 else 0)
  {
    ghost var traj := SampleTrajectories(t, start, maxDepth, simulationCount);
    ghost var v := Violates(t, traj);
    tree, metrics, saved, flags := t, m, [], [];
    var violationCount := 0;
    var i := 0;
    while i < 3
      invariant 0 <= i <= 3 && violationCount < 2
      invariant RoundsDone(t, traj, lr, m, v, i, tree, metrics, saved, flags, violationCount)
    {
      ghost var (tree0, metrics0, saved0, flags0, count0) := (tree, metrics, saved, flags, violationCount);
      var passSaved, violated;
      tree, metrics, passSaved, violated :=
        OptimizationRound(t, start, maxDepth, simulationCount, lr, traj, i, tree, metrics);
      saved := saved + passSaved;
      flags := flags + [violated];
      if violated {
        violationCount := violationCount + 1;
      }
      RoundStep(t, traj, lr, m, v, i, tree0, metrics0, saved0, flags0, count0,
                tree, metrics, passSaved, violated, saved, flags, violationCount);
      i := i + 1;
      if violationCount >= 2 {
        break;
      }
    }
    RoundsExit(t, traj, lr, m, v, i, tree, metrics, saved, flags, violationCount);
  }

  /** `n` rounds that all report the flag `v`. */
  function Flags(v: bool, n: nat): (r: seq<bool>)
    ensures |r| == n
    ensures forall k :: 0 <= k < n ==> r[k] == v
  {
    if n == 0 then [] else Flags(v, n - 1) + [v]
  }

  /** The loop state after `i` rounds along the same trajectories `traj`, each
      reporting `v`: `count` violations so far, the store after `i` passes, `i`
      copies of the log, and the statistics of the last round. */
  ghost predicate RoundsDone(t: Tree, traj: seq<Id>, lr: real, m: GproMetrics, v: bool, i: nat,
                             tree: Tree, metrics: GproMetrics, saved: seq<Id>, flags: seq<bool>, count: int)
    requires forall k :: 0 <= k < |traj| ==> traj[k] in t
  {
    && flags == Flags(v, i)
    && count == (if v then i else 0)
    && tree == Passes(t, traj, i, lr)
    && saved == Repeat(Saved(t, traj), i)
    && metrics == if i == 0 then m
                  else UpdateMetrics(t, traj, m).(trustRegionViolations := m.trustRegionViolations + count)
  }

  lemma RoundStep(t: Tree, traj: seq<Id>, lr: real, m: GproMetrics, v: bool, i: nat,
                  tree0: Tree, metrics0: GproMetrics, saved0: seq<Id>, flags0: seq<bool>, count0: int,
                  tree: Tree, metrics: GproMetrics, passSaved: seq<Id>, violated: bool,
                  saved: seq<Id>, flags: seq<bool>, count: int)
    requires forall k :: 0 <= k < |traj| ==> traj[k] in t
    requires RoundsDone(t, traj, lr, m, v, i, tree0, metrics0, saved0, flags0, count0)
    requires v == Violates(t, traj) && violated == v
    requires tree == Passes(t, traj, i + 1, lr) && passSaved == Saved(t, traj)
    requires metrics == UpdateMetrics(t, traj, metrics0).(trustRegionViolations :=
      metrics0.trustRegionViolations + if violated then 1 else 0)
    requires saved == saved0 + passSaved && flags == flags0 + [violated]
    requires count == count0 + if violated then 1 else 0
    ensures RoundsDone(t, traj, lr, m, v, i + 1, tree, metrics, saved, flags, count)
  {
    UpdateMetricsCounter(t, traj, metrics0, m);
  }

  lemma RoundsExit(t: Tree, traj: seq<Id>, lr: real, m: GproMetrics, v: bool, i: nat,
                   tree: Tree, metrics: GproMetrics, saved: seq<Id>, flags: seq<bool>, count: int)
    requires forall k :: 0 <= k < |traj| ==> traj[k] in t
    requires RoundsDone(t, traj, lr, m, v, i, tree, metrics, saved, flags, count)
    requires v == Violates(t, traj) && i <= 3 && count <= 2 && (i == 3 || count == 2)
    ensures flags == if v then [true, true] else [false, false, false]
    ensures tree == Passes(t, traj, |flags|, lr) && saved == Repeat(Saved(t, traj), |flags|)
    ensures metrics == UpdateMetrics(t, traj, m).(trustRegionViolations :=
      m.trustRegionViolations + if v then 2 else 0)
  {
  }

}
