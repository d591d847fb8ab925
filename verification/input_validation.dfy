/** processInput of the MCP server's entry point: the tool call's arguments
    get their defaults (an absent or falsy field takes the fallback of the
    `||` it is read through), then five range checks run in a fixed order and
    the first one that fails decides the error. */
module InputValidation {
  import opened Common
  import opened Nodes

  /** The tool call's arguments as they arrive. A field the caller did not send
      is None. Numbers are integers, as the tool's input schema declares them. */
  datatype RawInput = RawInput(
    thought: Option<string>,
    thoughtNumber: Option<int>,
    totalThoughts: Option<int>,
    nextThoughtNeeded: Option<bool>,
    strategyType: Option<string>,
    beamWidth: Option<int>,
    numSimulations: Option<int>)

  /** The object processInput builds and returns. */
  datatype Step = Step(
    thought: string,
    thoughtNumber: int,
    totalThoughts: int,
    nextThoughtNeeded: bool,
    strategyType: Option<string>,
    beamWidth: int,
    numSimulations: int)

  const ThoughtMissing: string := "thought must be provided"
  const ThoughtNumberTooSmall: string := "thoughtNumber must be >= 1"
  const TotalThoughtsTooSmall: string := "totalThoughts must be >= 1"
  const BeamWidthOutOfRange: string := "beamWidth must be between 1 and 10"
  const NumSimulationsOutOfRange: string := "numSimulations must be between 1 and 150"

  const DefaultBeamWidth: int := 3
  const DefaultNumSimulations: int := 50

  /** `Number(x || d)` for an integer field: absent and 0 are both falsy and
      give the fallback. */
  function OrNumber(x: Option<int>, d: int): int
  {
    if x.None? || x.value == 0 then d else x.value
  }

  /** `String(x || "")`: the empty string stands in for an absent thought. */
  function OrEmpty(x: Option<string>): string
  {
    if x.Some? then x.value else ""
  }

  /** The defaults step of processInput. */
  function Normalize(input: RawInput): (r: Step)
    ensures r.thought == "" <==> input.thought.None? || input.thought == Some("")
    ensures input.thought.Some? ==> r.thought == input.thought.value
    ensures input.thoughtNumber.Some? ==> r.thoughtNumber == input.thoughtNumber.value
    ensures input.thoughtNumber.None? ==> r.thoughtNumber == 0
    ensures input.totalThoughts.Some? ==> r.totalThoughts == input.totalThoughts.value
    ensures input.totalThoughts.None? ==> r.totalThoughts == 0
    ensures r.nextThoughtNeeded <==> input.nextThoughtNeeded == Some(true)
    ensures r.strategyType == input.strategyType
    ensures r.beamWidth == (if input.beamWidth.None? || input.beamWidth == Some(0) then DefaultBeamWidth else input.beamWidth.value)
    ensures r.numSimulations
         == (if input.numSimulations.None? || input.numSimulations == Some(0) then DefaultNumSimulations else input.numSimulations.value)
  {
    Step(
      OrEmpty(input.thought),
      OrNumber(input.thoughtNumber, 0),
      OrNumber(input.totalThoughts, 0),
      input.nextThoughtNeeded == Some(true),
      input.strategyType,
      OrNumber(input.beamWidth, DefaultBeamWidth),
      OrNumber(input.numSimulations, DefaultNumSimulations))
  }

  /** The five constraints an accepted step satisfies. */
  predicate Valid(s: Step)
  {
    && s.thought != ""
    && s.thoughtNumber >= 1
    && s.totalThoughts >= 1
    && 1 <= s.beamWidth <= 10
    && 1 <= s.numSimulations <= 150
  }

  /** Every check the step fails, in the order the checks run. */
  function Failures(s: Step): (r: seq<string>)
    ensures |r| <= 5
  {
    (if s.thought == "" then [ThoughtMissing] else [])
    + (if s.thoughtNumber < 1 then [ThoughtNumberTooSmall] else [])
    + (if s.totalThoughts < 1 then [TotalThoughtsTooSmall] else [])
    + (if s.beamWidth < 1 || s.beamWidth > 10 then [BeamWidthOutOfRange] else [])
    + (if s.numSimulations < 1 || s.numSimulations > 150 then [NumSimulationsOutOfRange] else [])
  }

  /** A step fails no check exactly when it satisfies all five constraints. */
  lemma FailuresEmpty(s: Step)
    ensures Failures(s) == [] <==> Valid(s)
  {
  }

  /** processInput: the defaulted step if every check passes, otherwise the
      message of the first check that fails. */
  function ProcessInput(input: RawInput): (r: Result<Step, string>)
    ensures r.Ok? <==> Valid(Normalize(input))
    ensures r.Ok? ==> r.value == Normalize(input)
    ensures r.Err? ==> |Failures(Normalize(input))| > 0 && r.error == Failures(Normalize(input))[0]
  {
    var s := Normalize(input);
    if s.thought == "" then Err(ThoughtMissing)
    else if s.thoughtNumber < 1 then Err(ThoughtNumberTooSmall)
    else if s.totalThoughts < 1 then Err(TotalThoughtsTooSmall)
    else if s.beamWidth < 1 || s.beamWidth > 10 then Err(BeamWidthOutOfRange)
    else if s.numSimulations < 1 || s.numSimulations > 150 then Err(NumSimulationsOutOfRange)
    else Ok(s)
  }

  /** Which raw inputs are accepted, stated on the arguments themselves: a
      non-empty thought, both counters present and at least 1, and a beam
      width and simulation count that are absent, 0, or in range. */
  lemma {:induction false} AcceptedInputs(input: RawInput)
    ensures ProcessInput(input).Ok? <==>
      && input.thought.Some? && input.thought.value != ""
      && input.thoughtNumber.Some? && input.thoughtNumber.value >= 1
      && input.totalThoughts.Some? && input.totalThoughts.value >= 1
      && (input.beamWidth.None? || input.beamWidth.value == 0 || 1 <= input.beamWidth.value <= 10)
      && (input.numSimulations.None? || input.numSimulations.value == 0 || 1 <= input.numSimulations.value <= 150)
  {
    var s := Normalize(input);
    assert s.thought != "" <==> input.thought.Some? && input.thought.value != "";
    assert s.thoughtNumber >= 1 <==> input.thoughtNumber.Some? && input.thoughtNumber.value >= 1;
    assert s.totalThoughts >= 1 <==> input.totalThoughts.Some? && input.totalThoughts.value >= 1;
  }

  /** An absent or empty thought is reported before anything else. */
  lemma ThoughtChecked(input: RawInput)
    requires input.thought.None? || input.thought == Some("")
    ensures ProcessInput(input) == Err(ThoughtMissing)
  {
  }

  /** An absent thought number reads as 0 and is rejected as too small, unless
      the thought is missing too. */
  lemma MissingThoughtNumber(input: RawInput)
    requires input.thought.Some? && input.thought.value != "" && input.thoughtNumber.None?
    ensures ProcessInput(input) == Err(ThoughtNumberTooSmall)
  {
  }

  /** What an accepted step holds besides the constraints: the counters and
      the thought as sent, a missing flag read as false, and the beam width
      and simulation count as sent or, when absent or 0, their defaults 3 and 50. */
  lemma AcceptedDefaults(input: RawInput)
    requires ProcessInput(input).Ok?
    ensures var s := ProcessInput(input).value;
      && Some(s.thought) == input.thought
      && Some(s.thoughtNumber) == input.thoughtNumber
      && Some(s.totalThoughts) == input.totalThoughts
      && (s.nextThoughtNeeded <==> input.nextThoughtNeeded == Some(true))
      && s.strategyType == input.strategyType
      && (input.beamWidth.None? || input.beamWidth == Some(0) <==> s.beamWidth == DefaultBeamWidth && input.beamWidth != Some(3))
      && (input.numSimulations.None? || input.numSimulations == Some(0)
          <==> s.numSimulations == DefaultNumSimulations && input.numSimulations != Some(50))
  {
  }

  /** The request the server hands to the reasoner: every field of the step,
      and never a parent id. */
  function ToRequest(s: Step): (r: Request)
    ensures r.parentId.None? && r.beamWidth.Some? && r.numSimulations.Some?
    ensures Step(r.thought, r.thoughtNumber, r.totalThoughts, r.nextThoughtNeeded, r.strategyType,
                 r.beamWidth.value, r.numSimulations.value) == s
  {
    Request(s.thought, s.thoughtNumber, s.totalThoughts, s.nextThoughtNeeded, None, s.strategyType,
            Some(s.beamWidth), Some(s.numSimulations))
  }
}

/** What the entry point implies for the trust-region strategy: a request that
    came through validation has no parent, so the fresh node's advantage is
    measured against a zero baseline and the strategy's own score for it is
    0.2. The Reasoner between the server and the strategy is not modelled. */
module EntryPoint {
  import opened Common
  import opened Nodes
  import opened InputValidation
  import opened GproScores
  import opened GproStrategy

  lemma ServerRequestHasNoParent(input: RawInput, store: Tree, id: Id, confidence: Option<real>)
    requires ProcessInput(input).Ok?
    ensures var request := ToRequest(ProcessInput(input).value);
      && ResolveParent(store, request.parentId).None?
      && FreshScore(ResolveParent(store, request.parentId)) == 0.2
      && FreshNode(request, id, confidence).info.depth >= 0
      && CanInitialize(FreshNode(request, id, confidence), ResolveParent(store, request.parentId))
  {
  }
}
