/** The strategy factory: a strategy identifier selects one of six
    strategies. Only beam search receives the beam width; the four tree-search
    variants receive the simulation count; the external model receives
    neither; any other identifier is an error. */
module Factory {
  import opened Common

  /** The six identifiers the factory knows. */
  datatype StrategyKind = BeamSearch | Mcts | Mcts002Alpha | Mcts002AltAlpha | Mcts003Alpha | R1Sonnet

  /** The strategy object the factory constructs, with the one parameter it passes on. */
  datatype Strategy =
    | BeamSearchStrategy(beamWidth: Option<int>)
    | MonteCarloTreeSearch(numSimulations: Option<int>)
    | PolicyGuidedMcts(numSimulations: Option<int>)
    | BidirectionalMcts(numSimulations: Option<int>)
    | GroqStrategy
    | GproMcts(numSimulations: Option<int>)

  /** The string value of each kind. */
  function Identifier(k: StrategyKind): string
  {
    match k
    case BeamSearch => "beam_search"
    case Mcts => "mcts"
    case Mcts002Alpha => "mcts_002_alpha"
    case Mcts002AltAlpha => "mcts_002_alt_alpha"
    case Mcts003Alpha => "mcts_003_alpha"
    case R1Sonnet => "r1_sonnet"
  }

  /** The kind a string names, if any. */
  function Parse(id: string): (r: Option<StrategyKind>)
    ensures r.Some? ==> Identifier(r.value) == id
  {
    if id == "beam_search" then Some(BeamSearch)
    else if id == "mcts" then Some(Mcts)
    else if id == "mcts_002_alpha" then Some(Mcts002Alpha)
    else if id == "mcts_002_alt_alpha" then Some(Mcts002AltAlpha)
    else if id == "mcts_003_alpha" then Some(Mcts003Alpha)
    else if id == "r1_sonnet" then Some(R1Sonnet)
    else None
  }

  /** Every kind is recovered from its identifier. */
  lemma ParseIdentifier(k: StrategyKind)
    ensures Parse(Identifier(k)) == Some(k)
  {
  }

  /** A string names a kind exactly when it is one of the six identifiers. */
  lemma ParseComplete(id: string)
    ensures Parse(id).None? <==> forall k: StrategyKind :: Identifier(k) != id
  {
    if Parse(id).None? {
      forall k: StrategyKind ensures Identifier(k) != id {
        ParseIdentifier(k);
      }
    }
  }

  /** Distinct kinds have distinct identifiers. */
  lemma IdentifierInjective(k1: StrategyKind, k2: StrategyKind)
    requires Identifier(k1) == Identifier(k2)
    ensures k1 == k2
  {
    ParseIdentifier(k1);
    ParseIdentifier(k2);
  }

  /** The kind a constructed strategy was selected by. */
  function KindOf(s: Strategy): StrategyKind
  {
    match s
    case BeamSearchStrategy(_) => BeamSearch
    case MonteCarloTreeSearch(_) => Mcts
    case PolicyGuidedMcts(_) => Mcts002Alpha
    case BidirectionalMcts(_) => Mcts002AltAlpha
    case GroqStrategy => R1Sonnet
    case GproMcts(_) => Mcts003Alpha
  }

  /** The message thrown for an identifier the factory does not know. */
  function UnknownStrategy(id: string): string
  {
    "Unknown strategy type: " + id
  }

  /** createStrategy. The state manager is shared with every strategy and is
      not modelled; the configuration is accepted and never read. */
  function CreateStrategy<C>(id: string, beamWidth: Option<int>, numSimulations: Option<int>, config: C)
    : (r: Result<Strategy, string>)
    ensures r.Ok? <==> Parse(id).Some?
    ensures r.Ok? ==> Identifier(KindOf(r.value)) == id
    ensures r.Err? ==> r.error == UnknownStrategy(id)
    ensures r.Ok? && r.value.BeamSearchStrategy? ==> r.value.beamWidth == beamWidth
    ensures r.Ok? && !r.value.BeamSearchStrategy? && !r.value.GroqStrategy? ==> r.value.numSimulations == numSimulations
  {
    match Parse(id)
    case None => Err(UnknownStrategy(id))
    case Some(BeamSearch) => Ok(BeamSearchStrategy(beamWidth))
    case Some(Mcts) => Ok(MonteCarloTreeSearch(numSimulations))
    case Some(Mcts002Alpha) => Ok(PolicyGuidedMcts(numSimulations))
    case Some(Mcts002AltAlpha) => Ok(BidirectionalMcts(numSimulations))
    case Some(R1Sonnet) => Ok(GroqStrategy)
    case Some(Mcts003Alpha) => Ok(GproMcts(numSimulations))
  }

  /** Each identifier builds a strategy of its own kind, so the six
      identifiers give six different strategies. */
  lemma {:induction false} DistinctStrategies<C>(k1: StrategyKind, k2: StrategyKind, bw: Option<int>, ns: Option<int>, c: C)
    requires k1 != k2
    ensures CreateStrategy(Identifier(k1), bw, ns, c).Ok?
    ensures CreateStrategy(Identifier(k1), bw, ns, c) != CreateStrategy(Identifier(k2), bw, ns, c)
  {
    ParseIdentifier(k1);
    ParseIdentifier(k2);
    var r1 := CreateStrategy(Identifier(k1), bw, ns, c);
    var r2 := CreateStrategy(Identifier(k2), bw, ns, c);
    assert KindOf(r1.value) == k1 by { IdentifierInjective(KindOf(r1.value), k1); }
    assert KindOf(r2.value) == k2 by { IdentifierInjective(KindOf(r2.value), k2); }
  }

  /** The beam width reaches the result only through beam search: with any
      other identifier two calls that differ only in the beam width agree. */
  lemma BeamWidthOnlyForBeamSearch<C>(id: string, bw1: Option<int>, bw2: Option<int>, ns: Option<int>, c: C)
    requires id != Identifier(BeamSearch)
    ensures CreateStrategy(id, bw1, ns, c) == CreateStrategy(id, bw2, ns, c)
  {
  }

  /** The simulation count is ignored by beam search and by the external model. */
  lemma SimulationsIgnored<C>(k: StrategyKind, bw: Option<int>, ns1: Option<int>, ns2: Option<int>, c: C)
    requires k == BeamSearch || k == R1Sonnet
    ensures CreateStrategy(Identifier(k), bw, ns1, c) == CreateStrategy(Identifier(k), bw, ns2, c)
  {
  }

  /** The configuration never changes the outcome. */
  lemma ConfigIrrelevant<C>(id: string, bw: Option<int>, ns: Option<int>, c1: C, c2: C)
    ensures CreateStrategy(id, bw, ns, c1) == CreateStrategy(id, bw, ns, c2)
  {
  }
}
