/** The rules engine as the server sees it: a deterministic function from a
    state and an action, and a setup that seats a roster. What the rules do is
    not modelled: `Registries` ranges over every such engine. */
module Engine {
  import opened Wrappers
  import opened Prompts
  import opened Rng

  type CardCode = string
  type ScenarioId = string

  /** A rules event. Only equality on it matters. */
  type Event(==, !new)

  /** Everything else a game state holds. Only equality on it matters. */
  type Board(==, !new)

  datatype ChaosToken =
    | Numeric(modifier: int8)
    | Skull
    | Cultist
    | Tablet
    | ElderThing
    | AutoFail
    | ElderSign

  newtype int8 = x: int | -0x80 <= x < 0x80

  datatype InvestigatorCard = InvestigatorCard(id: InvestigatorId, hand: seq<CardCode>, deck: seq<CardCode>)

  datatype RngPosition = RngPosition(seed: Uint64, draws: Uint64)

  /** A game state. `investigators` lists the seated, in id order. */
  datatype GameState = GameState(
    investigators: seq<InvestigatorCard>,
    encounterDeck: seq<CardCode>,
    chaosBag: seq<ChaosToken>,
    rng: RngPosition,
    interactiveAcknowledge: bool,
    board: Board)

  datatype EngineOutcome =
    | Done
    | AwaitingInput(request: InputRequest)
    | Rejected(reason: string)

  datatype ApplyResult = ApplyResult(state: GameState, events: seq<Event>, outcome: EngineOutcome)

  datatype RosterEntry = RosterEntry(investigator: CardCode, deck: seq<CardCode>, randomBasicWeaknesses: nat)

  /** What every apply and every seating runs against. */
  datatype Registries = Registries(
    scenarioSetup: ScenarioId -> Option<GameState>,
    seatAndOpen: (GameState, seq<RosterEntry>, nat) -> ApplyResult,
    apply: (GameState, PlayerAction) -> ApplyResult)
}
