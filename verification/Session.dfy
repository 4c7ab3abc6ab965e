/** The game session (`server::session`): storing a game as its creation inputs
    and a log of answers, and rebuilding it by re-running setup and replaying. */
module Sessions {
  import opened Wrappers
  import opened Prompts
  import opened Rng
  import opened Engine
  import opened LoggedAnswers
  import opened Fingerprint
  import opened LiveGames
  import opened Store

  datatype SetupFailure = NoSuchScenario(id: ScenarioId) | SeatingRejected(reason: string)

  datatype UnresumableReason =
    | Version(found: int)
    | NoAssignment
    | Setup(failure: SetupFailure)
    | FingerprintDiffers(mismatch: FingerprintMismatch)
    | ReplayFails(position: nat, reason: ReplayFailure)

  /** A stored column this build can't read, or a value no column holds. */
  datatype Corrupt = NoCreator | BadLead | LogTooLong | LeadTooWide

  datatype SessionError =
    | UnknownScenario(id: ScenarioId)
    | Seating(reason: string)
    | AssignmentMismatch
    | Unresumable(because: UnresumableReason)
    | Serde(corrupt: Corrupt)
    | Db

  datatype CreationInputs = CreationInputs(
    scenarioId: ScenarioId,
    roster: seq<RosterEntry>,
    lead: nat,
    seed: Uint64,
    interactiveAcknowledge: bool)

  datatype Opened = Opened(state: GameState, outcome: EngineOutcome, events: seq<Event>)

  /** What the lobby's Start seats the game with. */
  datatype Start = Start(scenarioId: ScenarioId, roster: seq<RosterEntry>, lead: nat, assignment: Assignment)

  datatype NewGame = NewGame(creator: AccountId, row: GameRow, opening: Opened, assignment: Assignment)

  /** What a load reads of a started game, before any check. */
  datatype StoredGame = StoredGame(
    row: GameRow,
    assignment: Assignment,
    members: seq<AccountId>,
    actions: seq<ActionRow>)

  // ----- setting up -----

  function ToRow(inputs: CreationInputs, creator: AccountId, fingerprint: SetupFingerprint): Result<GameRow, Corrupt> {
    if inputs.lead > I64_MAX then Failure(LeadTooWide)
    else Success(GameRow(FORMAT_VERSION, Some(creator), inputs.scenarioId, inputs.roster, inputs.lead,
      ToSqlInteger(inputs.seed), inputs.interactiveAcknowledge, fingerprint))
  }

  predicate IsColumn(integer: int) {
    -I64_MAX - 1 <= integer <= I64_MAX
  }

  function FromRow(row: GameRow): Result<CreationInputs, Corrupt>
    requires IsColumn(row.rngSeed)
  {
    if row.lead < 0 then Failure(BadLead)
    else Success(CreationInputs(row.scenarioId, row.roster, row.lead, FromSqlInteger(row.rngSeed),
      row.interactiveAcknowledge))
  }

  function Open(registries: Registries, inputs: CreationInputs): Result<Opened, SetupFailure> {
    match registries.scenarioSetup(inputs.scenarioId)
    case None => Failure(NoSuchScenario(inputs.scenarioId))
    case Some(built) =>
      var setup := built.(rng := RngPosition(inputs.seed, 0), interactiveAcknowledge := inputs.interactiveAcknowledge);
      var result := registries.seatAndOpen(setup, inputs.roster, inputs.lead);
      if result.outcome.Rejected? then Failure(SeatingRejected(result.outcome.reason))
      else Success(Opened(result.state, result.outcome, result.events))
  }

  function Seated(state: GameState): set<InvestigatorId> {
    set card | card in state.investigators :: card.id
  }

  function SetUp(registries: Registries, creator: AccountId, start: Start, seed: Uint64): Result<NewGame, SessionError> {
    var inputs := CreationInputs(start.scenarioId, start.roster, start.lead, seed, true);
    match Open(registries, inputs)
    case Failure(NoSuchScenario(id)) => Failure(UnknownScenario(id))
    case Failure(SeatingRejected(reason)) => Failure(Seating(reason))
    case Success(opening) =>
      if start.assignment.Keys != Seated(opening.state) then Failure(AssignmentMismatch)
      else match ToRow(inputs, creator, Of(opening.state))
        case Failure(corrupt) => Failure(Serde(corrupt))
        case Success(row) => Success(NewGame(creator, row, opening, start.assignment))
  }

  /** The rows Start's transaction writes: the game's row and assignment. */
  function StoreNewGame(rows: Rows, newGame: NewGame): Rows {
    rows.(game := Some(newGame.row), assignment := newGame.assignment)
  }

  function IntoSession(newGame: NewGame, members: seq<AccountId>): Live {
    Live(newGame.opening.state, newGame.opening.outcome, newGame.opening.events, 0, newGame.assignment,
      newGame.creator, members)
  }

  // ----- rebuilding -----

  const U32_MAX: int := 0xFFFF_FFFF

  ghost function Read(rows: Rows): Option<StoredGame> {
    match rows.game
    case None => None
    case Some(row) => Some(StoredGame(row, rows.assignment, rows.members, InOrder(rows.actions)))
  }

  function ReplayStep(registries: Registries, state: GameState, outcome: EngineOutcome, answer: LoggedAnswer, draws: Uint64)
    : Result<ApplyResult, ReplayFailure>
  {
    if !outcome.AwaitingInput? then Failure(PromptChanged(answer.prompt, None))
    else
      var action :- Replay(outcome.request, answer);
      var result := registries.apply(state, action);
      if result.outcome.Rejected? then Failure(EngineRejected(result.outcome.reason))
      else if result.state.rng.draws != draws then Failure(Draws(draws, result.state.rng.draws))
      else Success(result)
  }

  /** Every stored integer is one its column holds. */
  predicate Columns(stored: StoredGame) {
    IsColumn(stored.row.rngSeed) && DrawColumns(stored.actions)
  }

  predicate DrawColumns(actions: seq<ActionRow>) {
    forall k | 0 <= k < |actions| :: IsColumn(actions[k].draws)
  }

  /** Replay `actions`, the first of them logged at `position`: where they end,
      or the first that fails and why. */
  function ReplayLog(
    registries: Registries, state: GameState, outcome: EngineOutcome, actions: seq<ActionRow>, position: nat)
    : Result<(GameState, EngineOutcome), (nat, ReplayFailure)>
    requires DrawColumns(actions)
    decreases |actions|
  {
    if actions == [] then Success((state, outcome))
    else match ReplayStep(registries, state, outcome, actions[0].answer, FromSqlInteger(actions[0].draws))
      case Failure(reason) => Failure((position, reason))
      case Success(result) => ReplayLog(registries, result.state, result.outcome, actions[1..], position + 1)
  }

  /** The checks a rebuild runs before the log's, in their order: what setup
      opens again, and who created the game. */
  function Reopen(registries: Registries, stored: StoredGame): Result<(AccountId, Opened), SessionError>
    requires IsColumn(stored.row.rngSeed)
  {
    if stored.row.formatVersion != FORMAT_VERSION then Failure(Unresumable(Version(stored.row.formatVersion)))
    else if stored.assignment == map[] then Failure(Unresumable(NoAssignment))
    else if stored.row.creator.None? then Failure(Serde(NoCreator))
    else match FromRow(stored.row)
      case Failure(corrupt) => Failure(Serde(corrupt))
      case Success(inputs) =>
        match Open(registries, inputs)
        case Failure(failure) => Failure(Unresumable(Setup(failure)))
        case Success(opening) =>
          match FirstDifference(stored.row.setupFingerprint, Of(opening.state))
          case Some(mismatch) => Failure(Unresumable(FingerprintDiffers(mismatch)))
          case None =>
            if |stored.actions| > U32_MAX then Failure(Serde(LogTooLong))
            else Success((stored.row.creator.value, opening))
  }

  function Rebuild(registries: Registries, stored: StoredGame): Result<Live, SessionError>
    requires Columns(stored)
  {
    var reopened :- Reopen(registries, stored);
    var opening := reopened.1;
    match ReplayLog(registries, opening.state, opening.outcome, stored.actions, 0)
    case Failure((position, reason)) => Failure(Unresumable(ReplayFails(position, reason)))
    case Success((state, outcome)) =>
      Success(Live(state, outcome, opening.events, |stored.actions|, stored.assignment, reopened.0, stored.members))
  }

  /** A refusal from the live game, or a failed write. */
  datatype ApplyError = ApplyRefused(refused: Refused) | ApplySession(error: SessionError)

  datatype ReassignError = ReassignRefused(refusal: ReassignRefusal) | ReassignSession(error: SessionError)

  function RowOf(accepted: Accepted): ActionRow {
    ActionRow(accepted.answer, ToSqlInteger(accepted.draws))
  }

  /** The loaded game and its connection to the store. */
  class GameSession {
    const live: LiveGame
    const db: Database

    constructor (live: LiveGame, db: Database)
      ensures this.live == live && this.db == db
    {
      this.live := live;
      this.db := db;
    }

    /** Submit an answer, store it, then commit it. A refusal or a failed write
        changes neither the game nor its rows. */
    method Apply(account: AccountId, prompt: int, action: PlayerAction, works: bool)
      returns (r: Result<Accepted, ApplyError>)
      modifies live, db
      ensures var before, rows := old(live.View()), old(db.rows);
              match Submit(live.registries, before, account, prompt, action)
              case Failure(refused) =>
                r == Failure(ApplyRefused(refused)) && live.View() == before && db.rows == rows
              case Success(accepted) =>
                var stored := InsertAction(rows, before.prompt, RowOf(accepted));
                if works && stored.Some? then
                  r == Success(accepted) && live.View() == Commit(before, accepted) && db.rows == stored.value
                else
                  r == Failure(ApplySession(Db)) && live.View() == before && db.rows == rows
      ensures var before := old(live.View());
              && (r.Success? ==> works && Acceptable(live.registries, before, account, prompt, action))
              && (r.Failure? && r.error.ApplyRefused? ==>
                    && !Acceptable(live.registries, before, account, prompt, action)
                    && FirstFailing(live.registries, before, account, prompt, action, r.error.refused))
    {
      SubmitExactly(live.registries, live.View(), account, prompt, action);
      hide Acceptable, FirstFailing, Recorded;
      match Submit(live.registries, live.View(), account, prompt, action) {
        case Failure(refused) =>
          return Failure(ApplyRefused(refused));
        case Success(accepted) =>
          var ok := db.StoreAction(live.prompt, RowOf(accepted), works);
          if !ok {
            return Failure(ApplySession(Db));
          }
          live.Install(accepted);
          return Success(accepted);
      }
    }

    method ReassignInvestigator(asker: AccountId, investigator: InvestigatorId, to: AccountId, works: bool)
      returns (r: Result<Reassigned, ReassignError>)
      modifies live, db
      ensures var before, rows := old(live.View()), old(db.rows);
              match Reassign(before, asker, investigator, to)
              case Failure(refusal) =>
                r == Failure(ReassignRefused(refusal)) && live.View() == before && db.rows == rows
              case Success(reassigned) =>
                var stored := UpdateHolder(rows, investigator, to);
                if works && stored.Some? then
                  && r == Success(reassigned)
                  && live.View() == CommitReassignment(before, reassigned) && db.rows == stored.value
                else
                  r == Failure(ReassignSession(Db)) && live.View() == before && db.rows == rows
    {
      match Reassign(live.View(), asker, investigator, to) {
        case Failure(refusal) =>
          return Failure(ReassignRefused(refusal));
        case Success(reassigned) =>
          var ok := db.StoreHolder(reassigned.investigator, reassigned.to, works);
          if !ok {
            return Failure(ReassignSession(Db));
          }
          live.InstallReassignment(reassigned);
          return Success(reassigned);
      }
    }
  }
}
