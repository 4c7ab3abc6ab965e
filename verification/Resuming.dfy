/** Exactly which games start and which stored games resume, and what stops the
    others: of every stored game, whether or not any play ever recorded it. */
module Resuming {
  import opened Wrappers
  import opened Prompts
  import opened Rng
  import opened Engine
  import opened LoggedAnswers
  import opened Fingerprint
  import opened LiveGames
  import opened Store
  import opened Sessions

  // ----- starting -----

  /** The scenario's setup, at the start of the seed's stream, seating the
      roster: what the engine opens. */
  function SeatAt(
    registries: Registries, scenario: ScenarioId, seed: Uint64, acknowledge: bool, roster: seq<RosterEntry>, lead: nat)
    : ApplyResult
    requires registries.scenarioSetup(scenario).Some?
  {
    var built := registries.scenarioSetup(scenario).value;
    registries.seatAndOpen(built.(rng := RngPosition(seed, 0), interactiveAcknowledge := acknowledge), roster, lead)
  }

  predicate Sits(state: GameState, id: InvestigatorId) {
    exists i | 0 <= i < |state.investigators| :: state.investigators[i].id == id
  }

  /** The seated investigators, and no others, have a holder. */
  ghost predicate HoldsSeated(assignment: Assignment, state: GameState) {
    forall id :: id in assignment.Keys <==> Sits(state, id)
  }

  lemma SeatedExactly(assignment: Assignment, state: GameState)
    ensures assignment.Keys == Seated(state) <==> HoldsSeated(assignment, state)
  {
    forall id ensures id in Seated(state) <==> Sits(state, id) {
      if id in Seated(state) {
        var card :| card in state.investigators && card.id == id;
        var i :| 0 <= i < |state.investigators| && state.investigators[i] == card;
      }
    }
    hide Sits, Seated;
    if HoldsSeated(assignment, state) {
      assert assignment.Keys == Seated(state);
    }
  }

  /** **Which games start**, with the row stored of each: those whose scenario is
      known, whose seating the engine does not reject, whose seated investigators
      alone have holders, and whose lead fits its column. Otherwise the first of
      these that fails is the error. */
  lemma SetUpExactly(registries: Registries, creator: AccountId, start: Start, seed: Uint64)
    ensures var known := registries.scenarioSetup(start.scenarioId).Some?;
            var seated := if !known then None
              else Some(SeatAt(registries, start.scenarioId, seed, true, start.roster, start.lead));
            var opens := known && !seated.value.outcome.Rejected?;
            var held := opens && HoldsSeated(start.assignment, seated.value.state);
            match SetUp(registries, creator, start, seed)
            case Success(newGame) =>
              && held && start.lead <= I64_MAX
              && newGame == NewGame(creator,
                   GameRow(FORMAT_VERSION, Some(creator), start.scenarioId, start.roster, start.lead,
                     ToSqlInteger(seed), true, Of(seated.value.state)),
                   Opened(seated.value.state, seated.value.outcome, seated.value.events), start.assignment)
            case Failure(UnknownScenario(id)) => !known && id == start.scenarioId
            case Failure(Seating(reason)) => known && seated.value.outcome == Rejected(reason)
            case Failure(AssignmentMismatch) => opens && !held
            case Failure(Serde(corrupt)) => held && start.lead > I64_MAX && corrupt == LeadTooWide
            case Failure(_) => false
  {
    if registries.scenarioSetup(start.scenarioId).Some? {
      SeatedExactly(start.assignment, SeatAt(registries, start.scenarioId, seed, true, start.roster, start.lead).state);
      hide Seated, HoldsSeated, Of;
    }
  }

  // ----- one logged answer -----

  /** Where the engine stands between two answers. */
  datatype Standing = Standing(state: GameState, outcome: EngineOutcome)

  /** The engine awaits the prompt the answer was logged for, and each pick names
      one option of it. */
  predicate Answerable(at: Standing, answer: LoggedAnswer) {
    && at.outcome.AwaitingInput?
    && SamePrompt(at.outcome.request, answer.prompt)
    && NamesAll(at.outcome.request, LoggedPicks(answer.response))
  }

  /** The action that gives the logged answer to the prompt awaited. */
  ghost function Action(at: Standing, answer: LoggedAnswer): (action: PlayerAction)
    requires Answerable(at, answer)
    ensures Answers(at.outcome.request, answer, action)
  {
    ReplayExactly(at.outcome.request, answer);
    var action :| Answers(at.outcome.request, answer, action);
    action
  }

  ghost function Applied(registries: Registries, at: Standing, answer: LoggedAnswer): ApplyResult
    requires Answerable(at, answer)
  {
    registries.apply(at.state, Action(at, answer))
  }

  /** The logged row still fits: its answer is one the prompt awaited takes, the
      engine accepts it, and it stands at the logged draws then. */
  ghost predicate Fits(registries: Registries, at: Standing, row: ActionRow)
    requires IsColumn(row.draws)
  {
    && Answerable(at, row.answer)
    && var result := Applied(registries, at, row.answer);
    && !result.outcome.Rejected?
    && result.state.rng.draws == FromSqlInteger(row.draws)
  }

  /** `reason` is the first thing that keeps the row from fitting. */
  ghost predicate Unfit(registries: Registries, at: Standing, row: ActionRow, reason: ReplayFailure)
    requires IsColumn(row.draws)
  {
    var recorded := row.answer.prompt;
    if !at.outcome.AwaitingInput? then reason == PromptChanged(recorded, None)
    else
      var request := at.outcome.request;
      if !SamePrompt(request, recorded) then
        reason == PromptChanged(recorded, Some(PromptIdentity(request.kind, request.target, request.responder)))
      else if !NamesAll(request, LoggedPicks(row.answer.response)) then
        FirstUnnamed(request, LoggedPicks(row.answer.response), reason)
      else
        var result := Applied(registries, at, row.answer);
        if result.outcome.Rejected? then reason == EngineRejected(result.outcome.reason)
        else
          && result.state.rng.draws != FromSqlInteger(row.draws)
          && reason == Draws(FromSqlInteger(row.draws), result.state.rng.draws)
  }

  lemma StepExactly(registries: Registries, at: Standing, row: ActionRow)
    requires IsColumn(row.draws)
    ensures match ReplayStep(registries, at.state, at.outcome, row.answer, FromSqlInteger(row.draws))
            case Success(result) => Fits(registries, at, row) && result == Applied(registries, at, row.answer)
            case Failure(reason) => !Fits(registries, at, row) && Unfit(registries, at, row, reason)
  {
    if at.outcome.AwaitingInput? {
      ReplayExactly(at.outcome.request, row.answer);
      if Answerable(at, row.answer) {
        AnswersOnce(at.outcome.request, row.answer, Action(at, row.answer), Replay(at.outcome.request, row.answer).value);
      }
      hide Replay, Answers, NamesAll, FirstUnnamed, SamePrompt, FromSqlInteger;
    }
  }

  // ----- the whole log -----

  ghost function After(registries: Registries, at: Standing, row: ActionRow): Standing {
    if Answerable(at, row.answer) then
      var result := Applied(registries, at, row.answer);
      Standing(result.state, result.outcome)
    else at
  }

  /** Where the first `k` of the logged answers take the engine. */
  ghost function StandingAt(registries: Registries, at: Standing, rows: seq<ActionRow>, k: nat): Standing
    requires k <= |rows|
    decreases k
  {
    if k == 0 then at else StandingAt(registries, After(registries, at, rows[0]), rows[1..], k - 1)
  }

  /** The logged answers before the `k`th each fit where those before it lead. */
  ghost predicate FitsUpTo(registries: Registries, at: Standing, rows: seq<ActionRow>, k: nat)
    requires k <= |rows| && DrawColumns(rows)
  {
    forall j | 0 <= j < k :: Fits(registries, StandingAt(registries, at, rows, j), rows[j])
  }

  /** The `k`th logged answer is the first that does not fit. */
  ghost predicate StopsAt(registries: Registries, at: Standing, rows: seq<ActionRow>, k: nat, reason: ReplayFailure)
    requires DrawColumns(rows)
  {
    && k < |rows|
    && FitsUpTo(registries, at, rows, k)
    && !Fits(registries, StandingAt(registries, at, rows, k), rows[k])
    && Unfit(registries, StandingAt(registries, at, rows, k), rows[k], reason)
  }

  lemma FitsLater(registries: Registries, at: Standing, rows: seq<ActionRow>, k: nat)
    requires rows != [] && DrawColumns(rows) && k < |rows|
    requires Fits(registries, at, rows[0])
    requires FitsUpTo(registries, After(registries, at, rows[0]), rows[1..], k)
    ensures FitsUpTo(registries, at, rows, k + 1)
  {
    forall j | 0 <= j < k + 1 ensures Fits(registries, StandingAt(registries, at, rows, j), rows[j]) {
      if j > 0 {
        assert rows[j] == rows[1..][j - 1];
        assert Fits(registries, StandingAt(registries, After(registries, at, rows[0]), rows[1..], j - 1), rows[1..][j - 1]);
      }
    }
  }

  lemma {:induction false} LogExactly(registries: Registries, at: Standing, rows: seq<ActionRow>, position: nat)
    requires DrawColumns(rows)
    ensures match ReplayLog(registries, at.state, at.outcome, rows, position)
            case Success((state, outcome)) =>
              && FitsUpTo(registries, at, rows, |rows|)
              && Standing(state, outcome) == StandingAt(registries, at, rows, |rows|)
            case Failure((stopped, reason)) =>
              stopped >= position && StopsAt(registries, at, rows, stopped - position, reason)
    decreases |rows|
  {
    hide Fits, Unfit, Answerable, ReplayStep;
    if rows != [] {
      StepExactly(registries, at, rows[0]);
      FitAnswerable(registries, at, rows[0]);
      if Fits(registries, at, rows[0]) {
        var next, rest := After(registries, at, rows[0]), rows[1..];
        LogExactly(registries, next, rest, position + 1);
        match ReplayLog(registries, next.state, next.outcome, rest, position + 1)
        case Success(_) => FitsLater(registries, at, rows, |rest|);
        case Failure((stopped, reason)) =>
          var k := stopped - position - 1;
          FitsLater(registries, at, rows, k);
          assert rows[k + 1] == rest[k];
      }
    }
  }

  lemma FitAnswerable(registries: Registries, at: Standing, row: ActionRow)
    requires IsColumn(row.draws)
    ensures Fits(registries, at, row) ==> Answerable(at, row.answer)
  {
  }

  // ----- the rebuild -----

  function Reseating(registries: Registries, row: GameRow): ApplyResult
    requires IsColumn(row.rngSeed) && row.lead >= 0 && registries.scenarioSetup(row.scenarioId).Some?
  {
    SeatAt(registries, row.scenarioId, FromSqlInteger(row.rngSeed), row.interactiveAcknowledge, row.roster, row.lead)
  }

  /** A stored game still resumes: it is of this version, somebody holds an
      investigator, its creator and lead can be read, setup still opens it with
      the very fingerprint stored, its log fits a 32-bit count, and each logged
      answer fits where those before it lead. */
  ghost predicate Resumable(registries: Registries, stored: StoredGame)
    requires Columns(stored)
  {
    var row := stored.row;
    && row.formatVersion == FORMAT_VERSION
    && stored.assignment != map[]
    && row.creator.Some?
    && row.lead >= 0
    && registries.scenarioSetup(row.scenarioId).Some?
    && var opening := Reseating(registries, row);
    && !opening.outcome.Rejected?
    && Of(opening.state) == row.setupFingerprint
    && |stored.actions| <= 0xFFFF_FFFF
    && FitsUpTo(registries, Standing(opening.state, opening.outcome), stored.actions, |stored.actions|)
  }

  /** `error` names the first of those that fails, in that order. */
  ghost predicate Refuses(registries: Registries, stored: StoredGame, error: SessionError)
    requires Columns(stored)
  {
    var row := stored.row;
    if row.formatVersion != FORMAT_VERSION then error == Unresumable(Version(row.formatVersion))
    else if stored.assignment == map[] then error == Unresumable(NoAssignment)
    else if row.creator.None? then error == Serde(NoCreator)
    else if row.lead < 0 then error == Serde(BadLead)
    else if registries.scenarioSetup(row.scenarioId).None? then error == Unresumable(Setup(NoSuchScenario(row.scenarioId)))
    else
      var opening := Reseating(registries, row);
      if opening.outcome.Rejected? then error == Unresumable(Setup(SeatingRejected(opening.outcome.reason)))
      else if Of(opening.state) != row.setupFingerprint then
        && error.Unresumable? && error.because.FingerprintDiffers?
        && IsFirstDifference(row.setupFingerprint, Of(opening.state), error.because.mismatch)
      else if |stored.actions| > 0xFFFF_FFFF then error == Serde(LogTooLong)
      else
        && error.Unresumable? && error.because.ReplayFails?
        && StopsAt(registries, Standing(opening.state, opening.outcome), stored.actions,
             error.because.position, error.because.reason)
  }

  /** What it resumes as: the creation inputs' opening, carried forward by the
      log, with the holders, creator and members stored. */
  ghost function Resumed(registries: Registries, stored: StoredGame): Live
    requires Columns(stored) && Resumable(registries, stored)
  {
    var opening := Reseating(registries, stored.row);
    var at := StandingAt(registries, Standing(opening.state, opening.outcome), stored.actions, |stored.actions|);
    Live(at.state, at.outcome, opening.events, |stored.actions|, stored.assignment, stored.row.creator.value,
      stored.members)
  }

  lemma ReopenExactly(registries: Registries, stored: StoredGame)
    requires Columns(stored)
    ensures match Reopen(registries, stored)
            case Failure(error) => !Resumable(registries, stored) && Refuses(registries, stored, error)
            case Success((creator, opening)) =>
              var row := stored.row;
              && row.formatVersion == FORMAT_VERSION && stored.assignment != map[] && row.creator == Some(creator)
              && row.lead >= 0 && registries.scenarioSetup(row.scenarioId).Some?
              && var again := Reseating(registries, row);
              && opening == Opened(again.state, again.outcome, again.events)
              && !again.outcome.Rejected? && Of(again.state) == row.setupFingerprint && |stored.actions| <= 0xFFFF_FFFF
  {
    hide Of, FirstDifference, FitsUpTo, StopsAt, IsFirstDifference, FromSqlInteger;
    var row := stored.row;
    if row.lead >= 0 && registries.scenarioSetup(row.scenarioId).Some? {
      var opening := Reseating(registries, row);
      NoDifferenceIsEqual(row.setupFingerprint, Of(opening.state));
      if row.setupFingerprint != Of(opening.state) {
        DifferenceIsFirst(row.setupFingerprint, Of(opening.state));
      }
    }
  }

  /** **Which stored games resume.** A rebuild succeeds exactly when all it
      depends on still holds, and then gives the one game the row and its log
      stand for. Otherwise its error names the first thing that no longer does. */
  lemma RebuildExactly(registries: Registries, stored: StoredGame)
    requires Columns(stored)
    ensures match Rebuild(registries, stored)
            case Success(live) => Resumable(registries, stored) && live == Resumed(registries, stored)
            case Failure(error) => !Resumable(registries, stored) && Refuses(registries, stored, error)
  {
    ReopenExactly(registries, stored);
    hide Reopen, Reseating, Of, StandingAt, IsFirstDifference;
    match Reopen(registries, stored)
    case Failure(_) =>
    case Success((_, opening)) =>
      LogExactly(registries, Standing(opening.state, opening.outcome), stored.actions, 0);
      hide ReplayLog;
  }

  /** The rebuild as the server runs it: the checks, then the log in a loop. It
      gives a session exactly of a stored game that still resumes. */
  method RebuildSession(registries: Registries, stored: StoredGame, db: Database)
    returns (r: Result<GameSession, SessionError>)
    requires Columns(stored)
    ensures match Rebuild(registries, stored)
            case Failure(error) => r == Failure(error)
            case Success(live) =>
              && r.Success? && fresh(r.value) && fresh(r.value.live)
              && r.value.live.View() == live && r.value.live.registries == registries && r.value.db == db
    ensures match r
            case Success(session) => Resumable(registries, stored) && session.live.View() == Resumed(registries, stored)
            case Failure(error) => !Resumable(registries, stored) && Refuses(registries, stored, error)
  {
    RebuildExactly(registries, stored);
    hide Resumable, Resumed, Refuses;
    var reopened := Reopen(registries, stored);
    if reopened.Failure? {
      return Failure(reopened.error);
    }
    var (creator, opening) := reopened.value;
    var state, outcome := opening.state, opening.outcome;
    var position := 0;
    assert stored.actions[0..] == stored.actions;
    while position < |stored.actions|
      invariant 0 <= position <= |stored.actions|
      invariant DrawColumns(stored.actions[position..])
      invariant ReplayLog(registries, opening.state, opening.outcome, stored.actions, 0)
                == ReplayLog(registries, state, outcome, stored.actions[position..], position)
    {
      var row := stored.actions[position];
      assert stored.actions[position..][1..] == stored.actions[position + 1..];
      match ReplayStep(registries, state, outcome, row.answer, FromSqlInteger(row.draws)) {
        case Failure(reason) =>
          return Failure(Unresumable(ReplayFails(position, reason)));
        case Success(result) =>
          state := result.state;
          outcome := result.outcome;
      }
      position := position + 1;
    }
    var live := new LiveGame(registries,
      Live(state, outcome, opening.events, position, stored.assignment, creator, stored.members));
    var session := new GameSession(live, db);
    return Success(session);
  }
}
