/** Replay refines play: what a rebuild makes of the rows a run of play stored. */
module Replays {
  import opened Wrappers
  import opened Prompts
  import opened Rng
  import opened Engine
  import opened LoggedAnswers
  import opened Fingerprint
  import opened LiveGames
  import opened Store
  import opened Sessions

  // ----- a run of accepted answers -----

  /** Where a run of answers leaves the engine, and the log it stores. */
  datatype Played = Played(state: GameState, outcome: EngineOutcome, rows: seq<ActionRow>)

  /** One accepted answer: the row it stores and what the engine makes of it. */
  function PlayOne(registries: Registries, state: GameState, outcome: EngineOutcome, action: PlayerAction)
    : Option<(ActionRow, ApplyResult)>
  {
    match RecordAnswer(outcome, action)
    case Failure(_) => None
    case Success(answer) =>
      var result := registries.apply(state, action);
      if result.outcome.Rejected? then None
      else Some((ActionRow(answer, ToSqlInteger(result.state.rng.draws)), result))
  }

  function Play(registries: Registries, state: GameState, outcome: EngineOutcome, actions: seq<PlayerAction>)
    : (played: Option<Played>)
    ensures played.Some? ==> |played.value.rows| == |actions| && DrawColumns(played.value.rows)
    decreases |actions|
  {
    if actions == [] then Some(Played(state, outcome, []))
    else match PlayOne(registries, state, outcome, actions[0])
      case None => None
      case Some((row, result)) =>
        match Play(registries, result.state, result.outcome, actions[1..])
        case None => None
        case Some(rest) => Some(rest.(rows := [row] + rest.rows))
  }

  /** The first answer of a run with a pick whose key its prompt offered more
      than once. */
  function FirstAmbiguous(registries: Registries, state: GameState, outcome: EngineOutcome, actions: seq<PlayerAction>)
    : Option<nat>
    requires Play(registries, state, outcome, actions).Some?
    decreases |actions|
  {
    if actions == [] then None
    else
      var (row, result) := PlayOne(registries, state, outcome, actions[0]).value;
      if !NamesAll(outcome.request, LoggedPicks(row.answer.response)) then Some(0)
      else match FirstAmbiguous(registries, result.state, result.outcome, actions[1..])
        case None => None
        case Some(k) => Some(k + 1)
  }

  lemma OneReplays(registries: Registries, state: GameState, outcome: EngineOutcome, action: PlayerAction)
    requires PlayOne(registries, state, outcome, action).Some?
    ensures outcome.AwaitingInput?
    ensures var (row, result) := PlayOne(registries, state, outcome, action).value;
            var step := ReplayStep(registries, state, outcome, row.answer, FromSqlInteger(row.draws));
            && (NamesAll(outcome.request, LoggedPicks(row.answer.response)) ==> step == Success(result))
            && (!NamesAll(outcome.request, LoggedPicks(row.answer.response)) ==>
                  step.Failure? && FirstUnnamed(outcome.request, LoggedPicks(row.answer.response), step.error))
  {
    RecordThenReplay(outcome.request, action.investigator, action.response);
  }

  /** Replaying the log a run stored ends where the run did, or stops at its
      first ambiguous answer, naming it. */
  lemma {:induction false} PlayReplays(
    registries: Registries, state: GameState, outcome: EngineOutcome, actions: seq<PlayerAction>, position: nat)
    requires Play(registries, state, outcome, actions).Some?
    ensures var played := Play(registries, state, outcome, actions).value;
            var replayed := ReplayLog(registries, state, outcome, played.rows, position);
            match FirstAmbiguous(registries, state, outcome, actions)
            case None => replayed == Success((played.state, played.outcome))
            case Some(k) => replayed.Failure? && replayed.error.0 == position + k && replayed.error.1.OptionNotFound?
    decreases |actions|
  {
    if actions != [] {
      var (row, result) := PlayOne(registries, state, outcome, actions[0]).value;
      var rows := Play(registries, state, outcome, actions).value.rows;
      OneReplays(registries, state, outcome, actions[0]);
      assert rows[0] == row;
      PlayReplays(registries, result.state, result.outcome, actions[1..], position + 1);
      assert rows[1..] == Play(registries, result.state, result.outcome, actions[1..]).value.rows;
    }
  }

  /** One more answer at the end of a run. */
  lemma {:induction false} PlayExtends(
    registries: Registries, state: GameState, outcome: EngineOutcome, actions: seq<PlayerAction>, action: PlayerAction)
    requires Play(registries, state, outcome, actions).Some?
    requires var played := Play(registries, state, outcome, actions).value;
             PlayOne(registries, played.state, played.outcome, action).Some?
    ensures var played := Play(registries, state, outcome, actions).value;
            var (row, result) := PlayOne(registries, played.state, played.outcome, action).value;
            Play(registries, state, outcome, actions + [action])
            == Some(Played(result.state, result.outcome, played.rows + [row]))
    decreases |actions|
  {
    var played := Play(registries, state, outcome, actions).value;
    var (row, result) := PlayOne(registries, played.state, played.outcome, action).value;
    var longer := actions + [action];
    if actions == [] {
      assert longer[1..] == [];
      assert [row] + [] == played.rows + [row];
    } else {
      var (first, after) := PlayOne(registries, state, outcome, actions[0]).value;
      assert longer[0] == actions[0] && longer[1..] == actions[1..] + [action];
      PlayExtends(registries, after.state, after.outcome, actions[1..], action);
      var rest := Play(registries, after.state, after.outcome, actions[1..]).value;
      assert [first] + (rest.rows + [row]) == played.rows + [row];
    }
  }

  // ----- the stored record of a live game -----

  /** What setup opens from a stored row, if it still does. */
  function Opening(registries: Registries, row: GameRow): Option<Opened>
    requires IsColumn(row.rngSeed)
  {
    match FromRow(row)
    case Failure(_) => None
    case Success(inputs) =>
      match Open(registries, inputs)
      case Failure(_) => None
      case Success(opening) => Some(opening)
  }

  /** `stored` is the record of `live`, which came of setup and then `actions`. */
  ghost predicate RecordOf(registries: Registries, stored: StoredGame, live: Live, actions: seq<PlayerAction>) {
    && Columns(stored)
    && stored.row.formatVersion == FORMAT_VERSION
    && stored.row.creator == Some(live.creator)
    && Opening(registries, stored.row).Some?
    && var opening := Opening(registries, stored.row).value;
    && stored.row.setupFingerprint == Of(opening.state)
    && live.setupEvents == opening.events
    && live.assignment == stored.assignment
    && live.members == stored.members
    && live.prompt == |actions|
    && var played := Play(registries, opening.state, opening.outcome, actions);
    && played == Some(Played(live.state, live.outcome, stored.actions))
  }

  /** Every answer of the run picked by keys its prompt offered once. */
  ghost predicate Unambiguous(registries: Registries, stored: StoredGame, live: Live, actions: seq<PlayerAction>)
    requires RecordOf(registries, stored, live, actions)
  {
    var opening := Opening(registries, stored.row).value;
    FirstAmbiguous(registries, opening.state, opening.outcome, actions).None?
  }

  /** **Replay refines play.** The rebuild of a live game's record is that game,
      in every field, exactly when somebody holds an investigator, the log's
      length fits the count it is replayed under, and no logged pick was
      ambiguous. Otherwise it fails, and for a pick it names the first answer
      that was. It never rebuilds a different game. */
  lemma RebuildIsPlay(registries: Registries, stored: StoredGame, live: Live, actions: seq<PlayerAction>)
    requires RecordOf(registries, stored, live, actions)
    ensures Rebuild(registries, stored) == Success(live) <==>
              live.assignment != map[] && |actions| <= U32_MAX && Unambiguous(registries, stored, live, actions)
    ensures Rebuild(registries, stored).Success? ==> Rebuild(registries, stored) == Success(live)
    ensures live.assignment != map[] && |actions| <= U32_MAX && !Unambiguous(registries, stored, live, actions) ==>
              var opening := Opening(registries, stored.row).value;
              var first := FirstAmbiguous(registries, opening.state, opening.outcome, actions).value;
              && Rebuild(registries, stored).Failure?
              && Rebuild(registries, stored).error.Unresumable?
              && Rebuild(registries, stored).error.because.ReplayFails?
              && Rebuild(registries, stored).error.because.position == first
              && Rebuild(registries, stored).error.because.reason.OptionNotFound?
  {
    hide Play, FirstAmbiguous, ReplayLog, Open, Of, FirstDifference;
    var opening := Opening(registries, stored.row).value;
    NoDifferenceIsEqual(stored.row.setupFingerprint, Of(opening.state));
    PlayReplays(registries, opening.state, opening.outcome, actions, 0);
  }

  /** Every prompt this engine asks keeps its options' keys distinct. */
  ghost predicate PromptsDistinct(registries: Registries) {
    && (forall state, action ::
          var outcome := registries.apply(state, action).outcome;
          outcome.AwaitingInput? ==> DistinctKeys(outcome.request))
    && (forall state, roster, lead ::
          var outcome := registries.seatAndOpen(state, roster, lead).outcome;
          outcome.AwaitingInput? ==> DistinctKeys(outcome.request))
  }

  lemma {:induction false} DistinctNeverAmbiguous(
    registries: Registries, state: GameState, outcome: EngineOutcome, actions: seq<PlayerAction>)
    requires PromptsDistinct(registries)
    requires outcome.AwaitingInput? ==> DistinctKeys(outcome.request)
    requires Play(registries, state, outcome, actions).Some?
    ensures FirstAmbiguous(registries, state, outcome, actions).None?
    decreases |actions|
  {
    if actions != [] {
      var (row, result) := PlayOne(registries, state, outcome, actions[0]).value;
      DistinctKeysReplay(outcome.request, actions[0].investigator, actions[0].response);
      DistinctNeverAmbiguous(registries, result.state, result.outcome, actions[1..]);
    }
  }

  /** With prompts whose options have distinct keys, every game somebody holds
      an investigator of loads back as it was played. */
  lemma DistinctPromptsReload(registries: Registries, stored: StoredGame, live: Live, actions: seq<PlayerAction>)
    requires PromptsDistinct(registries)
    requires RecordOf(registries, stored, live, actions)
    requires live.assignment != map[] && |actions| <= U32_MAX
    ensures Rebuild(registries, stored) == Success(live)
  {
    var opening := Opening(registries, stored.row).value;
    DistinctNeverAmbiguous(registries, opening.state, opening.outcome, actions);
    RebuildIsPlay(registries, stored, live, actions);
  }

  // ----- each operation keeps the record -----

  /** A new game's rows are the record of its live session, before any answer. */
  lemma SetUpRecords(registries: Registries, creator: AccountId, start: Start, seed: Uint64, members: seq<AccountId>)
    requires SetUp(registries, creator, start, seed).Success?
    ensures var newGame := SetUp(registries, creator, start, seed).value;
            && newGame.assignment == start.assignment
            && newGame.assignment.Keys == Seated(newGame.opening.state)
            && RecordOf(registries, StoredGame(newGame.row, newGame.assignment, members, []),
                 IntoSession(newGame, members), [])
  {
  }

  /** An accepted answer, stored and committed, extends the record by itself. */
  lemma CommitRecords(
    registries: Registries, stored: StoredGame, live: Live, actions: seq<PlayerAction>,
    account: AccountId, prompt: int, action: PlayerAction)
    requires RecordOf(registries, stored, live, actions)
    requires Submit(registries, live, account, prompt, action).Success?
    ensures var accepted := Submit(registries, live, account, prompt, action).value;
            RecordOf(registries, stored.(actions := stored.actions + [RowOf(accepted)]), Commit(live, accepted),
              actions + [action])
  {
    hide FirstAmbiguous, Open, Of;
    var opening := Opening(registries, stored.row).value;
    PlayExtends(registries, opening.state, opening.outcome, actions, action);
  }

  /** A reassignment changes the stored holder and the live game alike, and
      never the log: no answer's replay depends on who held whom. */
  lemma ReassignRecords(
    registries: Registries, stored: StoredGame, live: Live, actions: seq<PlayerAction>,
    asker: AccountId, investigator: InvestigatorId, to: AccountId)
    requires RecordOf(registries, stored, live, actions)
    requires Reassign(live, asker, investigator, to).Success?
    ensures var reassigned := Reassign(live, asker, investigator, to).value;
            RecordOf(registries, stored.(assignment := stored.assignment[investigator := to]),
              CommitReassignment(live, reassigned), actions)
  {
    ReassignMovesOne(live, asker, investigator, to);
  }

  lemma JoinRecords(
    registries: Registries, stored: StoredGame, live: Live, actions: seq<PlayerAction>, member: AccountId)
    requires RecordOf(registries, stored, live, actions)
    ensures RecordOf(registries,
              stored.(members := if member in stored.members then stored.members else stored.members + [member]),
              Join(live, member), actions)
  {
  }
}
