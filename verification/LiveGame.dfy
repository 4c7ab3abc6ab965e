/** The live game (`protocol::live`): deciding an answer or a reassignment
    without changing anything, and installing one that was accepted. */
module LiveGames {
  import opened Wrappers
  import opened Prompts
  import opened Rng
  import opened Engine
  import opened LoggedAnswers

  type AccountId = int

  /** Which account answers for each investigator. */
  type Assignment = map<InvestigatorId, AccountId>

  /** A live game's fields, as a value. `prompt` is the log position of the
      prompt it awaits; `members` are in the order they joined. */
  datatype Live = Live(
    state: GameState,
    outcome: EngineOutcome,
    setupEvents: seq<Event>,
    prompt: int,
    assignment: Assignment,
    creator: AccountId,
    members: seq<AccountId>)

  datatype Accepted = Accepted(
    answer: LoggedAnswer,
    draws: Uint64,
    state: GameState,
    events: seq<Event>,
    outcome: EngineOutcome)

  datatype Reassigned = Reassigned(asker: AccountId, investigator: InvestigatorId, to: AccountId, assignment: Assignment)

  datatype Refused =
    | StalePrompt
    | NotYours
    | EngineRefused(reason: string)
    | CantRecord(why: Unrecordable)

  datatype ReassignRefusal = NoPromptWaiting | UnknownInvestigator | NotHolder | NotAMember | AlreadyHolds

  predicate Holds(assignment: Assignment, account: AccountId, investigator: InvestigatorId) {
    investigator in assignment && assignment[investigator] == account
  }

  function RecordAnswer(outcome: EngineOutcome, action: PlayerAction): Result<LoggedAnswer, Unrecordable> {
    if outcome.AwaitingInput? then Record(outcome.request, action.investigator, action.response)
    else Failure(NoPrompt)
  }

  function Submit(registries: Registries, live: Live, account: AccountId, prompt: int, action: PlayerAction)
    : Result<Accepted, Refused>
  {
    if prompt != live.prompt then Failure(StalePrompt)
    else if !Holds(live.assignment, account, action.investigator) then Failure(NotYours)
    else
      var result := registries.apply(live.state, action);
      if result.outcome.Rejected? then Failure(EngineRefused(result.outcome.reason))
      else match RecordAnswer(live.outcome, action)
        case Failure(why) => Failure(CantRecord(why))
        case Success(answer) =>
          Success(Accepted(answer, result.state.rng.draws, result.state, result.events, result.outcome))
  }

  function Commit(live: Live, accepted: Accepted): Live {
    live.(state := accepted.state, outcome := accepted.outcome, prompt := live.prompt + 1)
  }

  function Reassign(live: Live, asker: AccountId, investigator: InvestigatorId, to: AccountId)
    : Result<Reassigned, ReassignRefusal>
  {
    if !live.outcome.AwaitingInput? then Failure(NoPromptWaiting)
    else if investigator !in live.assignment then Failure(UnknownInvestigator)
    else if asker != live.creator && asker != live.assignment[investigator] then Failure(NotHolder)
    else if to !in live.members then Failure(NotAMember)
    else if to == live.assignment[investigator] then Failure(AlreadyHolds)
    else
      Success(Reassigned(asker, investigator, to,
        map seated | seated in live.assignment :: if seated == investigator then to else live.assignment[seated]))
  }

  function CommitReassignment(live: Live, reassigned: Reassigned): Live {
    live.(assignment := reassigned.assignment)
  }

  function Join(live: Live, member: AccountId): Live {
    if member in live.members then live else live.(members := live.members + [member])
  }

  /** The prompt awaited can record `action`. */
  predicate Recordable(outcome: EngineOutcome, action: PlayerAction) {
    outcome.AwaitingInput? && AllOffered(outcome.request, action.response)
  }

  predicate Held(live: Live, account: AccountId, action: PlayerAction) {
    action.investigator in live.assignment && live.assignment[action.investigator] == account
  }

  /** `action` answers the awaited prompt, comes from the account that holds its
      investigator, is not rejected by the engine, and can be recorded. */
  predicate Acceptable(registries: Registries, live: Live, account: AccountId, prompt: int, action: PlayerAction) {
    && prompt == live.prompt
    && Held(live, account, action)
    && !registries.apply(live.state, action).outcome.Rejected?
    && Recordable(live.outcome, action)
  }

  /** `refused` names the first of those that `action` fails. */
  ghost predicate FirstFailing(
    registries: Registries, live: Live, account: AccountId, prompt: int, action: PlayerAction, refused: Refused)
  {
    var outcome := registries.apply(live.state, action).outcome;
    if prompt != live.prompt then refused == StalePrompt
    else if !Held(live, account, action) then refused == NotYours
    else if outcome.Rejected? then refused == EngineRefused(outcome.reason)
    else if !live.outcome.AwaitingInput? then refused == CantRecord(NoPrompt)
    else
      && refused.CantRecord?
      && FirstNotOffered(live.outcome.request.options, PickedIds(action.response), refused.why)
  }

  /** **Which answers are accepted.** Exactly the acceptable ones, each recorded
      with what the engine makes of it; of any other, the first thing it fails is
      the refusal. */
  lemma SubmitExactly(registries: Registries, live: Live, account: AccountId, prompt: int, action: PlayerAction)
    ensures match Submit(registries, live, account, prompt, action)
            case Success(accepted) =>
              var result := registries.apply(live.state, action);
              && Acceptable(registries, live, account, prompt, action)
              && Recorded(live.outcome.request, action.investigator, action.response, accepted.answer)
              && accepted == Accepted(accepted.answer, result.state.rng.draws, result.state, result.events, result.outcome)
            case Failure(refused) =>
              && !Acceptable(registries, live, account, prompt, action)
              && FirstFailing(registries, live, account, prompt, action, refused)
  {
    if live.outcome.AwaitingInput? {
      RecordExactly(live.outcome.request, action.investigator, action.response);
      hide Record, Recorded;
    }
  }

  /** **Which reassignments are accepted**: those of a seated investigator while
      a prompt waits, asked by the creator or its holder, to a member who does
      not hold it. Otherwise the first of these that fails refuses it. */
  lemma ReassignExactly(live: Live, asker: AccountId, investigator: InvestigatorId, to: AccountId)
    ensures var waits, seated := live.outcome.AwaitingInput?, investigator in live.assignment;
            var asks := asker == live.creator || (seated && asker == live.assignment[investigator]);
            var member := to in live.members;
            var holds := seated && live.assignment[investigator] == to;
            match Reassign(live, asker, investigator, to)
            case Success(reassigned) =>
              && waits && seated && asks && member && !holds
              && reassigned == Reassigned(asker, investigator, to, live.assignment[investigator := to])
            case Failure(NoPromptWaiting) => !waits
            case Failure(UnknownInvestigator) => waits && !seated
            case Failure(NotHolder) => waits && seated && !asks
            case Failure(NotAMember) => waits && seated && asks && !member
            case Failure(AlreadyHolds) => waits && seated && asks && member && holds
  {
  }

  /** A reassignment moves one investigator between accounts and nothing else:
      the seated investigators stay the same, the new holder is a member, and
      only the creator or the old holder decided it. */
  lemma ReassignMovesOne(live: Live, asker: AccountId, investigator: InvestigatorId, to: AccountId)
    requires Reassign(live, asker, investigator, to).Success?
    ensures var after := CommitReassignment(live, Reassign(live, asker, investigator, to).value);
            && after.assignment == live.assignment[investigator := to]
            && after.assignment.Keys == live.assignment.Keys
            && after == live.(assignment := after.assignment)
            && to in live.members && !Holds(live.assignment, to, investigator)
            && (asker == live.creator || Holds(live.assignment, asker, investigator))
  {
  }

  /** The live game as the server holds it. */
  class LiveGame {
    const registries: Registries
    var state: GameState
    var outcome: EngineOutcome
    const setupEvents: seq<Event>
    var prompt: int
    var assignment: Assignment
    const creator: AccountId
    var members: seq<AccountId>

    function View(): Live
      reads this
    {
      Live(state, outcome, setupEvents, prompt, assignment, creator, members)
    }

    constructor (registries: Registries, live: Live)
      ensures View() == live && this.registries == registries
    {
      this.registries := registries;
      state := live.state;
      outcome := live.outcome;
      setupEvents := live.setupEvents;
      prompt := live.prompt;
      assignment := live.assignment;
      creator := live.creator;
      members := live.members;
    }

    method AddMember(member: AccountId) returns (added: bool)
      modifies this
      ensures added <==> member !in old(members)
      ensures View() == Join(old(View()), member)
    {
      added := false;
      if member !in members {
        members := members + [member];
        added := true;
      }
    }

    method Install(accepted: Accepted)
      modifies this
      ensures View() == Commit(old(View()), accepted)
    {
      prompt := prompt + 1;
      state := accepted.state;
      outcome := accepted.outcome;
    }

    method InstallReassignment(reassigned: Reassigned)
      modifies this
      ensures View() == CommitReassignment(old(View()), reassigned)
    {
      assignment := reassigned.assignment;
    }
  }
}
