/** A game's room (`server::room`): the game in whichever form it is in, changed
    one request at a time under its lock, stored before it is swapped in, and
    broadcast to every connection. */
module Rooms {
  import opened Wrappers
  import opened Prompts
  import opened Rng
  import opened Engine
  import opened LoggedAnswers
  import opened LiveGames
  import opened Store
  import opened Sessions
  import opened Lobbies

  datatype RoomGame = InLobby(lobby: LobbyView) | InPlay(live: Live) | Gone

  /** One committed answer, as every connection is sent it. */
  datatype Applied = Applied(
    answered: int,
    investigator: InvestigatorId,
    response: LoggedResponse,
    prompt: int,
    state: GameState,
    events: seq<Event>,
    outcome: EngineOutcome)

  datatype RoomEvent =
    | LobbyChanged(view: LobbyView)
    | AnswerApplied(applied: Applied)
    | GameStarted(live: Live)
    | MembersChanged(members: seq<AccountId>)
    | InvestigatorAssigned(asker: AccountId, investigator: InvestigatorId, holders: Assignment)
    | Departed(account: AccountId, view: LobbyView)
    | GameDeleted

  datatype ServerMessage =
    | Hello(you: AccountId, creator: AccountId, members: seq<AccountId>, holders: Assignment, prompt: int,
        state: GameState, outcome: EngineOutcome, events: seq<Event>)
    | LobbyMessage(you: AccountId, view: LobbyView, joined: bool)
    | AppliedMessage(applied: Applied)
    | MembersMessage(members: seq<AccountId>)
    | AssignedMessage(asker: AccountId, investigator: InvestigatorId, holders: Assignment)

  /** What a room is run against: the engine and the deck pool. */
  datatype Env = Env(registries: Registries, pool: Pool)

  /** One thing an account asks of a room. A `StartGame` brings the seed the
      server draws for it. */
  datatype Request =
    | Attach(account: AccountId)
    | ChangeLobby(command: LobbyCommand)
    | StartGame(account: AccountId, seed: Uint64)
    | SubmitAnswer(account: AccountId, prompt: int, action: PlayerAction)
    | ReassignTo(asker: AccountId, investigator: InvestigatorId, to: AccountId)
    | DeleteGame(account: AccountId)

  datatype RoomRefusal =
    | DeletedRoom
    | LobbyRefused(why: LobbyRefusal)
    | NotStarted
    | AnswerRefused(refused: Refused)
    | ReassignmentRefused(refusal: ReassignRefusal)
    | NotTheCreator
    | CouldNotStore

  /** What an accepted request still has to do once it is stored. */
  datatype Pending =
    | Attached(account: AccountId, joined: bool)
    | LobbyStored(changed: LobbyView, departing: Option<AccountId>)
    | StartStored(live: Live)
    | AnswerStored(accepted: Accepted)
    | HolderStored(reassigned: Reassigned)
    | RowsDeleted

  // ----- deciding and storing -----

  predicate PickedOnce(picks: seq<Pick>) {
    forall i, j | 0 <= i < j < |picks| :: picks[i].investigator != picks[j].investigator
  }

  /** Store a lobby's picks and lead, and drop a departing member's row: what
      the rows become, unless two picks break their uniqueness, or there are
      picks and no stored lobby they can refer to. */
  function SaveLobby(rows: Rows, view: LobbyView, departing: Option<AccountId>): Option<Rows> {
    if !PickedOnce(view.picks) || (rows.lobby.None? && view.picks != []) then None
    else
      var saved := rows.(
        picks := view.picks,
        lobby := if rows.lobby.None? then None else Some(rows.lobby.value.(lead := view.lead)));
      Some(if departing.Some? then RemoveMemberRow(saved, departing.value) else saved)
  }

  /** Start's transaction: the game and its assignment in, the lobby out. */
  function StoreStart(rows: Rows, newGame: NewGame): Option<Rows> {
    if rows.game.Some? then None
    else Some(StoreNewGame(rows, newGame).(lobby := None, picks := []))
  }

  function CreatorOf(game: RoomGame): AccountId
    requires !game.Gone?
  {
    if game.InLobby? then game.lobby.creator else game.live.creator
  }

  /** Decide `request` in a room holding `game`: refuse it, or say what its one
      write makes of the rows and what is left to do once it is stored. */
  function Decide(env: Env, game: RoomGame, rows: Rows, request: Request): Result<(Rows, Pending), RoomRefusal> {
    match request
    case Attach(account) =>
      if game.Gone? then Failure(DeletedRoom)
      else Success((AddMemberRow(rows, account), Attached(account, account !in rows.members)))
    case ChangeLobby(command) =>
      if game.InLobby? then DecideLobby(env, game.lobby, rows, command) else Failure(LobbyRefused(Started))
    case StartGame(account, seed) =>
      if game.InLobby? then DecideStart(env, game.lobby, rows, account, seed) else Failure(LobbyRefused(Started))
    case SubmitAnswer(account, prompt, action) =>
      if game.InPlay? then DecideAnswer(env, game.live, rows, account, prompt, action) else Failure(NotStarted)
    case ReassignTo(asker, investigator, to) =>
      if game.InPlay? then DecideReassign(game.live, rows, asker, investigator, to) else Failure(NotStarted)
    case DeleteGame(account) =>
      if game.Gone? then Failure(DeletedRoom)
      else if account != CreatorOf(game) then Failure(NotTheCreator)
      else Success((NO_ROWS, RowsDeleted))
  }

  function DecideLobby(env: Env, lobby: LobbyView, rows: Rows, command: LobbyCommand)
    : Result<(Rows, Pending), RoomRefusal>
  {
    match Command(env.pool, lobby, command)
    case Failure(why) => Failure(LobbyRefused(why))
    case Success(changed) =>
      match SaveLobby(rows, changed, Departing(command))
      case None => Failure(CouldNotStore)
      case Some(stored) => Success((stored, LobbyStored(changed, Departing(command))))
  }

  function DecideStart(env: Env, lobby: LobbyView, rows: Rows, account: AccountId, seed: Uint64)
    : Result<(Rows, Pending), RoomRefusal>
  {
    match StartLobby(env.pool, lobby, account)
    case Failure(why) => Failure(LobbyRefused(why))
    case Success(start) =>
      match SetUp(env.registries, account, start, seed)
      case Failure(error) =>
        Failure(LobbyRefused(if error.Seating? then SeatingRefused(error.reason) else LobbyRefusal.Failed))
      case Success(newGame) =>
        match StoreStart(rows, newGame)
        case None => Failure(CouldNotStore)
        case Some(stored) => Success((stored, StartStored(IntoSession(newGame, lobby.members))))
  }

  function DecideAnswer(env: Env, live: Live, rows: Rows, account: AccountId, prompt: int, action: PlayerAction)
    : Result<(Rows, Pending), RoomRefusal>
  {
    match Submit(env.registries, live, account, prompt, action)
    case Failure(refused) => Failure(AnswerRefused(refused))
    case Success(accepted) =>
      match InsertAction(rows, live.prompt, RowOf(accepted))
      case None => Failure(CouldNotStore)
      case Some(stored) => Success((stored, AnswerStored(accepted)))
  }

  function DecideReassign(live: Live, rows: Rows, asker: AccountId, investigator: InvestigatorId, to: AccountId)
    : Result<(Rows, Pending), RoomRefusal>
  {
    match Reassign(live, asker, investigator, to)
    case Failure(refusal) => Failure(ReassignmentRefused(refusal))
    case Success(reassigned) =>
      match UpdateHolder(rows, investigator, to)
      case None => Failure(CouldNotStore)
      case Some(stored) => Success((stored, HolderStored(reassigned)))
  }

  // ----- swapping in and broadcasting -----

  function Joined(game: RoomGame, account: AccountId): RoomGame {
    match game
    case InLobby(lobby) => InLobby(JoinLobby(lobby, account))
    case InPlay(live) => InPlay(Join(live, account))
    case Gone => Gone
  }

  function Members(game: RoomGame): seq<AccountId> {
    match game
    case InLobby(lobby) => lobby.members
    case InPlay(live) => live.members
    case Gone => []
  }

  /** The game once what was stored is swapped in. */
  function Settled(game: RoomGame, pending: Pending): RoomGame {
    match pending
    case Attached(account, joined) => if joined then Joined(game, account) else game
    case LobbyStored(changed, _) => InLobby(changed)
    case StartStored(live) => InPlay(live)
    case AnswerStored(accepted) => if game.InPlay? then InPlay(Commit(game.live, accepted)) else game
    case HolderStored(reassigned) => if game.InPlay? then InPlay(CommitReassignment(game.live, reassigned)) else game
    case RowsDeleted => Gone
  }

  /** What committing an answer to a game at position `prompt` is broadcast as. */
  function AppliedOf(prompt: int, accepted: Accepted): Applied {
    Applied(prompt, accepted.answer.investigator, accepted.answer.response, prompt + 1, accepted.state,
      accepted.events, accepted.outcome)
  }

  /** What the room broadcasts as it swaps it in. */
  function Broadcast(game: RoomGame, pending: Pending): seq<RoomEvent> {
    match pending
    case Attached(account, joined) =>
      if !joined || account in Members(game) then []
      else (match game
        case InLobby(lobby) => [LobbyChanged(JoinLobby(lobby, account))]
        case InPlay(live) => [MembersChanged(Join(live, account).members)]
        case Gone => [])
    case LobbyStored(changed, departing) =>
      [if departing.Some? then Departed(departing.value, changed) else LobbyChanged(changed)]
    case StartStored(live) => [GameStarted(live)]
    case AnswerStored(accepted) =>
      if game.InPlay? then [AnswerApplied(AppliedOf(game.live.prompt, accepted))] else []
    case HolderStored(reassigned) =>
      [InvestigatorAssigned(reassigned.asker, reassigned.investigator, reassigned.assignment)]
    case RowsDeleted => [GameDeleted]
  }

  // ----- what a connection is sent -----

  /** A state as an account may see it: without its random position. */
  function ViewFor(state: GameState): GameState {
    state.(rng := RngPosition(0, 0))
  }

  function HelloFor(account: AccountId, live: Live): ServerMessage {
    Hello(account, live.creator, live.members, live.assignment, live.prompt, ViewFor(live.state), live.outcome,
      live.setupEvents)
  }

  /** The first message an attaching connection is sent. */
  function FirstMessage(game: RoomGame, account: AccountId, joined: bool): ServerMessage
    requires !game.Gone?
  {
    if game.InLobby? then LobbyMessage(account, game.lobby, joined) else HelloFor(account, game.live)
  }

  datatype Outbound = Send(message: ServerMessage) | Close(code: nat)

  const CLOSE_NO_LONGER_A_MEMBER: nat := 4403
  const CLOSE_GAME_DELETED: nat := 4411

  /** What an event makes a connection signed in as `account` do. */
  function OutboundOf(event: RoomEvent, account: AccountId): Outbound {
    match event
    case AnswerApplied(applied) => Send(AppliedMessage(applied.(state := ViewFor(applied.state))))
    case GameStarted(live) => Send(HelloFor(account, live))
    case MembersChanged(members) => Send(MembersMessage(members))
    case InvestigatorAssigned(asker, investigator, holders) => Send(AssignedMessage(asker, investigator, holders))
    case GameDeleted => Close(CLOSE_GAME_DELETED)
    case Departed(departing, view) =>
      if departing == account then Close(CLOSE_NO_LONGER_A_MEMBER) else Send(LobbyMessage(account, view, false))
    case LobbyChanged(view) => Send(LobbyMessage(account, view, false))
  }

  /** The room as the server holds it, over its game's rows. */
  class GameRoom {
    const env: Env
    const db: Database
    var game: RoomGame
    /** Every event broadcast since the room was loaded, in order. */
    var sent: seq<RoomEvent>

    constructor (env: Env, db: Database, game: RoomGame)
      ensures this.env == env && this.db == db && this.game == game && sent == []
    {
      this.env := env;
      this.db := db;
      this.game := game;
      sent := [];
    }

    /** What a request makes of the room: if its write `works`, the rows it
        decided, the game swapped in and its event sent; otherwise nothing. */
    ghost predicate Done(
      request: Request, works: bool, game0: RoomGame, rows0: Rows, sent0: seq<RoomEvent>, refusal: Option<RoomRefusal>)
      reads this, db
    {
      match Decide(env, game0, rows0, request)
      case Failure(why) => refusal == Some(why) && game == game0 && db.rows == rows0 && sent == sent0
      case Success((stored, pending)) =>
        if works then
          refusal == None && game == Settled(game0, pending) && db.rows == stored
          && sent == sent0 + Broadcast(game0, pending)
        else
          refusal == Some(CouldNotStore) && game == game0 && db.rows == rows0 && sent == sent0
    }

    /** Attach a connection: make its account a member, tell the others, then
        subscribe. The connection gets its first message, and every event sent
        from `from` on. */
    method AttachConnection(account: AccountId, works: bool)
      returns (refusal: Option<RoomRefusal>, first: Option<ServerMessage>, from: nat)
      modifies this, db
      ensures Done(Attach(account), works, old(game), old(db.rows), old(sent), refusal)
      ensures refusal == None ==>
                && !game.Gone? && from == |sent|
                && first == Some(FirstMessage(game, account, account !in old(db.rows).members))
    {
      refusal, first, from := None, None, 0;
      if game.Gone? {
        return Some(DeletedRoom), None, 0;
      }
      var ok, joined := db.StoreMember(account, works);
      if !ok {
        return Some(CouldNotStore), None, 0;
      }
      match game {
        case InPlay(live) =>
          if joined && account !in live.members {
            var members := live.members + [account];
            game := InPlay(live.(members := members));
            sent := sent + [MembersChanged(members)];
          }
        case InLobby(lobby) =>
          if joined && account !in lobby.members {
            var changed := lobby.(members := lobby.members + [account]);
            game := InLobby(changed);
            sent := sent + [LobbyChanged(changed)];
          }
      }
      first := Some(FirstMessage(game, account, joined));
      from := |sent|;
    }

    /** Apply a lobby command to a copy, store it, then replace the lobby and
        broadcast it. */
    method ApplyToLobby(command: LobbyCommand, works: bool) returns (refusal: Option<RoomRefusal>)
      modifies this, db
      ensures Done(ChangeLobby(command), works, old(game), old(db.rows), old(sent), refusal)
    {
      if !game.InLobby? {
        return Some(LobbyRefused(Started));
      }
      match Command(env.pool, game.lobby, command) {
        case Failure(why) => return Some(LobbyRefused(why));
        case Success(changed) =>
          var departing := Departing(command);
          var stored := SaveLobby(db.rows, changed, departing);
          if !works || stored.None? {
            return Some(CouldNotStore);
          }
          db.Transact(stored.value, works);
          game := InLobby(changed);
          var event := if departing.Some? then Departed(departing.value, changed) else LobbyChanged(changed);
          sent := sent + [event];
          return None;
      }
    }

    /** Start the lobby: seat it, store the game and delete the lobby in one
        transaction, then switch the room to it and broadcast it. */
    method Start(account: AccountId, seed: Uint64, works: bool) returns (refusal: Option<RoomRefusal>)
      modifies this, db
      ensures Done(StartGame(account, seed), works, old(game), old(db.rows), old(sent), refusal)
    {
      if !game.InLobby? {
        return Some(LobbyRefused(Started));
      }
      var start := StartLobby(env.pool, game.lobby, account);
      if start.Failure? {
        return Some(LobbyRefused(start.error));
      }
      var seated := SetUp(env.registries, account, start.value, seed);
      if seated.Failure? {
        return Some(LobbyRefused(if seated.error.Seating? then SeatingRefused(seated.error.reason) else Failed));
      }
      var stored := StoreStart(db.rows, seated.value);
      if !works || stored.None? {
        return Some(CouldNotStore);
      }
      db.Transact(stored.value, works);
      var live := IntoSession(seated.value, game.lobby.members);
      game := InPlay(live);
      sent := sent + [GameStarted(live)];
      return None;
    }

    /** Apply an answer, then broadcast it under the same lock. */
    method Answer(account: AccountId, prompt: int, action: PlayerAction, works: bool)
      returns (refusal: Option<RoomRefusal>)
      modifies this, db
      ensures Done(SubmitAnswer(account, prompt, action), works, old(game), old(db.rows), old(sent), refusal)
      ensures refusal == None ==>
                old(game).InPlay? && Acceptable(env.registries, old(game).live, account, prompt, action)
    {
      if !game.InPlay? {
        return Some(NotStarted);
      }
      SubmitExactly(env.registries, game.live, account, prompt, action);
      hide Acceptable, FirstFailing, Recorded;
      var live := game.live;
      match Submit(env.registries, live, account, prompt, action) {
        case Failure(refused) => return Some(AnswerRefused(refused));
        case Success(accepted) =>
          var ok := db.StoreAction(live.prompt, RowOf(accepted), works);
          if !ok {
            return Some(CouldNotStore);
          }
          game := InPlay(Commit(live, accepted));
          sent := sent + [AnswerApplied(AppliedOf(live.prompt, accepted))];
          return None;
      }
    }

    method Reassignment(asker: AccountId, investigator: InvestigatorId, to: AccountId, works: bool)
      returns (refusal: Option<RoomRefusal>)
      modifies this, db
      ensures Done(ReassignTo(asker, investigator, to), works, old(game), old(db.rows), old(sent), refusal)
    {
      if !game.InPlay? {
        return Some(NotStarted);
      }
      match Reassign(game.live, asker, investigator, to) {
        case Failure(why) => return Some(ReassignmentRefused(why));
        case Success(reassigned) =>
          var ok := db.StoreHolder(investigator, to, works);
          if !ok {
            return Some(CouldNotStore);
          }
          game := InPlay(CommitReassignment(game.live, reassigned));
          sent := sent + [InvestigatorAssigned(reassigned.asker, reassigned.investigator, reassigned.assignment)];
          return None;
      }
    }

    method Delete(account: AccountId, works: bool) returns (refusal: Option<RoomRefusal>)
      modifies this, db
      ensures Done(DeleteGame(account), works, old(game), old(db.rows), old(sent), refusal)
      ensures refusal == None <==>
                && works
                && ((old(game).InLobby? && account == old(game).lobby.creator)
                    || (old(game).InPlay? && account == old(game).live.creator))
    {
      if game.Gone? {
        return Some(DeletedRoom);
      }
      if account != CreatorOf(game) {
        return Some(NotTheCreator);
      }
      if !works {
        return Some(CouldNotStore);
      }
      db.Transact(NO_ROWS, works);
      game := Gone;
      sent := sent + [GameDeleted];
      return None;
    }
  }
}
