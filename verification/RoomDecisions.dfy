/** Who may ask what of a room, when the store refuses what the room decided,
    and whose connections an event closes. */
module RoomDecisions {
  import opened Wrappers
  import opened Prompts
  import opened Rng
  import opened Engine
  import opened LoggedAnswers
  import opened LiveGames
  import opened Store
  import opened Sessions
  import opened Replays
  import opened Lobbies
  import opened LobbyRuns
  import opened LobbyCommands
  import opened Rooms
  import opened RoomRuns

  // ----- who may ask -----

  /** What each request asks of the room and of its sender: a room that is not
      gone; a lobby, and a command it accepts; the creator, with picks to seat;
      the awaited prompt's position, from the account holding the investigator
      that answers; its holder or the creator, for a member; the creator. */
  ghost predicate Allowed(env: Env, game: RoomGame, request: Request) {
    match request
    case Attach(_) => !game.Gone?
    case ChangeLobby(command) => game.InLobby? && Accepts(env.pool, game.lobby, command)
    case StartGame(account, _) => game.InLobby? && account == game.lobby.creator && game.lobby.picks != []
    case SubmitAnswer(account, prompt, action) =>
      && game.InPlay? && prompt == game.live.prompt
      && action.investigator in game.live.assignment && game.live.assignment[action.investigator] == account
    case ReassignTo(asker, investigator, to) =>
      && game.InPlay? && investigator in game.live.assignment
      && (asker == game.live.creator || asker == game.live.assignment[investigator])
      && to in game.live.members
    case DeleteGame(account) =>
      (game.InLobby? && account == game.lobby.creator) || (game.InPlay? && account == game.live.creator)
  }

  /** **Only what is allowed is decided.** And an attach or a delete that is
      allowed is never refused. */
  lemma OnlyAllowed(env: Env, game: RoomGame, rows: Rows, request: Request)
    ensures Decide(env, game, rows, request).Success? ==> Allowed(env, game, request)
    ensures request.DeleteGame? ==>
              match Decide(env, game, rows, request)
              case Success((stored, pending)) => Allowed(env, game, request) && stored == NO_ROWS && pending == RowsDeleted
              case Failure(why) =>
                !Allowed(env, game, request) && why == if game.Gone? then DeletedRoom else NotTheCreator
    ensures request.Attach? ==>
              match Decide(env, game, rows, request)
              case Success((stored, pending)) =>
                && !game.Gone? && request.account in stored.members && stored == rows.(members := stored.members)
                && stored.members == (if request.account in rows.members then rows.members else rows.members + [request.account])
                && pending == Attached(request.account, request.account !in rows.members)
              case Failure(why) => game.Gone? && why == DeletedRoom
  {
    match request
    case ChangeLobby(command) =>
      if game.InLobby? { CommandExactly(env.pool, game.lobby, command); }
      hide Command, Accepts, Refuses, PicksBecome, MembersBecome, SaveLobby;
    case SubmitAnswer(account, prompt, action) =>
      if game.InPlay? { SubmitExactly(env.registries, game.live, account, prompt, action); }
      hide Submit, Recordable, Recorded, FirstFailing;
    case ReassignTo(asker, investigator, to) =>
      if game.InPlay? { ReassignExactly(game.live, asker, investigator, to); }
      hide Reassign;
    case StartGame(_, _) => hide SetUp, RosterOf, InSeatingOrder, LeadIndex;
    case _ =>
  }

  /** **Every answer of every run was asked by its investigator's holder**, at
      the position of the log it is stored at. */
  lemma AnsweredByHolders(env: Env, w: World)
    requires Reached(env, w)
    ensures |w.asked| == |w.answers|
    ensures forall k | 0 <= k < |w.answers| ::
              && w.asked[k].prompt == k
              && w.answers[k].investigator in w.asked[k].holders
              && w.asked[k].holders[w.answers[k].investigator] == w.asked[k].account
  {
    ReachedInv(env, w);
    hide Stored, InStep, AllSynced, PendingFits, Reached;
  }

  // ----- what the store refuses -----

  /** With no row of its game left, an answer or a new holder the game accepts,
      and a lobby with picks, have nothing to refer to. */
  ghost predicate NothingToReferTo(env: Env, game: RoomGame, request: Request) {
    match request
    case SubmitAnswer(account, prompt, action) =>
      game.InPlay? && Submit(env.registries, game.live, account, prompt, action).Success?
    case ReassignTo(asker, investigator, to) =>
      game.InPlay? && Reassign(game.live, asker, investigator, to).Success?
    case ChangeLobby(command) =>
      && game.InLobby? && Command(env.pool, game.lobby, command).Success?
      && Command(env.pool, game.lobby, command).value.picks != []
    case _ => false
  }

  lemma RecordedNeverRefused(env: Env, rows: Rows, game: RoomGame, played: RoomGame, answers: seq<PlayerAction>, request: Request)
    requires Records(env, rows, played, answers) && (game == played || SameBut(game, played))
    ensures Decide(env, game, rows, request) != Failure(CouldNotStore)
  {
    match request
    case Attach(_) =>
    case ChangeLobby(command) =>
      if game.InLobby? && Command(env.pool, game.lobby, command).Success? {
        CommandKeepsValid(env.pool, game.lobby, command);
      }
      hide Command, RecordOf;
    case StartGame(_, _) => hide SetUp, StartLobby, ValidLobby, RecordOf;
    case SubmitAnswer(account, prompt, action) => AnswerNeverRefused(env, rows, game, played, answers, request);
    case ReassignTo(_, _, _) => HolderNeverRefused(env, rows, game, played, answers, request);
    case DeleteGame(_) =>
  }

  lemma AnswerNeverRefused(env: Env, rows: Rows, game: RoomGame, played: RoomGame, answers: seq<PlayerAction>, request: Request)
    requires Records(env, rows, played, answers) && (game == played || SameBut(game, played)) && request.SubmitAnswer?
    ensures Decide(env, game, rows, request) != Failure(CouldNotStore)
  {
    if game.InPlay? {
      var stored := StoredGame(rows.game.value, rows.assignment, rows.members, Dense(rows.actions, |answers|));
      PromptIsLogLength(env.registries, stored, played.live, answers);
    }
    hide RecordOf, Submit;
  }

  lemma HolderNeverRefused(env: Env, rows: Rows, game: RoomGame, played: RoomGame, answers: seq<PlayerAction>, request: Request)
    requires Records(env, rows, played, answers) && (game == played || SameBut(game, played)) && request.ReassignTo?
    ensures Decide(env, game, rows, request) != Failure(CouldNotStore)
  {
    if game.InPlay? {
      var stored := StoredGame(rows.game.value, rows.assignment, rows.members, Dense(rows.actions, |answers|));
      PromptIsLogLength(env.registries, stored, played.live, answers);
      ReassignExactly(game.live, request.asker, request.investigator, request.to);
    }
    hide RecordOf, Reassign;
  }

  lemma OrphansRefuse(env: Env, rows: Rows, game: RoomGame, request: Request)
    requires Orphaned(rows) && (game.InLobby? ==> ValidLobby(env.pool, game.lobby))
    ensures Decide(env, game, rows, request) == Failure(CouldNotStore) <==> NothingToReferTo(env, game, request)
  {
    match request
    case ChangeLobby(command) =>
      if game.InLobby? && Command(env.pool, game.lobby, command).Success? {
        CommandKeepsValid(env.pool, game.lobby, command);
      }
      hide Command;
    case SubmitAnswer(_, _, _) => hide Submit;
    case ReassignTo(_, _, _) => hide Reassign;
    case StartGame(_, _) => hide SetUp, StartLobby, ValidLobby;
    case _ =>
  }

  /** **The store never refuses what a room decided**: no key of a table is ever
      in the way, in any run, but in a room whose delete was dropped, and there
      exactly for what refers to the rows that went. */
  lemma StoreNeverRefuses(env: Env, w: World, request: Request)
    requires Reached(env, w) && w.game.Some? && w.pending.None?
    ensures Decide(env, w.game.value, w.rows, request) == Failure(CouldNotStore)
            <==> w.tie.Cut? && NothingToReferTo(env, w.game.value, request)
  {
    ReachedInv(env, w);
    hide Reached, AllSynced, PendingFits, Records, Decide, ValidLobby, NothingToReferTo, Orphaned;
    if w.tie.Cut? {
      OrphansRefuse(env, w.rows, w.game.value, request);
    } else {
      RecordedNeverRefused(env, w.rows, w.game.value, w.played, w.answers, request);
    }
  }

  // ----- what is stored and told -----

  /** **One answer, stored and told alike.** Of an accepted answer the row at its
      own position and the one event hold the same record, by the investigator
      that answered, and what the engine made of the answer. */
  lemma AnswerTold(env: Env, live: Live, rows: Rows, account: AccountId, prompt: int, action: PlayerAction)
    requires DecideAnswer(env, live, rows, account, prompt, action).Success?
    ensures var (stored, pending) := DecideAnswer(env, live, rows, account, prompt, action).value;
      var result := env.registries.apply(live.state, action);
      var events := Broadcast(InPlay(live), pending);
      && prompt in stored.actions && IsColumn(stored.actions[prompt].draws)
      && var row := stored.actions[prompt];
      && stored == rows.(actions := rows.actions[prompt := row])
      && live.outcome.AwaitingInput?
      && Recorded(live.outcome.request, action.investigator, action.response, row.answer)
      && FromSqlInteger(row.draws) == result.state.rng.draws
      && events == [AnswerApplied(Rooms.Applied(prompt, action.investigator, row.answer.response, prompt + 1,
                      result.state, result.events, result.outcome))]
  {
    SubmitExactly(env.registries, live, account, prompt, action);
    hide Recorded, FirstFailing;
  }

  /** **Who is told what** of every other request: nobody of an attach that made
      nobody a member; else the members as they are then; the lobby as it is,
      and who departed; the game started; who reassigned whom, and all holders;
      or the deletion. */
  lemma RequestTold(env: Env, game: RoomGame, rows: Rows, request: Request)
    requires Decide(env, game, rows, request).Success? && !request.SubmitAnswer?
    ensures var (stored, pending) := Decide(env, game, rows, request).value;
      var events, after := Broadcast(game, pending), Settled(game, pending);
      match request
      case Attach(account) =>
        if account in rows.members || account in Members(game) then events == []
        else if game.InLobby? then after.InLobby? && events == [LobbyChanged(after.lobby)]
        else after.InPlay? && events == [MembersChanged(after.live.members)]
      case ChangeLobby(LeaveCommand(account)) => after.InLobby? && events == [Departed(account, after.lobby)]
      case ChangeLobby(RemoveCommand(_, member)) => after.InLobby? && events == [Departed(member, after.lobby)]
      case ChangeLobby(_) => after.InLobby? && events == [LobbyChanged(after.lobby)]
      case StartGame(_, _) => after.InPlay? && events == [GameStarted(after.live)]
      case ReassignTo(asker, investigator, to) =>
        && after.InPlay? && stored.assignment == rows.assignment[investigator := to]
        && events == [InvestigatorAssigned(asker, investigator, after.live.assignment)]
      case DeleteGame(_) => after.Gone? && events == [GameDeleted]
      case _ => true
  {
    match request
    case ReassignTo(asker, investigator, to) => ReassignExactly(game.live, asker, investigator, to);
    case _ =>
    hide Command, Submit, SetUp, StartLobby, SaveLobby, Reassign;
  }

  /** An attaching connection is told who it is and, of a lobby, whether it just
      joined; every later message is addressed to it. */
  lemma ToldWho(game: RoomGame, account: AccountId, joined: bool, view: LobbyView, live: Live)
    requires !game.Gone?
    ensures FirstMessage(game, account, joined).you == account
    ensures game.InLobby? ==> FirstMessage(game, account, joined) == LobbyMessage(account, game.lobby, joined)
    ensures OutboundOf(LobbyChanged(view), account) == Send(LobbyMessage(account, view, false))
    ensures OutboundOf(GameStarted(live), account) == Send(HelloFor(account, live)) && HelloFor(account, live).you == account
  {
  }

  // ----- who is closed, and what is shown -----

  /** The request puts `account` out of the room: it deletes the game, or the
      account leaves or is removed. */
  predicate PutsOut(request: Request, account: AccountId) {
    match request
    case DeleteGame(_) => true
    case ChangeLobby(LeaveCommand(leaving)) => leaving == account
    case ChangeLobby(RemoveCommand(_, member)) => member == account
    case _ => false
  }

  /** **Whose connections are closed.** Of every request that is decided, what is
      broadcast closes exactly the connections of the accounts it puts out, and
      says which of the two it was. */
  lemma ClosesExactly(env: Env, game: RoomGame, rows: Rows, request: Request, account: AccountId)
    requires Decide(env, game, rows, request).Success?
    ensures var (_, pending) := Decide(env, game, rows, request).value;
            var events := Broadcast(game, pending);
            && |events| <= 1
            && ((exists k | 0 <= k < |events| :: OutboundOf(events[k], account).Close?) <==> PutsOut(request, account))
            && (PutsOut(request, account) ==>
                  OutboundOf(events[0], account) == Close(if request.DeleteGame? then 4411 else 4403))
  {
    hide Command, Submit, Reassign, SetUp, StartLobby, SaveLobby;
    var (_, pending) := Decide(env, game, rows, request).value;
    var events := Broadcast(game, pending);
    if events != [] {
      assert events == [events[0]];
      assert OutboundOf(events[0], account).Close? <==> PutsOut(request, account);
    }
  }

  /** No client can tell where the random stream stands: neither a first message
      nor an event shows it. */
  lemma StreamNeverShown(game: RoomGame, account: AccountId, joined: bool, rng: RngPosition, applied: Rooms.Applied)
    requires !game.Gone?
    ensures game.InPlay? ==>
              var other := game.live.(state := game.live.state.(rng := rng));
              && FirstMessage(InPlay(other), account, joined) == FirstMessage(game, account, joined)
              && OutboundOf(GameStarted(other), account) == OutboundOf(GameStarted(game.live), account)
    ensures OutboundOf(AnswerApplied(applied.(state := applied.state.(rng := rng))), account)
            == OutboundOf(AnswerApplied(applied), account)
  {
  }
}
