/** Runs of a room: requests, each stored then settled, with failed writes and
    crashes anywhere, reloads, and connections coming and going. */
module RoomRuns {
  import opened Wrappers
  import opened Prompts
  import opened Rng
  import opened Engine
  import opened LoggedAnswers
  import opened LiveGames
  import opened Store
  import opened Sessions
  import opened Replays
  import opened Lobbies
  import opened LobbyRuns
  import opened Rooms

  // ----- what a client makes of its messages -----

  datatype ClientView =
    | WatchingLobby(you: AccountId, view: LobbyView)
    | Playing(you: AccountId, creator: AccountId, members: seq<AccountId>, holders: Assignment, prompt: int,
        state: GameState, outcome: EngineOutcome, setupEvents: seq<Event>)
    | Closed(code: nat)
    | Desynced

  /** A connection's first message. */
  function ViewOf(message: ServerMessage): ClientView {
    match message
    case LobbyMessage(you, view, _) => WatchingLobby(you, view)
    case Hello(you, creator, members, holders, prompt, state, outcome, events) =>
      Playing(you, creator, members, holders, prompt, state, outcome, events)
    case _ => Desynced
  }

  /** One event more. An answer for any position but the one awaited would be
      one counted twice or missed, and desyncs the client; so would a message
      that fits no view it has. */
  function Receive(view: ClientView, out: Outbound): ClientView {
    if view.Closed? || view.Desynced? then view
    else match out
      case Close(code) => Closed(code)
      case Send(Hello(you, creator, members, holders, prompt, state, outcome, events)) =>
        Playing(you, creator, members, holders, prompt, state, outcome, events)
      case Send(LobbyMessage(you, lobby, _)) =>
        if view.WatchingLobby? then WatchingLobby(you, lobby) else Desynced
      case Send(AppliedMessage(applied)) =>
        if view.Playing? && applied.answered == view.prompt
        then view.(prompt := applied.prompt, state := applied.state, outcome := applied.outcome)
        else Desynced
      case Send(MembersMessage(members)) => if view.Playing? then view.(members := members) else Desynced
      case Send(AssignedMessage(_, _, holders)) => if view.Playing? then view.(holders := holders) else Desynced
  }

  function Watch(view: ClientView, account: AccountId, events: seq<RoomEvent>): ClientView
    decreases |events|
  {
    if events == [] then view
    else Watch(Receive(view, OutboundOf(events[0], account)), account, events[1..])
  }

  /** What the room's game looks like to `account`. */
  function Current(game: RoomGame, account: AccountId): ClientView {
    match game
    case InLobby(lobby) => WatchingLobby(account, lobby)
    case InPlay(live) =>
      Playing(account, live.creator, live.members, live.assignment, live.prompt, ViewFor(live.state), live.outcome,
        live.setupEvents)
    case Gone => Closed(CLOSE_GAME_DELETED)
  }

  predicate Closes(event: RoomEvent, account: AccountId) {
    event.GameDeleted? || (event.Departed? && event.account == account)
  }

  predicate ClosedBy(events: seq<RoomEvent>, account: AccountId) {
    exists k | 0 <= k < |events| :: Closes(events[k], account)
  }

  // ----- the world one game id's rows and room make -----

  /** An attached connection: the message it was sent first, and where in the
      room's events its subscription starts. */
  datatype Conn = Conn(account: AccountId, first: ServerMessage, from: nat)

  /** Whether a loaded room still holds what its rows record. A delete dropped
      after its write cuts the two apart; a delete that settles joins them again,
      and so does Start, but for the members, whose rows went and do not come
      back until they attach again. */
  datatype Tie = Whole | Cut | Restarted

  /** Who asked an answer and to which prompt, and who held whom then. */
  datatype Asked = Asked(account: AccountId, prompt: int, holders: Assignment)

  /** `game` is `None` while no room is loaded. `pending` is what a request
      stored under the lock has still to settle. `played`, `answers` and `asked`
      are the history the rest is checked against: what the requests stored so
      far make of the game, the answers among them, and who asked each. */
  datatype World = World(
    rows: Rows,
    game: Option<RoomGame>,
    pending: Option<(Pending, nat)>,
    sent: seq<RoomEvent>,
    conns: map<nat, Conn>,
    played: RoomGame,
    answers: seq<PlayerAction>,
    asked: seq<Asked>,
    tie: Tie)

  datatype Step =
    /** A request takes the free lock, is decided, and its write made; `conn`
        names the connection an attach opens. */
    | Ask(request: Request, works: bool, conn: nat)
    /** What was stored is swapped in and broadcast, and the lock freed. */
    | Settle
    /** A delete's request is dropped, its client gone, once its rows went and
        before the room was told: the lock is freed, and memory keeps the game. */
    | DropDelete
    | Disconnect(conn: nat)
    /** The process stops, or the idle room is evicted: only the rows stay. */
    | Crash
    | Load

  function AnswersAfter(answers: seq<PlayerAction>, request: Request): seq<PlayerAction> {
    match request
    case SubmitAnswer(_, _, action) => answers + [action]
    case DeleteGame(_) => []
    case _ => answers
  }

  function AskedAfter(asked: seq<Asked>, game: RoomGame, request: Request): seq<Asked> {
    match request
    case SubmitAnswer(account, prompt, _) =>
      if game.InPlay? then asked + [Asked(account, prompt, game.live.assignment)] else asked
    case DeleteGame(_) => []
    case _ => asked
  }

  function AskStep(env: Env, w: World, request: Request, works: bool, conn: nat): World {
    if w.game.None? || w.pending.Some? || !works || (request.Attach? && conn in w.conns) then w
    else match Decide(env, w.game.value, w.rows, request)
      case Failure(_) => w
      case Success((stored, pending)) =>
        w.(rows := stored, pending := Some((pending, conn)),
           played := PlayedAfter(w, stored, pending), answers := AnswersAfter(w.answers, request),
           asked := AskedAfter(w.asked, w.game.value, request),
           tie := if pending.RowsDeleted? then Whole
                  else if w.tie.Cut? && pending.StartStored? then Restarted
                  else w.tie)
  }

  /** What the rows are the record of, once `pending` is stored. While memory is
      cut off, only Start stores anything a load would find. */
  function PlayedAfter(w: World, stored: Rows, pending: Pending): RoomGame {
    if !w.tie.Cut? then Settled(w.played, pending)
    else if pending.StartStored? then InPlay(pending.live.(members := stored.members))
    else Gone
  }

  function DropStep(w: World): World {
    if w.game.None? || w.pending.None? || !w.pending.value.0.RowsDeleted? then w
    else w.(pending := None, tie := Cut)
  }

  function SettleStep(w: World): World {
    if w.game.None? || w.pending.None? then w
    else
      var (pending, conn) := w.pending.value;
      var game := Settled(w.game.value, pending);
      var sent := w.sent + Broadcast(w.game.value, pending);
      var conns := if pending.Attached? && !game.Gone?
        then w.conns[conn := Conn(pending.account, FirstMessage(game, pending.account, pending.joined), |sent|)]
        else w.conns;
      w.(game := Some(game), pending := None, sent := sent, conns := conns)
  }

  /** A room loaded afresh from the rows: a started game first, else a lobby. */
  ghost function LoadedGame(env: Env, rows: Rows): Option<RoomGame> {
    match Read(rows)
    case Some(stored) =>
      if !Columns(stored) then None
      else (match Rebuild(env.registries, stored)
        case Failure(_) => None
        case Success(live) => Some(InPlay(live)))
    case None =>
      match rows.lobby
      case None => None
      case Some(row) => Some(InLobby(LobbyView(row.scenarioId, row.creator, rows.members, rows.picks, row.lead)))
  }

  ghost function Next(env: Env, w: World, step: Step): World {
    match step
    case Ask(request, works, conn) => AskStep(env, w, request, works, conn)
    case Settle => SettleStep(w)
    case DropDelete => DropStep(w)
    case Disconnect(conn) => w.(conns := w.conns - {conn})
    case Crash =>
      w.(game := None, pending := None, sent := [], conns := map[], tie := if w.tie.Restarted? then Whole else w.tie)
    case Load => if w.game.Some? then w else w.(game := LoadedGame(env, w.rows))
  }

  ghost function Run(env: Env, w: World, steps: seq<Step>): World
    decreases |steps|
  {
    if steps == [] then w else Run(env, Next(env, w, steps[0]), steps[1..])
  }

  /** A game just created: its lobby's row, its creator the first member. */
  function Created(scenarioId: ScenarioId, creator: AccountId): World {
    World(NO_ROWS.(lobby := Some(LobbyRow(scenarioId, creator, None)), members := [creator]),
      None, None, [], map[], InLobby(LobbyView(scenarioId, creator, [creator], [], None)), [], [], Whole)
  }

  // ----- invariants -----

  /** The rows record `game`: all of a lobby, or a started game as its creation
      inputs, holders, members and a dense log of `answers`; never both. */
  ghost predicate Records(env: Env, rows: Rows, game: RoomGame, answers: seq<PlayerAction>) {
    match game
    case InLobby(lobby) =>
      && rows == Rows(Some(LobbyRow(lobby.scenarioId, lobby.creator, lobby.lead)), lobby.picks, lobby.members,
                   None, map[], map[])
      && ValidLobby(env.pool, lobby)
      && answers == []
    case InPlay(live) =>
      && rows.lobby.None? && rows.picks == []
      && DenseLog(rows.actions, |answers|)
      && rows.game.Some?
      && RecordOf(env.registries,
           StoredGame(rows.game.value, rows.assignment, rows.members, Dense(rows.actions, |answers|)), live, answers)
      && live.assignment != map[]
    case Gone => rows == NO_ROWS && answers == []
  }

  /** Nothing is stored but the members who attached since. */
  predicate Orphaned(rows: Rows) {
    rows == NO_ROWS.(members := rows.members)
  }

  ghost predicate Stored(env: Env, w: World) {
    if w.tie.Cut? then Orphaned(w.rows) && w.played == Gone && w.answers == []
    else Records(env, w.rows, w.played, w.answers)
  }

  /** The game memory holds, once what is stored is swapped in. */
  function Settling(w: World): RoomGame
    requires w.game.Some?
  {
    if w.pending.None? then w.game.value else Settled(w.game.value, w.pending.value.0)
  }

  predicate SameBut(game: RoomGame, played: RoomGame) {
    game.InPlay? && played.InPlay? && game.live == played.live.(members := game.live.members)
  }

  /** Memory is, or is one settle away from, the game the requests stored so far
      make; or, since a delete was cut off, that game but for its members, or a
      game no row is left of. */
  ghost predicate InStep(env: Env, w: World) {
    if w.game.None? then w.pending.None? && w.sent == [] && w.conns == map[] && !w.tie.Restarted?
    else
      && (w.game.value.InLobby? ==> ValidLobby(env.pool, w.game.value.lobby))
      && match w.tie
         case Whole => Settling(w) == w.played
         case Cut => !Settling(w).Gone? && (Settling(w).InLobby? ==> ValidLobby(env.pool, Settling(w).lobby))
         case Restarted => SameBut(Settling(w), w.played)
  }

  /** A connection's first message, with every event sent since, delivered or
      queued, is the room's game as its account sees it: or it was closed. */
  ghost predicate Synced(conn: Conn, game: RoomGame, sent: seq<RoomEvent>) {
    && conn.from <= |sent|
    && var seen := Watch(ViewOf(conn.first), conn.account, sent[conn.from..]);
    && if ClosedBy(sent[conn.from..], conn.account) then seen.Closed? else seen == Current(game, conn.account)
  }

  ghost predicate AllSynced(w: World) {
    w.game.Some? ==> forall c | c in w.conns :: Synced(w.conns[c], w.game.value, w.sent)
  }

  /** A pending swap is one its game's form can take. */
  ghost predicate PendingFits(w: World) {
    w.game.Some? && w.pending.Some? ==> Fits(w.game.value, w.pending.value.0)
  }

  predicate Fits(game: RoomGame, pending: Pending) {
    match pending
    case Attached(_, _) => !game.Gone?
    case LobbyStored(_, _) => game.InLobby?
    case StartStored(_) => game.InLobby?
    case AnswerStored(_) => game.InPlay?
    case HolderStored(_) => game.InPlay?
    case RowsDeleted => !game.Gone?
  }

  /** Each answer was asked at its own place in the log, by the account that
      held its investigator then. */
  ghost predicate AskedByHolders(answers: seq<PlayerAction>, asked: seq<Asked>) {
    && |asked| == |answers|
    && forall k | 0 <= k < |answers| ::
         && asked[k].prompt == k
         && answers[k].investigator in asked[k].holders
         && asked[k].holders[answers[k].investigator] == asked[k].account
  }

  ghost predicate Inv(env: Env, w: World) {
    && Stored(env, w)
    && AskedByHolders(w.answers, w.asked)
    && InStep(env, w)
    && PendingFits(w)
    && AllSynced(w)
  }

  // ----- storing a request keeps the record -----

  lemma AttachRecords(env: Env, rows: Rows, game: RoomGame, answers: seq<PlayerAction>, account: AccountId)
    requires Records(env, rows, game, answers) && !game.Gone?
    ensures Records(env, AddMemberRow(rows, account),
              Settled(game, Attached(account, account !in rows.members)), answers)
  {
    if game.InLobby? {
      JoinKeepsValid(env.pool, game.lobby, account);
    } else {
      var stored := StoredGame(rows.game.value, rows.assignment, rows.members, Dense(rows.actions, |answers|));
      JoinRecords(env.registries, stored, game.live, answers, account);
    }
  }

  lemma LobbyRecords(env: Env, rows: Rows, lobby: LobbyView, command: LobbyCommand)
    requires Records(env, rows, InLobby(lobby), [])
    requires DecideLobby(env, lobby, rows, command).Success?
    ensures var (stored, pending) := DecideLobby(env, lobby, rows, command).value;
            Records(env, stored, Settled(InLobby(lobby), pending), [])
  {
    var changed := Command(env.pool, lobby, command).value;
    CommandKeepsValid(env.pool, lobby, command);
    CommandMembers(env.pool, lobby, command);
  }

  /** A command changes the members only by departing one, as its row is. */
  lemma CommandMembers(pool: Pool, lobby: LobbyView, command: LobbyCommand)
    requires Command(pool, lobby, command).Success?
    ensures var changed := Command(pool, lobby, command).value;
            && changed.scenarioId == lobby.scenarioId && changed.creator == lobby.creator
            && changed.members == (if Departing(command).Some?
                 then Without(lobby.members, Departing(command).value) else lobby.members)
  {
  }

  lemma StartRecords(env: Env, rows: Rows, lobby: LobbyView, account: AccountId, seed: Uint64)
    requires Records(env, rows, InLobby(lobby), [])
    requires DecideStart(env, lobby, rows, account, seed).Success?
    ensures var (stored, pending) := DecideStart(env, lobby, rows, account, seed).value;
            Records(env, stored, Settled(InLobby(lobby), pending), [])
  {
    hide RecordOf, ValidLobby, SetUp;
    var start := StartLobby(env.pool, lobby, account).value;
    StartSeatsPicks(env.pool, lobby);
    SetUpRecords(env.registries, account, start, seed, lobby.members);
    var (stored, _) := DecideStart(env, lobby, rows, account, seed).value;
    assert Dense(stored.actions, 0) == [];
  }

  lemma AnswerRecords(
    env: Env, rows: Rows, live: Live, answers: seq<PlayerAction>, account: AccountId, prompt: int, action: PlayerAction)
    requires Records(env, rows, InPlay(live), answers)
    requires DecideAnswer(env, live, rows, account, prompt, action).Success?
    ensures var (stored, pending) := DecideAnswer(env, live, rows, account, prompt, action).value;
            Records(env, stored, Settled(InPlay(live), pending), answers + [action])
  {
    hide Submit;
    var stored := StoredGame(rows.game.value, rows.assignment, rows.members, Dense(rows.actions, |answers|));
    CommitRecords(env.registries, stored, live, answers, account, prompt, action);
    var accepted := Submit(env.registries, live, account, prompt, action).value;
    PromptIsLogLength(env.registries, stored, live, answers);
    var (after, _) := DecideAnswer(env, live, rows, account, prompt, action).value;
    assert Dense(after.actions, |answers| + 1) == Dense(rows.actions, |answers|) + [RowOf(accepted)];
    hide RecordOf;
  }

  lemma PromptIsLogLength(registries: Registries, stored: StoredGame, live: Live, answers: seq<PlayerAction>)
    requires RecordOf(registries, stored, live, answers)
    ensures live.prompt == |answers| && live.assignment == stored.assignment && live.members == stored.members
  {
  }

  lemma HolderRecords(
    env: Env, rows: Rows, live: Live, answers: seq<PlayerAction>,
    asker: AccountId, investigator: InvestigatorId, to: AccountId)
    requires Records(env, rows, InPlay(live), answers)
    requires DecideReassign(live, rows, asker, investigator, to).Success?
    ensures var (stored, pending) := DecideReassign(live, rows, asker, investigator, to).value;
            Records(env, stored, Settled(InPlay(live), pending), answers)
  {
    var stored := StoredGame(rows.game.value, rows.assignment, rows.members, Dense(rows.actions, |answers|));
    ReassignRecords(env.registries, stored, live, answers, asker, investigator, to);
    ReassignMovesOne(live, asker, investigator, to);
    hide RecordOf;
    assert investigator in live.assignment[investigator := to];
  }

  /** **What a request stores is what it makes of the game.** */
  lemma DecideRecords(env: Env, rows: Rows, game: RoomGame, answers: seq<PlayerAction>, request: Request)
    requires Records(env, rows, game, answers)
    requires Decide(env, game, rows, request).Success?
    ensures var (stored, pending) := Decide(env, game, rows, request).value;
            && Records(env, stored, Settled(game, pending), AnswersAfter(answers, request))
            && Fits(game, pending)
  {
    match request
    case Attach(account) => AttachRecords(env, rows, game, answers, account);
    case ChangeLobby(command) => LobbyRecords(env, rows, game.lobby, command);
    case StartGame(account, seed) => StartRecords(env, rows, game.lobby, account, seed);
    case SubmitAnswer(account, prompt, action) =>
      AnswerRecords(env, rows, game.live, answers, account, prompt, action);
    case ReassignTo(asker, investigator, to) =>
      HolderRecords(env, rows, game.live, answers, asker, investigator, to);
    case DeleteGame(_) =>
  }

  // ----- storing a request once memory is cut off -----

  lemma CutStart(env: Env, rows: Rows, lobby: LobbyView, account: AccountId, seed: Uint64)
    requires Orphaned(rows) && ValidLobby(env.pool, lobby)
    requires DecideStart(env, lobby, rows, account, seed).Success?
    ensures var (stored, pending) := DecideStart(env, lobby, rows, account, seed).value;
      && pending.StartStored?
      && Records(env, stored, InPlay(pending.live.(members := stored.members)), [])
  {
    hide RecordOf, ValidLobby, SetUp;
    var start := StartLobby(env.pool, lobby, account).value;
    StartSeatsPicks(env.pool, lobby);
    SetUpRecords(env.registries, account, start, seed, rows.members);
    var (stored, _) := DecideStart(env, lobby, rows, account, seed).value;
    assert Dense(stored.actions, 0) == [];
  }

  lemma CutLobby(env: Env, rows: Rows, lobby: LobbyView, command: LobbyCommand)
    requires Orphaned(rows) && ValidLobby(env.pool, lobby)
    requires DecideLobby(env, lobby, rows, command).Success?
    ensures var (stored, pending) := DecideLobby(env, lobby, rows, command).value;
      && Orphaned(stored) && pending.LobbyStored? && ValidLobby(env.pool, pending.changed)
  {
    CommandKeepsValid(env.pool, lobby, command);
    hide ValidLobby, Command;
  }

  /** With memory cut off from its rows, a request still stores a member, or an
      empty lobby's departure, or deletes again; and Start stores the game. */
  lemma CutDecides(env: Env, rows: Rows, game: RoomGame, request: Request)
    requires Orphaned(rows) && !game.Gone? && (game.InLobby? ==> ValidLobby(env.pool, game.lobby))
    requires Decide(env, game, rows, request).Success?
    ensures var (stored, pending) := Decide(env, game, rows, request).value;
      && Fits(game, pending) && AnswersAfter([], request) == []
      && match pending
         case StartStored(live) =>
           && Records(env, stored, InPlay(live.(members := stored.members)), [])
           && Settled(game, pending) == InPlay(live)
         case RowsDeleted => stored == NO_ROWS
         case _ =>
           && Orphaned(stored) && !Settled(game, pending).Gone?
           && (Settled(game, pending).InLobby? ==> ValidLobby(env.pool, Settled(game, pending).lobby))
  {
    hide ValidLobby, Records, DecideStart, DecideLobby;
    match request
    case Attach(account) => if game.InLobby? { JoinKeepsValid(env.pool, game.lobby, account); }
    case ChangeLobby(command) => CutLobby(env, rows, game.lobby, command);
    case StartGame(account, seed) => CutStart(env, rows, game.lobby, account, seed);
    case SubmitAnswer(_, _, _) =>
    case ReassignTo(_, _, _) =>
    case DeleteGame(_) =>
  }

  lemma SubmitIgnoresMembers(registries: Registries, a: Live, b: Live, account: AccountId, prompt: int, action: PlayerAction)
    requires a == b.(members := a.members)
    ensures Submit(registries, a, account, prompt, action) == Submit(registries, b, account, prompt, action)
  {
  }

  /** A new holder, stored and swapped in, keeps the record. */
  lemma AssignmentRecords(env: Env, rows: Rows, live: Live, answers: seq<PlayerAction>, investigator: InvestigatorId, to: AccountId)
    requires Records(env, rows, InPlay(live), answers) && investigator in rows.assignment
    ensures Records(env, rows.(assignment := rows.assignment[investigator := to]),
              InPlay(live.(assignment := rows.assignment[investigator := to])), answers)
  {
    var stored := StoredGame(rows.game.value, rows.assignment, rows.members, Dense(rows.actions, |answers|));
    assert investigator in rows.assignment[investigator := to];
    assert RecordOf(env.registries, stored, live, answers);
  }

  /** In a game started again, memory and the record stay the same but for the
      members. */
  lemma RestartedDecides(env: Env, rows: Rows, game: RoomGame, played: RoomGame, answers: seq<PlayerAction>, request: Request)
    requires Records(env, rows, played, answers) && SameBut(game, played)
    requires Decide(env, game, rows, request).Success?
    ensures var (stored, pending) := Decide(env, game, rows, request).value;
      && Fits(game, pending) && !pending.StartStored?
      && Records(env, stored, Settled(played, pending), AnswersAfter(answers, request))
      && (pending.RowsDeleted? || SameBut(Settled(game, pending), Settled(played, pending)))
  {
    match request
    case Attach(account) => AttachRecords(env, rows, played, answers, account); hide Records;
    case ChangeLobby(_) =>
    case StartGame(_, _) =>
    case SubmitAnswer(account, prompt, action) =>
      SubmitIgnoresMembers(env.registries, game.live, played.live, account, prompt, action);
      hide Submit;
      AnswerRecords(env, rows, played.live, answers, account, prompt, action);
      hide Records;
    case ReassignTo(asker, investigator, to) =>
      RestartedReassigns(env, rows, game.live, played.live, answers, asker, investigator, to);
      hide Records;
    case DeleteGame(_) =>
  }

  lemma RestartedReassigns(
    env: Env, rows: Rows, live: Live, played: Live, answers: seq<PlayerAction>,
    asker: AccountId, investigator: InvestigatorId, to: AccountId)
    requires Records(env, rows, InPlay(played), answers) && live == played.(members := live.members)
    requires DecideReassign(live, rows, asker, investigator, to).Success?
    ensures var (stored, pending) := DecideReassign(live, rows, asker, investigator, to).value;
      && Records(env, stored, Settled(InPlay(played), pending), answers)
      && SameBut(Settled(InPlay(live), pending), Settled(InPlay(played), pending))
  {
    var stored := StoredGame(rows.game.value, rows.assignment, rows.members, Dense(rows.actions, |answers|));
    PromptIsLogLength(env.registries, stored, played, answers);
    ReassignMovesOne(live, asker, investigator, to);
    AssignmentRecords(env, rows, played, answers, investigator, to);
    hide Records, RecordOf;
  }

  // ----- broadcasting keeps every connection in sync -----

  lemma {:induction false} WatchAppends(view: ClientView, account: AccountId, events: seq<RoomEvent>, more: seq<RoomEvent>)
    ensures Watch(view, account, events + more) == Watch(Watch(view, account, events), account, more)
    decreases |events|
  {
    if events == [] {
      assert events + more == more;
    } else {
      assert (events + more)[0] == events[0] && (events + more)[1..] == events[1..] + more;
      WatchAppends(Receive(view, OutboundOf(events[0], account)), account, events[1..], more);
    }
  }

  /** Delivery changes nothing: whatever a connection has been sent so far,
      what is still queued takes it to the same view. */
  lemma DeliveredThenQueued(conn: Conn, sent: seq<RoomEvent>, delivered: nat)
    requires conn.from + delivered <= |sent|
    ensures var seen := Watch(ViewOf(conn.first), conn.account, sent[conn.from..conn.from + delivered]);
            Watch(seen, conn.account, sent[conn.from + delivered..])
            == Watch(ViewOf(conn.first), conn.account, sent[conn.from..])
  {
    WatchAppends(ViewOf(conn.first), conn.account, sent[conn.from..conn.from + delivered], sent[conn.from + delivered..]);
    assert sent[conn.from..conn.from + delivered] + sent[conn.from + delivered..] == sent[conn.from..];
  }

  /** One event takes a view of the game to a view of the game it changed to,
      or closes it. */
  lemma EventUpdates(game: RoomGame, pending: Pending, account: AccountId)
    requires Fits(game, pending)
    ensures var events := Broadcast(game, pending);
            && |events| <= 1
            && (events == [] ==> Settled(game, pending) == game)
            && (events != [] && !Closes(events[0], account) ==>
                  Receive(Current(game, account), OutboundOf(events[0], account))
                  == Current(Settled(game, pending), account))
            && (events != [] && Closes(events[0], account) ==>
                  Receive(Current(game, account), OutboundOf(events[0], account)).Closed?)
  {
  }

  lemma WatchOne(view: ClientView, account: AccountId, event: RoomEvent)
    ensures Watch(view, account, [event]) == Receive(view, OutboundOf(event, account))
  {
    assert [event][1..] == [];
  }

  lemma SettleSyncs(conn: Conn, game: RoomGame, sent: seq<RoomEvent>, pending: Pending)
    requires Synced(conn, game, sent) && Fits(game, pending)
    ensures Synced(conn, Settled(game, pending), sent + Broadcast(game, pending))
  {
    var events := Broadcast(game, pending);
    var after := sent + events;
    EventUpdates(game, pending, conn.account);
    hide Broadcast, Settled, Current, Receive, Closes, OutboundOf, ClosedBy;
    if events == [] {
      assert after == sent;
    } else {
      var seen := Watch(ViewOf(conn.first), conn.account, sent[conn.from..]);
      assert events == [events[0]];
      assert after[conn.from..] == sent[conn.from..] + events;
      WatchAppends(ViewOf(conn.first), conn.account, sent[conn.from..], events);
      WatchOne(seen, conn.account, events[0]);
      ClosedByAppends(sent[conn.from..], events[0], conn.account);
      ClosedStays(seen, OutboundOf(events[0], conn.account));
    }
  }

  lemma ClosedByAppends(events: seq<RoomEvent>, event: RoomEvent, account: AccountId)
    ensures ClosedBy(events + [event], account) <==> ClosedBy(events, account) || Closes(event, account)
  {
    var more := events + [event];
    assert more[|events|] == event;
    assert forall k | 0 <= k < |events| :: more[k] == events[k];
  }

  lemma ClosedStays(view: ClientView, out: Outbound)
    ensures view.Closed? ==> Receive(view, out) == view
  {
  }

  lemma NewConnSyncs(game: RoomGame, account: AccountId, joined: bool, sent: seq<RoomEvent>)
    requires !game.Gone?
    ensures Synced(Conn(account, FirstMessage(game, account, joined), |sent|), game, sent)
  {
    assert sent[|sent|..] == [];
  }

  // ----- every step keeps the invariant -----

  lemma WholeAsk(env: Env, w: World, request: Request)
    requires Inv(env, w) && w.game.Some? && w.pending.None? && w.tie.Whole?
    requires Decide(env, w.game.value, w.rows, request).Success?
    ensures var (stored, pending) := Decide(env, w.game.value, w.rows, request).value;
      && Fits(w.game.value, pending)
      && Records(env, stored, Settled(w.played, pending), AnswersAfter(w.answers, request))
  {
    hide Records, Decide, Synced, Fits;
    DecideRecords(env, w.rows, w.game.value, w.answers, request);
  }

  lemma AnswerHeld(
    env: Env, rows: Rows, live: Live, answers: seq<PlayerAction>, asked: seq<Asked>,
    account: AccountId, prompt: int, action: PlayerAction)
    requires Records(env, rows, InPlay(live), answers) && AskedByHolders(answers, asked)
    requires Submit(env.registries, live, account, prompt, action).Success?
    ensures AskedByHolders(answers + [action], asked + [Asked(account, prompt, live.assignment)])
  {
    SubmitExactly(env.registries, live, account, prompt, action);
    PromptIsLogLength(env.registries,
      StoredGame(rows.game.value, rows.assignment, rows.members, Dense(rows.actions, |answers|)), live, answers);
    hide RecordOf, Submit;
  }

  lemma AskHeld(env: Env, w: World, request: Request)
    requires Stored(env, w) && AskedByHolders(w.answers, w.asked) && InStep(env, w) && w.game.Some? && w.pending.None?
    requires Decide(env, w.game.value, w.rows, request).Success?
    ensures AskedByHolders(AnswersAfter(w.answers, request), AskedAfter(w.asked, w.game.value, request))
  {
    if request.SubmitAnswer? && !w.tie.Cut? {
      var (account, prompt, action) := (request.account, request.prompt, request.action);
      var live := w.game.value.live;
      SubmitIgnoresMembers(env.registries, live, w.played.live, account, prompt, action);
      AnswerHeld(env, w.rows, w.played.live, w.answers, w.asked, account, prompt, action);
    }
    hide Submit, Records, AskedByHolders, Command, StartLobby, Reassign;
  }

  lemma AskKeeps(env: Env, w: World, request: Request, works: bool, conn: nat)
    requires Inv(env, w)
    ensures Inv(env, AskStep(env, w, request, works, conn))
  {
    hide Records, Decide, Settled, Fits, ValidLobby, AnswersAfter, AskedAfter, AskedByHolders, Synced;
    if w.game.Some? && w.pending.None? && Decide(env, w.game.value, w.rows, request).Success? {
      AskHeld(env, w, request);
      match w.tie
      case Whole => WholeAsk(env, w, request);
      case Cut =>
        CutDecides(env, w.rows, w.game.value, request);
        SettledGone(w.game.value);
        NothingRecorded(env);
      case Restarted => RestartedDecides(env, w.rows, w.game.value, w.played, w.answers, request);
        SettledGone(w.game.value); SettledGone(w.played);
    }
  }

  lemma NothingRecorded(env: Env)
    ensures Records(env, NO_ROWS, Gone, [])
  {
  }

  lemma SettledGone(game: RoomGame)
    ensures Settled(game, RowsDeleted) == Gone
  {
  }

  lemma SettleKeeps(env: Env, w: World)
    requires Inv(env, w)
    ensures Inv(env, SettleStep(w))
  {
    hide Records, Synced, Settled, Fits, Broadcast, FirstMessage, ValidLobby;
    if w.game.Some? && w.pending.Some? {
      var (pending, conn) := w.pending.value;
      var game := Settled(w.game.value, pending);
      var sent := w.sent + Broadcast(w.game.value, pending);
      forall c | c in w.conns ensures Synced(w.conns[c], game, sent) {
        SettleSyncs(w.conns[c], w.game.value, w.sent, pending);
      }
      if pending.Attached? && !game.Gone? {
        NewConnSyncs(game, pending.account, pending.joined, sent);
      }
      RecordsValid(env, w.rows, w.played, w.answers);
    }
  }

  lemma RecordsValid(env: Env, rows: Rows, game: RoomGame, answers: seq<PlayerAction>)
    ensures Records(env, rows, game, answers) && game.InLobby? ==> ValidLobby(env.pool, game.lobby)
  {
  }

  lemma DropKeeps(env: Env, w: World)
    requires Inv(env, w)
    ensures Inv(env, DropStep(w))
  {
    hide Synced, ValidLobby;
  }

  /** The recorded game is the one a load gives, unless it can't be replayed:
      then a load gives none. */
  lemma LoadGivesPlayed(env: Env, rows: Rows, game: RoomGame, answers: seq<PlayerAction>)
    requires Records(env, rows, game, answers)
    ensures LoadedGame(env, rows).Some? ==> LoadedGame(env, rows) == Some(game)
    ensures game.InLobby? ==> LoadedGame(env, rows) == Some(game)
    ensures game.Gone? <==> Read(rows).None? && rows.lobby.None?
    ensures game.InPlay? ==>
              && Read(rows).Some? && RecordOf(env.registries, Read(rows).value, game.live, answers)
              && (LoadedGame(env, rows) == Some(game)
                  <==> |answers| <= U32_MAX && Unambiguous(env.registries, Read(rows).value, game.live, answers))
  {
    if game.InPlay? {
      DenseReadsInOrder(rows.actions, 0, |answers|);
      assert InOrder(rows.actions) == Dense(rows.actions, |answers|);
      RebuildIsPlay(env.registries, Read(rows).value, game.live, answers);
    }
  }

  lemma OrphansLoadNothing(env: Env, rows: Rows)
    requires Orphaned(rows)
    ensures LoadedGame(env, rows).None?
  {
  }

  lemma LoadKeeps(env: Env, w: World)
    requires Inv(env, w)
    ensures Inv(env, Next(env, w, Load))
  {
    hide Records, LoadedGame, Synced, ValidLobby, Orphaned;
    if w.game.None? {
      if w.tie.Cut? {
        OrphansLoadNothing(env, w.rows);
      } else {
        LoadGivesPlayed(env, w.rows, w.played, w.answers);
        RecordsValid(env, w.rows, w.played, w.answers);
      }
    }
  }

  lemma NextKeeps(env: Env, w: World, step: Step)
    requires Inv(env, w)
    ensures Inv(env, Next(env, w, step))
  {
    hide Records, LoadedGame, Synced, ValidLobby, Settled, Orphaned;
    match step
    case Ask(request, works, conn) => AskKeeps(env, w, request, works, conn);
    case Settle => SettleKeeps(env, w);
    case DropDelete => DropKeeps(env, w);
    case Disconnect(conn) =>
    case Crash =>
    case Load => LoadKeeps(env, w);
  }

  lemma {:induction false} RunKeeps(env: Env, w: World, steps: seq<Step>)
    requires Inv(env, w)
    ensures Inv(env, Run(env, w, steps))
    decreases |steps|
  {
    if steps != [] {
      NextKeeps(env, w, steps[0]);
      hide Inv, Next;
      RunKeeps(env, Next(env, w, steps[0]), steps[1..]);
    }
  }

  lemma CreatedInv(env: Env, scenarioId: ScenarioId, creator: AccountId)
    ensures Inv(env, Created(scenarioId, creator))
  {
  }

  // ----- the theorems, over every run from a game's creation -----

  ghost predicate Reached(env: Env, w: World) {
    exists scenarioId, creator, steps :: w == Run(env, Created(scenarioId, creator), steps)
  }

  lemma ReachedInv(env: Env, w: World)
    requires Reached(env, w)
    ensures Inv(env, w)
  {
    var scenarioId, creator, steps :| w == Run(env, Created(scenarioId, creator), steps);
    CreatedInv(env, scenarioId, creator);
    hide Inv, Next, Run, Created;
    RunKeeps(env, Created(scenarioId, creator), steps);
  }

  /** **Memory equals storage**, exactly when no delete was cut off. With the
      room's lock free its rows record the very game in memory, and while a
      request holds it the one it is about to swap in, as long as no delete was
      dropped between its write and its swap since the room was loaded. After
      one was, they do not, until a delete settles; nor after a Start in the
      lobby it left, until the members have their rows back in their order. No
      id ever has both a lobby and a started game stored. */
  lemma MemoryEqualsStorage(env: Env, w: World)
    requires Reached(env, w)
    ensures w.game.Some? ==>
              (Records(env, w.rows, Settling(w), w.answers)
               <==> match w.tie
                    case Whole => true
                    case Cut => false
                    case Restarted => w.rows.members == Members(Settling(w)))
    ensures w.rows.lobby.None? || w.rows.game.None?
  {
    ReachedInv(env, w);
    hide Reached, ValidLobby, Synced, Settled;
    if w.game.Some? {
      match w.tie
      case Whole =>
      case Cut => OrphansRecordNothing(env, w.rows, Settling(w), w.answers); hide Records;
      case Restarted => RestartedRecords(env, w.rows, Settling(w), w.played, w.answers); hide Records;
    }
    if !w.tie.Cut? { NeverBoth(env, w.rows, w.played, w.answers); }
  }

  lemma NeverBoth(env: Env, rows: Rows, game: RoomGame, answers: seq<PlayerAction>)
    requires Records(env, rows, game, answers)
    ensures rows.lobby.None? || rows.game.None?
  {
  }

  lemma OrphansRecordNothing(env: Env, rows: Rows, game: RoomGame, answers: seq<PlayerAction>)
    requires Orphaned(rows) && !game.Gone?
    ensures !Records(env, rows, game, answers)
  {
  }

  lemma RestartedRecords(env: Env, rows: Rows, game: RoomGame, played: RoomGame, answers: seq<PlayerAction>)
    requires Records(env, rows, played, answers) && SameBut(game, played)
    ensures Records(env, rows, game, answers) <==> rows.members == Members(game)
  {
    var stored := StoredGame(rows.game.value, rows.assignment, rows.members, Dense(rows.actions, |answers|));
    PromptIsLogLength(env.registries, stored, played.live, answers);
    if rows.members == Members(game) {
      assert game == played;
    } else if Records(env, rows, game, answers) {
      PromptIsLogLength(env.registries, stored, game.live, answers);
    }
  }

  /** The deletion of a lobby, dropped once its rows went: the lock is free, the
      rows are gone, and memory still holds the lobby. */
  lemma DroppedDeleteCutsOff(env: Env, scenarioId: ScenarioId, creator: AccountId) returns (w: World)
    ensures Reached(env, w) && w.game == Some(InLobby(LobbyView(scenarioId, creator, [creator], [], None)))
    ensures w.pending.None? && w.rows == NO_ROWS && !Records(env, w.rows, w.game.value, w.answers)
  {
    var created := Created(scenarioId, creator);
    var loaded := Next(env, created, Load);
    assert loaded == created.(game := Some(created.played));
    var asked := Next(env, loaded, Ask(DeleteGame(creator), true, 0));
    assert asked.pending == Some((RowsDeleted, 0)) && asked.rows == NO_ROWS;
    w := Next(env, asked, DropDelete);
    ThreeSteps(env, created, Load, Ask(DeleteGame(creator), true, 0), DropDelete);
    assert w == Run(env, Created(scenarioId, creator), [Load, Ask(DeleteGame(creator), true, 0), DropDelete]);
  }

  /** A lobby a dropped delete left in memory can be started: a game that was
      deleted is stored again. */
  lemma DeletedLobbyStarts(env: Env, w: World, account: AccountId, seed: Uint64)
    requires Reached(env, w) && w.tie.Cut? && w.pending.None? && w.game.Some? && w.game.value.InLobby?
    requires Decide(env, w.game.value, w.rows, StartGame(account, seed)).Success?
    ensures var after := Next(env, w, Ask(StartGame(account, seed), true, 0));
      && w.rows.game.None? && w.played.Gone?
      && after.rows.game.Some? && after.tie.Restarted? && Records(env, after.rows, after.played, [])
  {
    ReachedInv(env, w);
    CutStart(env, w.rows, w.game.value.lobby, account, seed);
    hide Reached, ValidLobby, Synced, RecordOf;
  }

  lemma ThreeSteps(env: Env, w: World, a: Step, b: Step, c: Step)
    ensures Run(env, w, [a, b, c]) == Next(env, Next(env, Next(env, w, a), b), c)
  {
    hide Next;
    assert [a, b, c][1..] == [b, c] && [b, c][1..] == [c] && [c][1..] == [];
    var one := Next(env, w, a);
    var two := Next(env, one, b);
    assert Run(env, two, [c]) == Run(env, Next(env, two, c), []) == Next(env, two, c);
    assert Run(env, one, [b, c]) == Run(env, two, [c]);
  }

  /** **A crash loses nothing that was stored.** After any run, a process that
      stops and loads the game again has a lobby exactly as memory had it; a
      started game exactly as memory had it, or advanced by the one change
      stored and not yet swapped in, whenever it loads at all; and it loads
      exactly when its log's length fits and no answer in it was ambiguous. What
      a delete that was cut off left in memory does not come back, unless Start
      stored it again, and then but for the members with no rows. */
  lemma CrashThenLoad(env: Env, w: World)
    requires Reached(env, w)
    ensures var after := Next(env, Next(env, w, Crash), Load);
            && after.rows == w.rows
            && (after.game.Some? ==> after.game == Some(w.played))
            && (w.played.InLobby? ==> after.game == Some(w.played))
            && (w.played.Gone? ==> after.game.None?)
            && (w.played.InPlay? ==>
                  && Read(w.rows).Some? && RecordOf(env.registries, Read(w.rows).value, w.played.live, w.answers)
                  && (after.game.Some?
                      <==> |w.answers| <= U32_MAX
                           && Unambiguous(env.registries, Read(w.rows).value, w.played.live, w.answers)))
            && (w.game.Some? ==>
                  match w.tie
                  case Whole => w.played == Settling(w)
                  case Cut => w.played.Gone?
                  case Restarted => SameBut(Settling(w), w.played))
  {
    ReachedInv(env, w);
    hide Records, Settled, ValidLobby, AllSynced, PendingFits, AskedByHolders, Orphaned, Reached;
    hide RecordOf, Unambiguous, LoadedGame;
    if w.tie.Cut? {
      OrphansLoadNothing(env, w.rows);
    } else {
      LoadGivesPlayed(env, w.rows, w.played, w.answers);
    }
  }

  /** With an engine whose prompts never offer one option twice, every game
      reached loads back, until its log outgrows the count. */
  lemma DistinctPromptsAlwaysReload(env: Env, w: World)
    requires Reached(env, w) && PromptsDistinct(env.registries)
    requires !w.played.Gone? && |w.answers| <= U32_MAX
    ensures Next(env, Next(env, w, Crash), Load).game == Some(w.played)
  {
    ReachedInv(env, w);
    CrashThenLoad(env, w);
    hide Next, Records, Reached;
    if w.played.InPlay? {
      DistinctPromptsReload(env.registries, Read(w.rows).value, w.played.live, w.answers);
      RebuildIsPlay(env.registries, Read(w.rows).value, w.played.live, w.answers);
    }
  }

  /** **Snapshot plus stream.** For every attached connection at every point of
      every run, its first message and the events sent since take a client to
      exactly the room's current game as its account sees it, every answer
      counted once, unless an event closed it. */
  lemma SnapshotPlusStream(env: Env, w: World, c: nat)
    requires Reached(env, w) && w.game.Some? && c in w.conns
    ensures Synced(w.conns[c], w.game.value, w.sent)
  {
    ReachedInv(env, w);
    hide Reached, Stored, InStep, Synced;
  }
}
