/** The registry and the rooms together: every connection the registry leads to a
    game's room watches that room's one stream of events, and no other game's. */
module Server {
  import opened Wrappers
  import opened Registry
  import opened RegistrySafety
  import opened RegistryRooms
  import opened LiveGames
  import opened Rooms
  import RoomRuns

  /** A server's state: its registry; what its rooms have run through, by room;
      and, by registration, where in its room a connection is attached. */
  datatype ServerState = ServerState(
    registry: State,
    rooms: map<nat, RoomRuns.World>,
    attached: map<RegId, nat>)

  /** The registry and each loaded room are where some run leaves them. */
  ghost predicate Runs(env: Env, server: ServerState) {
    && Reachable(server.registry)
    && forall k | k in server.rooms :: RoomRuns.Reached(env, server.rooms[k]) && server.rooms[k].game.Some?
  }

  /** Registration `r` is connected to a room it is attached to. */
  ghost predicate Watching(server: ServerState, r: RegId) {
    && r in server.registry.regs && server.registry.regs[r].phase.Connected?
    && server.registry.regs[r].phase.room in server.rooms
    && r in server.attached
    && server.attached[r] in server.rooms[server.registry.regs[r].phase.room].conns
  }

  function RoomOf(server: ServerState, r: RegId): RoomRuns.World
    requires Watching(server, r)
  {
    server.rooms[server.registry.regs[r].phase.room]
  }

  function ConnOf(server: ServerState, r: RegId): RoomRuns.Conn
    requires Watching(server, r)
  {
    RoomOf(server, r).conns[server.attached[r]]
  }

  /** The events sent to `r`, delivered or queued. */
  ghost function SentTo(server: ServerState, r: RegId): seq<RoomEvent>
    requires Watching(server, r) && ConnOf(server, r).from <= |RoomOf(server, r).sent|
  {
    RoomOf(server, r).sent[ConnOf(server, r).from..]
  }

  /** What `r`'s client makes of its first message and all it was sent. */
  ghost function Shown(server: ServerState, r: RegId): RoomRuns.ClientView
    requires Watching(server, r) && ConnOf(server, r).from <= |RoomOf(server, r).sent|
  {
    RoomRuns.Watch(RoomRuns.ViewOf(ConnOf(server, r).first), ConnOf(server, r).account, SentTo(server, r))
  }

  /** A view, whoever it is shown to. */
  function Impersonal(view: RoomRuns.ClientView): RoomRuns.ClientView {
    match view
    case WatchingLobby(_, lobby) => RoomRuns.WatchingLobby(0, lobby)
    case Playing(_, _, _, _, _, _, _, _) => view.(you := 0)
    case _ => view
  }

  lemma ShowsCurrent(env: Env, server: ServerState, r: RegId)
    requires Runs(env, server) && Watching(server, r)
    ensures ConnOf(server, r).from <= |RoomOf(server, r).sent|
    ensures if RoomRuns.ClosedBy(SentTo(server, r), ConnOf(server, r).account) then Shown(server, r).Closed?
            else Shown(server, r) == RoomRuns.Current(RoomOf(server, r).game.value, ConnOf(server, r).account)
  {
    RoomRuns.SnapshotPlusStream(env, RoomOf(server, r), server.attached[r]);
    hide RoomRuns.Reached, RoomRuns.Watch, RoomRuns.Current, RoomRuns.ClosedBy, Reachable;
  }

  lemma CurrentImpersonal(game: RoomGame, a: AccountId, b: AccountId)
    ensures Impersonal(RoomRuns.Current(game, a)) == Impersonal(RoomRuns.Current(game, b))
  {
  }

  /** Two connections are to one room, and so watch one stream of events. */
  predicate OneRoom(server: ServerState, r: RegId, q: RegId)
    requires Watching(server, r) && Watching(server, q)
  {
    server.registry.regs[r].phase.room == server.registry.regs[q].phase.room
  }

  lemma OneRoomShows(env: Env, server: ServerState, r: RegId, q: RegId)
    requires Runs(env, server) && Watching(server, r) && Watching(server, q) && OneRoom(server, r, q)
    ensures RoomOf(server, r) == RoomOf(server, q)
    ensures ConnOf(server, r).from <= |RoomOf(server, r).sent| && ConnOf(server, q).from <= |RoomOf(server, q).sent|
    ensures
      || Shown(server, r).Closed?
      || Shown(server, q).Closed?
      || Impersonal(Shown(server, r)) == Impersonal(Shown(server, q))
         == Impersonal(RoomRuns.Current(RoomOf(server, r).game.value, ConnOf(server, r).account))
  {
    ShowsCurrent(env, server, r);
    ShowsCurrent(env, server, q);
    CurrentImpersonal(RoomOf(server, r).game.value, ConnOf(server, r).account, ConnOf(server, q).account);
    hide Runs, Shown, SentTo, Impersonal, RoomRuns.Current, RoomRuns.ClosedBy;
  }

  /** **Each game its own room.** Two connections share a room only if they are to
      one game, whatever was displaced, and do if they came by one entry. The
      connections of one game that nothing displaced are all to one room. There,
      whatever each was sent, and however much of it is still queued, it takes
      every client to the room's current game, the same but for who they are;
      unless an event closed one. */
  lemma OneGameForAll(env: Env, server: ServerState, r: RegId, q: RegId)
    requires Runs(env, server) && Watching(server, r) && Watching(server, q)
    ensures OneRoom(server, r, q) <==> server.registry.regs[r].entry == server.registry.regs[q].entry
    ensures OneRoom(server, r, q) ==> server.registry.regs[r].game == server.registry.regs[q].game
    ensures var displaced := server.registry.displaced;
      && server.registry.regs[r].game == server.registry.regs[q].game
      && server.registry.regs[r].entry !in displaced && server.registry.regs[q].entry !in displaced ==>
           OneRoom(server, r, q)
    ensures OneRoom(server, r, q) ==>
      && RoomOf(server, r) == RoomOf(server, q)
      && ConnOf(server, r).from <= |RoomOf(server, r).sent| && ConnOf(server, q).from <= |RoomOf(server, q).sent|
      && (|| Shown(server, r).Closed?
          || Shown(server, q).Closed?
          || Impersonal(Shown(server, r)) == Impersonal(Shown(server, q))
             == Impersonal(RoomRuns.Current(RoomOf(server, r).game.value, ConnOf(server, r).account)))
  {
    RoomsAreApart(server.registry, r, q);
    if server.registry.regs[r].game == server.registry.regs[q].game
      && server.registry.regs[r].entry !in server.registry.displaced
      && server.registry.regs[q].entry !in server.registry.displaced {
      OneRoomPerGame(server.registry, r, q);
    }
    if OneRoom(server, r, q) {
      OneRoomShows(env, server, r, q);
    }
    hide Reachable, Shown, SentTo, Impersonal, RoomRuns.Current, RoomRuns.ClosedBy, RoomRuns.Reached;
  }
}
