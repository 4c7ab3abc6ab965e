/** The room registry (`server::rooms`): the map from each game to its slot, and
    every section of it that holds the map's lock, as one step. Between them
    sit the loads, the waits on an entry's once-cell, and the idle timers. */
module Registry {
  import opened Wrappers

  type GameId = string
  type EntryId = nat
  type RegId = nat
  type TimerId = nat
  type DeleteId = nat

  /** What a load came to: a room, by its identity; no stored game; a read that
      failed; or a rebuild that did, perhaps for good. */
  datatype Loaded = Room(room: nat) | NotFound | ReadFailed | Unbuilt(permanent: bool)

  /** An entry: its once-cell, and the registration filling it, if one is. */
  datatype Entry = Entry(game: GameId, cell: Option<Loaded>, owner: Option<RegId>)

  datatype Slot = Slot(entry: EntryId, connections: int, generation: nat, timer: Option<TimerId>)

  /** An idle timer, asleep or woken. One aborted after it woke may
      still run. */
  datatype Timer = Timer(game: GameId, entry: EntryId, generation: nat, woken: bool, aborted: bool)

  /** Where a registration is in its get or delete. */
  datatype Phase =
    | Waiting
    | Reading
    | Rebuilding
    | Deleting
    | RowsGone
    | Returned(loaded: Loaded)
    | Filling(loaded: Loaded)
    | Connected(room: nat)
    /** `answer` is what the get, or delete, found; none if it was dropped. */
    | Leaving(answer: Option<Loaded>)

  /** One connection counted on an entry; `role` names the delete it is for. */
  datatype Registration = Registration(game: GameId, entry: EntryId, role: Option<DeleteId>, phase: Phase)

  /** A `delete_with` call: how often its delete ran, and whether it returned or
      was dropped. */
  datatype DeleteCall = DeleteCall(game: GameId, reg: Option<RegId>, ran: nat, returned: bool, dropped: bool)

  /** `rows` are the games with stored rows, `created` all that ever had any.
      `displaced` are the entries a forget or a delete took out of the map. */
  datatype State = State(
    slots: map<GameId, Slot>,
    entries: seq<Entry>,
    regs: map<RegId, Registration>,
    timers: map<TimerId, Timer>,
    nextTimer: TimerId,
    deletes: map<DeleteId, DeleteCall>,
    rows: set<GameId>,
    created: set<GameId>,
    displaced: set<EntryId>,
    nextRoom: nat,
    shutdown: bool)

  const EMPTY: State := State(map[], [], map[], map[], 0, map[], {}, {}, {}, 0, false)

  // ----- the lock-held sections -----

  predicate Kept(loaded: Loaded) {
    loaded.Room? || (loaded.Unbuilt? && loaded.permanent)
  }

  predicate Failed(cell: Option<Loaded>) {
    cell.Some? && !cell.value.Room?
  }

  function Abort(timers: map<TimerId, Timer>, timer: Option<TimerId>): map<TimerId, Timer> {
    if timer.None? || timer.value !in timers then timers
    else if timers[timer.value].woken then timers[timer.value := timers[timer.value].(aborted := true)]
    else timers - {timer.value}
  }

  /** A slot for a new entry, with no connection counted. */
  function PutUnloaded(s: State, game: GameId): State {
    s.(entries := s.entries + [Entry(game, None, None)], slots := s.slots[game := Slot(|s.entries|, 0, 0, None)])
  }

  /** Count a connection on `game`'s slot and abort its idle timer. */
  function CountOn(s: State, game: GameId, reg: RegId, role: Option<DeleteId>): State
    requires game in s.slots
  {
    var slot := s.slots[game];
    s.(slots := s.slots[game := Slot(slot.entry, slot.connections + 1, slot.generation + 1, None)],
       timers := Abort(s.timers, slot.timer),
       regs := s.regs[reg := Registration(game, slot.entry, role, Waiting)])
  }

  function Register(s: State, game: GameId, reg: RegId): State {
    CountOn(if game in s.slots then s else PutUnloaded(s, game), game, reg, None)
  }

  function Forget(s: State, game: GameId): State {
    if game !in s.slots then s
    else s.(slots := s.slots - {game},
            timers := Abort(s.timers, s.slots[game].timer),
            displaced := s.displaced + {s.slots[game].entry})
  }

  /** Put a new entry in place of whatever the map held, and count on it. */
  function RegisterAfresh(s: State, game: GameId, reg: RegId, role: Option<DeleteId>): State {
    CountOn(PutUnloaded(Forget(s, game), game), game, reg, role)
  }

  /** Whether the map still holds `entry` under `game`. */
  predicate InPlace(s: State, game: GameId, entry: EntryId) {
    game in s.slots && s.slots[game].entry == entry
  }

  function RemoveEntry(s: State, game: GameId, entry: EntryId): State {
    if InPlace(s, game, entry) then s.(slots := s.slots - {game}) else s
  }

  /** A registration drops: uncount it, and if it was its entry's last, start
      the idle timer, unless the entry holds a failure, or no runtime is left. */
  function Leave(s: State, reg: RegId, runtime: bool): State
    requires reg in s.regs && s.regs[reg].entry < |s.entries|
  {
    var Registration(game, entry, _, _) := s.regs[reg];
    var left := s.(regs := s.regs - {reg});
    if !InPlace(s, game, entry) then left
    else
      var slot := s.slots[game].(connections := s.slots[game].connections - 1);
      var counted := left.(slots := s.slots[game := slot]);
      if slot.connections > 0 || Failed(s.entries[entry].cell) || !runtime then counted
      else StartIdle(counted, game)
  }

  /** Start the idle timer of `game`'s slot, in place of any it has. */
  function StartIdle(s: State, game: GameId): State
    requires game in s.slots
  {
    var slot := s.slots[game];
    s.(slots := s.slots[game := slot.(timer := Some(s.nextTimer))],
       timers := Abort(s.timers, slot.timer)[s.nextTimer := Timer(game, slot.entry, slot.generation, false, false)],
       nextTimer := s.nextTimer + 1)
  }

  /** A woken idle timer evicts its entry, if nobody registered since it
      started and the entry holds no failure. */
  function Fire(s: State, t: TimerId): State
    requires t in s.timers && s.timers[t].entry < |s.entries|
  {
    var Timer(game, entry, generation, _, _) := s.timers[t];
    var fired := s.(timers := s.timers - {t});
    if InPlace(s, game, entry) && s.slots[game].generation == generation && !Failed(s.entries[entry].cell)
    then fired.(slots := s.slots - {game})
    else fired
  }

  // ----- what happens between them -----

  function SetPhase(s: State, reg: RegId, phase: Phase): State
    requires reg in s.regs
  {
    s.(regs := s.regs[reg := s.regs[reg].(phase := phase)])
  }

  function SetEntry(s: State, entry: EntryId, cell: Option<Loaded>, owner: Option<RegId>): State
    requires entry < |s.entries|
  {
    s.(entries := s.entries[entry := s.entries[entry].(cell := cell, owner := owner)])
  }

  /** Whether a registration is running its entry's initializer. */
  predicate Inits(phase: Phase) {
    !phase.Waiting? && !phase.Connected? && !phase.Leaving?
  }

  /** What a get, or a delete, does once its entry's cell holds `loaded`. */
  function Answered(role: Option<DeleteId>, loaded: Loaded): Phase {
    if role.None? && loaded.Room? then Connected(loaded.room) else Leaving(Some(loaded))
  }

  /** What a registration found in its entry's cell, if it got that far. */
  function AnswerOf(phase: Phase): Option<Loaded> {
    match phase
    case Connected(room) => Some(Room(room))
    case Leaving(answer) => answer
    case _ => None
  }

  datatype Step =
    | Get(game: GameId, reg: RegId)
    | StartDelete(call: DeleteId, game: GameId)
    | DeleteRegister(call: DeleteId, reg: RegId)
    | ForgetGame(game: GameId)
    /** An empty cell lets one waiter run its initializer. */
    | BeginInit(reg: RegId)
    /** A read that fails is retried by the next get: only a rebuild finds a
        game unresumable. */
    | ReadRows(reg: RegId, fails: bool)
    | RebuildDone(reg: RegId, ok: bool, permanent: bool)
    /** A load returned: keep its entry or take it out of the map. */
    | KeepOrRemove(reg: RegId)
    | Fill(reg: RegId)
    /** A waiter finds the cell filled. */
    | Share(reg: RegId)
    | DeleteRuns(reg: RegId, ok: bool)
    | FinishDelete(reg: RegId)
    /** A get, a delete or a connection is dropped. */
    | Cancel(reg: RegId)
    | LeaveStep(reg: RegId, runtime: bool)
    | Wake(timer: TimerId)
    | FireStep(timer: TimerId)
    | AbortLands(timer: TimerId)
    | Create(game: GameId)
    | RoomDeletes(game: GameId)
    | Shutdown

  /** Whether `step` can happen in `s`. */
  predicate Enabled(s: State, step: Step) {
    match step
    case Get(_, reg) => reg !in s.regs
    // A delete is asked for only of a game that some get found stored.
    case StartDelete(call, game) => call !in s.deletes && game in s.created
    case DeleteRegister(call, reg) =>
      && reg !in s.regs && call in s.deletes
      && s.deletes[call].reg.None? && !s.deletes[call].returned && !s.deletes[call].dropped
    case ForgetGame(_) => true
    case BeginInit(reg) =>
      && At(s, reg) && s.regs[reg].phase.Waiting?
      && s.entries[s.regs[reg].entry].cell.None? && s.entries[s.regs[reg].entry].owner.None?
    case ReadRows(reg, _) => At(s, reg) && s.regs[reg].phase.Reading?
    case RebuildDone(reg, _, _) => At(s, reg) && s.regs[reg].phase.Rebuilding?
    case KeepOrRemove(reg) => At(s, reg) && s.regs[reg].phase.Returned?
    case Fill(reg) => At(s, reg) && s.regs[reg].phase.Filling?
    case Share(reg) => At(s, reg) && s.regs[reg].phase.Waiting? && s.entries[s.regs[reg].entry].cell.Some?
    case DeleteRuns(reg, _) => At(s, reg) && s.regs[reg].phase.Deleting?
    case FinishDelete(reg) => At(s, reg) && s.regs[reg].phase.RowsGone?
    case Cancel(reg) =>
      At(s, reg) && !s.regs[reg].phase.Returned? && !s.regs[reg].phase.Filling? && !s.regs[reg].phase.Leaving?
    case LeaveStep(reg, runtime) => At(s, reg) && s.regs[reg].phase.Leaving? && (runtime || s.shutdown)
    case Wake(timer) => timer in s.timers
    case FireStep(timer) => timer in s.timers && s.timers[timer].woken && s.timers[timer].entry < |s.entries|
    case AbortLands(timer) => timer in s.timers && s.timers[timer].aborted
    case Create(game) => game !in s.created
    case RoomDeletes(_) => true
    case Shutdown => true
  }

  predicate At(s: State, reg: RegId) {
    reg in s.regs && s.regs[reg].entry < |s.entries|
  }

  /** The state of a delete call whose registration `reg` moved on. */
  function CallOf(s: State, reg: RegId): Option<DeleteId>
    requires reg in s.regs
  {
    if s.regs[reg].role.Some? && s.regs[reg].role.value in s.deletes then s.regs[reg].role else None
  }

  function UpdateCall(s: State, call: Option<DeleteId>, update: DeleteCall -> DeleteCall): State {
    if call.None? || call.value !in s.deletes then s
    else s.(deletes := s.deletes[call.value := update(s.deletes[call.value])])
  }

  function Begin(s: State, reg: RegId): State
    requires At(s, reg)
  {
    var Registration(_, entry, role, _) := s.regs[reg];
    UpdateCall(
      SetPhase(SetEntry(s, entry, None, Some(reg)), reg, if role.Some? then Deleting else Reading),
      CallOf(s, reg),
      (op: DeleteCall) => op.(ran := op.ran + 1))
  }

  function Keep(s: State, reg: RegId, loaded: Loaded): State
    requires At(s, reg)
  {
    var kept := if Kept(loaded) then s else RemoveEntry(s, s.regs[reg].game, s.regs[reg].entry);
    SetPhase(kept, reg, Filling(loaded))
  }

  function FillCell(s: State, reg: RegId, loaded: Loaded): State
    requires At(s, reg)
  {
    var Registration(_, entry, role, _) := s.regs[reg];
    UpdateCall(
      SetPhase(SetEntry(s, entry, Some(loaded), None), reg, Answered(role, loaded)),
      CallOf(s, reg),
      (op: DeleteCall) => op.(returned := true))
  }

  /** The delete deleted the rows: the entry leaves the map, to be filled with
      no game. */
  function Finish(s: State, reg: RegId): State
    requires At(s, reg)
  {
    var Registration(game, entry, _, _) := s.regs[reg];
    var displaced := if InPlace(s, game, entry) then s.displaced + {entry} else s.displaced;
    SetPhase(RemoveEntry(s, game, entry).(displaced := displaced), reg, Filling(NotFound))
  }

  /** A future is dropped: an initializer it ran gives the cell up. */
  function Drop(s: State, reg: RegId): State
    requires At(s, reg)
  {
    var Registration(_, entry, _, phase) := s.regs[reg];
    var released := if Inits(phase) then SetEntry(s, entry, s.entries[entry].cell, None) else s;
    UpdateCall(SetPhase(released, reg, Leaving(None)), CallOf(s, reg), (op: DeleteCall) => op.(dropped := true))
  }

  function Afresh(s: State, call: DeleteId, reg: RegId): State
    requires call in s.deletes
  {
    var op := s.deletes[call];
    RegisterAfresh(s, op.game, reg, Some(call)).(deletes := s.deletes[call := op.(reg := Some(reg))])
  }

  function LeaveCall(s: State, reg: RegId, runtime: bool): State
    requires At(s, reg)
  {
    UpdateCall(Leave(s, reg, runtime), CallOf(s, reg), (op: DeleteCall) => op.(reg := None))
  }

  function Next(s: State, step: Step): State
    requires Enabled(s, step)
  {
    match step
    case Get(game, reg) => Register(s, game, reg)
    case StartDelete(call, game) => s.(deletes := s.deletes[call := DeleteCall(game, None, 0, false, false)])
    case DeleteRegister(call, reg) => Afresh(s, call, reg)
    case ForgetGame(game) => Forget(s, game)
    case BeginInit(reg) => Begin(s, reg)
    case ReadRows(reg, fails) =>
      SetPhase(s, reg,
        if fails then Returned(ReadFailed)
        else if s.regs[reg].game in s.rows then Rebuilding
        else Returned(NotFound))
    case RebuildDone(reg, ok, permanent) =>
      SetPhase(s, reg, Returned(if ok then Room(s.nextRoom) else Unbuilt(permanent))).(nextRoom := s.nextRoom + 1)
    case KeepOrRemove(reg) => Keep(s, reg, s.regs[reg].phase.loaded)
    case Fill(reg) => FillCell(s, reg, s.regs[reg].phase.loaded)
    case Share(reg) => SetPhase(s, reg, Answered(s.regs[reg].role, s.entries[s.regs[reg].entry].cell.value))
    case DeleteRuns(reg, ok) =>
      SetPhase(s.(rows := if ok then s.rows - {s.regs[reg].game} else s.rows), reg, if ok then RowsGone else Reading)
    case FinishDelete(reg) => Finish(s, reg)
    case Cancel(reg) => Drop(s, reg)
    case LeaveStep(reg, runtime) => LeaveCall(s, reg, runtime)
    case Wake(timer) => s.(timers := s.timers[timer := s.timers[timer].(woken := true)])
    case FireStep(timer) => Fire(s, timer)
    case AbortLands(timer) => s.(timers := s.timers - {timer})
    case Create(game) => s.(rows := s.rows + {game}, created := s.created + {game})
    case RoomDeletes(game) => s.(rows := s.rows - {game})
    case Shutdown => s.(shutdown := true)
  }
}
