/** Two loads give two rooms: which entry each room the registry ever led to
    belongs to, and what a load of a game nobody is in answers. */
module RegistryRooms {
  import opened Wrappers
  import opened Registry
  import opened RegistryRuns
  import opened RegistrySafety

  /** What an entry's load is known to have come to: in its cell, or on its way
      there from the initializer it returned to. */
  ghost function Came(s: State, e: EntryId): Option<Loaded>
    requires e < |s.entries|
  {
    var Entry(_, cell, owner) := s.entries[e];
    if cell.Some? then cell
    else if owner.Some? && owner.value in s.regs then
      match s.regs[owner.value].phase
      case Returned(loaded) => Some(loaded)
      case Filling(loaded) => Some(loaded)
      case _ => None
    else None
  }

  ghost predicate HasRoom(s: State, e: EntryId, room: nat)
    requires e < |s.entries|
  {
    Came(s, e) == Some(Room(room))
  }

  /** Every room belongs to one entry, and the next one to be made to none. */
  ghost predicate Apart(s: State) {
    && (forall e, room: nat | 0 <= e < |s.entries| && HasRoom(s, e, room) :: room < s.nextRoom)
    && (forall e, f, room: nat | 0 <= e < f < |s.entries| && HasRoom(s, e, room) :: !HasRoom(s, f, room))
  }

  /** Of the rooms `t` has, only `newest`'s entry can have one it did not have in
      `s`, and that one is the next. */
  ghost predicate RoomsFrom(s: State, t: State, newest: Option<EntryId>) {
    && t.nextRoom == (if newest.Some? then s.nextRoom + 1 else s.nextRoom)
    && forall e, room: nat | 0 <= e < |t.entries| && HasRoom(t, e, room) ::
         if newest == Some(e) then room == s.nextRoom else e < |s.entries| && HasRoom(s, e, room)
  }

  lemma WasOrNew(s: State, t: State, newest: Option<EntryId>, e: EntryId, room: nat)
    requires RoomsFrom(s, t, newest) && e < |t.entries| && HasRoom(t, e, room)
    ensures if newest == Some(e) then room == s.nextRoom else e < |s.entries| && HasRoom(s, e, room)
  {
    hide HasRoom;
  }

  lemma FromKeeps(s: State, t: State, newest: Option<EntryId>)
    requires Apart(s) && RoomsFrom(s, t, newest)
    ensures Apart(t)
  {
    hide HasRoom;
    forall e, f, room: nat | 0 <= e < f < |t.entries| && HasRoom(t, e, room) ensures !HasRoom(t, f, room) {
      WasOrNew(s, t, newest, e, room);
      if HasRoom(t, f, room) {
        WasOrNew(s, t, newest, f, room);
        assert false;
      }
    }
  }

  // ----- each step's rooms -----

  /** The entry whose rebuild a step is the end of. */
  ghost function FreshOf(s: State, step: Step): Option<EntryId> {
    if step.RebuildDone? && step.reg in s.regs then Some(s.regs[step.reg].entry) else None
  }

  lemma MovesMakeNone(s: State, r: RegId, loaded: Loaded)
    requires At(s, r)
    ensures Begin(s, r).nextRoom == s.nextRoom
    ensures Keep(s, r, loaded).nextRoom == s.nextRoom
    ensures FillCell(s, r, loaded).nextRoom == s.nextRoom
    ensures Drop(s, r).nextRoom == s.nextRoom
    ensures Finish(s, r).nextRoom == s.nextRoom
  {
    hide Inits, Kept, Answered, InPlace, CallOf;
  }

  lemma LeaveMakesNone(s: State, r: RegId, runtime: bool)
    requires At(s, r)
    ensures LeaveCall(s, r, runtime).nextRoom == s.nextRoom
  {
    hide Abort, Failed, InPlace, CallOf;
  }

  lemma RegisteringMakesNone(s: State, game: GameId, call: DeleteId, r: RegId)
    ensures Register(s, game, r).nextRoom == s.nextRoom
    ensures call in s.deletes ==> Afresh(s, call, r).nextRoom == s.nextRoom
    ensures Forget(s, game).nextRoom == s.nextRoom
  {
    hide Abort;
  }

  /** Only the end of a rebuild makes a room. */
  lemma RoomsMade(s: State, step: Step)
    requires Enabled(s, step)
    ensures Next(s, step).nextRoom == s.nextRoom + (if step.RebuildDone? then 1 else 0)
  {
    hide Begin, Keep, FillCell, Drop, LeaveCall, Abort, Failed, InPlace, Answered, Inits, Afresh, Finish, Forget, Register;
    match step
    case Get(game, r) => RegisteringMakesNone(s, game, 0, r);
    case DeleteRegister(call, r) => RegisteringMakesNone(s, "", call, r);
    case ForgetGame(game) => RegisteringMakesNone(s, game, 0, 0);
    case BeginInit(r) => MovesMakeNone(s, r, NotFound);
    case KeepOrRemove(r) => MovesMakeNone(s, r, s.regs[r].phase.loaded);
    case Fill(r) => MovesMakeNone(s, r, s.regs[r].phase.loaded);
    case FinishDelete(r) => MovesMakeNone(s, r, NotFound);
    case Cancel(r) => MovesMakeNone(s, r, NotFound);
    case LeaveStep(r, runtime) => LeaveMakesNone(s, r, runtime);
    case _ =>
  }

  /** What a registration's moves make of the load it runs: nothing known until
      it returned, then that, and a new room at the end of a rebuild alone. */
  lemma MoverLoads(s: State, step: Step, r: RegId)
    requires Mover(step) == Some(r) && Enabled(s, step) && Fits(s, r)
    ensures var t := Next(s, step);
      && r in t.regs
      && match t.regs[r].phase
         case Returned(Room(room)) => step.RebuildDone? && room == s.nextRoom
         case Filling(Room(room)) => s.regs[r].phase == Returned(Room(room))
         case _ => true
  {
    hide Serves, Once, InPlace, CallOf, Abort;
    match step
    case KeepOrRemove(_) => KeepMoves(s, r, s.regs[r].phase.loaded); hide Keep;
    case FinishDelete(_) => FinishMoves(s, r); hide Finish;
    case _ =>
  }

  /** The move of a registration keeps what every other entry's load came to,
      and its own, but for what it makes of it itself. */
  lemma MoveCame(s: State, t: State, r: RegId, e: EntryId)
    requires Goes(s, t, r) && Fits(s, r) && Owned(s) && e < |s.entries|
    ensures Came(t, e).Some? ==>
              || Came(t, e) == Came(s, e)
              || (e == s.regs[r].entry && Inits(t.regs[r].phase) && (
                   || t.regs[r].phase == Returned(Came(t, e).value)
                   || t.regs[r].phase == Filling(Came(t, e).value)))
  {
    hide Narrows, Clears, MovesCall, Serves, Once;
  }

  lemma MoverRooms(s: State, step: Step, r: RegId)
    requires Mover(step) == Some(r) && Enabled(s, step) && Fits(s, r) && Owned(s) && Goes(s, Next(s, step), r)
    ensures RoomsFrom(s, Next(s, step), FreshOf(s, step))
  {
    var t := Next(s, step);
    MoverLoads(s, step, r);
    RoomsMade(s, step);
    MoverIs(step, r);
    GoesSpans(s, t, r);
    hide Next, Enabled, Mover;
    hide Goes, Owned, Fits, Came, Inits;
    forall e, room: nat | 0 <= e < |t.entries| && HasRoom(t, e, room)
      ensures if FreshOf(s, step) == Some(e) then room == s.nextRoom else HasRoom(s, e, room)
    {
      MoveCame(s, t, r, e);
      OwnCame(s, t, r);
      assert Came(t, e) == Some(Room(room));
    }
  }

  lemma MoverIs(step: Step, r: RegId)
    requires Mover(step) == Some(r)
    ensures step.RebuildDone? ==> step.reg == r
  {
  }

  lemma GoesSpans(s: State, t: State, r: RegId)
    requires Goes(s, t, r)
    ensures |t.entries| == |s.entries| && r in s.regs && r in t.regs && s.regs[r].entry < |s.entries|
  {
  }

  /** What `r` has returned with is what its own entry's load came to. */
  lemma OwnCame(s: State, t: State, r: RegId)
    requires Fits(s, r) && Goes(s, t, r)
    ensures s.regs[r].phase.Returned? ==> Came(s, s.regs[r].entry) == Some(s.regs[r].phase.loaded)
  {
    hide Goes, Serves, Once;
  }

  lemma RestRooms(s: State, step: Step, t: State)
    requires Mover(step).None? && Shaped(s, step, t) && Owned(s) && Placed(s)
    ensures |t.entries| >= |s.entries|
    ensures forall e, room: nat | 0 <= e < |t.entries| && HasRoom(t, e, room) :: e < |s.entries| && HasRoom(s, e, room)
  {
    hide JoinsAfter, Narrows, InPlace, Forget, Leaves, Quiets, Placed;
    match step
    case Get(game, r) => JoinRooms(s, s, t, game, r, None);
    case DeleteRegister(call, r) => JoinRooms(s, Forget(s, s.deletes[call].game), t, s.deletes[call].game, r, Some(call));
    case LeaveStep(r, _) => LeaveRooms(s, t, r);
    case _ => QuietRooms(s, t);
  }

  lemma QuietRooms(s: State, t: State)
    requires Quiets(s, t)
    ensures |t.entries| == |s.entries|
    ensures forall e | 0 <= e < |s.entries| :: Came(t, e) == Came(s, e)
  {
    hide Narrows;
  }

  lemma JoinRooms(s: State, m: State, t: State, game: GameId, r: RegId, role: Option<DeleteId>)
    requires JoinsAfter(s, m, t, game, r, role) && Owned(s)
    ensures |t.entries| >= |s.entries|
    ensures forall e | 0 <= e < |t.entries| :: Came(t, e) == if e < |s.entries| then Came(s, e) else None
  {
    hide Narrows, Abort;
  }

  lemma LeaveRooms(s: State, t: State, r: RegId)
    requires Leaves(s, t, r) && Owned(s)
    ensures |t.entries| == |s.entries|
    ensures forall e | 0 <= e < |s.entries| :: Came(t, e) == Came(s, e)
  {
    hide InPlace, Failed;
  }

  lemma StepRooms(s: State, step: Step)
    requires Inv(s) && Enabled(s, step)
    ensures RoomsFrom(s, Next(s, step), FreshOf(s, step))
  {
    var t := Next(s, step);
    StepShaped(s, step);
    MoverThere(s, step);
    if Mover(step).Some? { AllFit(s, Mover(step).value); }
    hide Next, Enabled, HasRoom, DeletesOnce, Goes, JoinsAfter, Quiets, Leaves, Fits;
    hide Placed, Owned, Counted, InMap, KeepsOnly, Shared, Harmless, Pending, NoLeak;
    if Mover(step).Some? {
      MoverRooms(s, step, Mover(step).value);
    } else {
      RoomsMade(s, step);
      RestRooms(s, step, t);
    }
  }

  // ----- over every run -----

  lemma {:induction false} RunKeepsApart(s: State, steps: seq<Step>)
    requires Inv(s) && Apart(s) && Legal(s, steps)
    ensures Apart(End(s, steps))
    decreases |steps|
  {
    if steps != [] {
      StepRooms(s, steps[0]);
      FromKeeps(s, Next(s, steps[0]), FreshOf(s, steps[0]));
      StepKeeps(s, steps[0]);
      hide Inv, Next, Enabled, Apart, RoomsFrom;
      RunKeepsApart(Next(s, steps[0]), steps[1..]);
    }
  }

  lemma ReachableApart(s: State)
    requires Reachable(s)
    ensures Apart(s)
  {
    EmptyHolds();
    assert Apart(EMPTY);
    hide Inv, Next, Enabled, Apart;
    var steps :| Legal(EMPTY, steps) && End(EMPTY, steps) == s;
    RunKeepsApart(EMPTY, steps);
  }

  /** **Two loads give two rooms.** In every reachable state two connections have
      one room exactly when they are on one entry, displaced or not: connections
      to different games never share a room. */
  lemma RoomsAreApart(s: State, r: RegId, q: RegId)
    requires Reachable(s)
    requires r in s.regs && s.regs[r].phase.Connected?
    requires q in s.regs && s.regs[q].phase.Connected?
    ensures s.regs[r].phase.room == s.regs[q].phase.room <==> s.regs[r].entry == s.regs[q].entry
    ensures s.regs[r].phase.room == s.regs[q].phase.room ==> s.regs[r].game == s.regs[q].game
  {
    ReachableKeeps(s);
    ReachableApart(s);
    hide Reachable, Owned, Counted, InMap, KeepsOnly, Harmless, Pending, NoLeak, DeletesOnce;
    ConnectedHas(s, r);
    ConnectedHas(s, q);
    hide HasRoom, Shared;
  }

  lemma ConnectedHas(s: State, r: RegId)
    requires Placed(s) && Shared(s) && r in s.regs && s.regs[r].phase.Connected?
    ensures s.regs[r].entry < |s.entries| && HasRoom(s, s.regs[r].entry, s.regs[r].phase.room)
    ensures forall room: nat | HasRoom(s, s.regs[r].entry, room) :: room == s.regs[r].phase.room
  {
  }

  // ----- what a load answers -----

  /** `r` is in `phase` of the load of `game`'s entry, which the map holds. */
  ghost predicate Loads(s: State, game: GameId, r: RegId, phase: Phase) {
    && r in s.regs && s.regs[r].role.None? && s.regs[r].game == game && s.regs[r].phase == phase
    && s.regs[r].entry < |s.entries|
    && s.entries[s.regs[r].entry] == Entry(game, None, if phase.Waiting? then None else Some(r))
    && InPlace(s, game, s.regs[r].entry)
  }

  /** The load ended in `loaded`, and its entry stayed in the map if that was a
      room, or a rebuild that failed for good. */
  ghost predicate Ends(t: State, game: GameId, r: RegId, loaded: Loaded) {
    && r in t.regs && AnswerOf(t.regs[r].phase) == Some(loaded)
    && (game in t.slots <==> loaded.Room? || loaded == Unbuilt(true))
  }

  lemma Chain(s: State, step: Step, rest: seq<Step>)
    requires Enabled(s, step) && Legal(Next(s, step), rest)
    ensures Legal(s, [step] + rest) && End(s, [step] + rest) == End(Next(s, step), rest)
  {
    hide Enabled, Next;
    var steps := [step] + rest;
    assert steps[0] == step && steps[1..] == rest;
  }

  lemma FillEnds(s: State, game: GameId, r: RegId, loaded: Loaded)
    requires r in s.regs && s.regs[r].entry < |s.entries|
    requires s.regs[r].phase == Filling(loaded) && s.regs[r].role.None?
    ensures Legal(s, [Fill(r)])
    ensures var t := End(s, [Fill(r)]);
      r in t.regs && AnswerOf(t.regs[r].phase) == Some(loaded) && t.slots == s.slots
  {
    Fills(s, r, loaded);
    hide Next, Enabled;
    assert [Fill(r)][1..] == [];
  }

  lemma Fills(s: State, r: RegId, loaded: Loaded)
    requires r in s.regs && s.regs[r].entry < |s.entries|
    requires s.regs[r].phase == Filling(loaded) && s.regs[r].role.None?
    ensures Enabled(s, Fill(r))
    ensures var t := Next(s, Fill(r));
      r in t.regs && AnswerOf(t.regs[r].phase) == Some(loaded) && t.slots == s.slots
  {
  }

  lemma KeepEnds(s: State, game: GameId, r: RegId, loaded: Loaded)
    requires Loads(s, game, r, Returned(loaded))
    ensures Legal(s, [KeepOrRemove(r)] + [Fill(r)]) && Ends(End(s, [KeepOrRemove(r)] + [Fill(r)]), game, r, loaded)
  {
    FillEnds(Next(s, KeepOrRemove(r)), game, r, loaded);
    Chain(s, KeepOrRemove(r), [Fill(r)]);
    hide Legal, End;
  }

  lemma RebuildEnds(s: State, game: GameId, r: RegId, ok: bool, permanent: bool)
    requires Loads(s, game, r, Rebuilding)
    ensures var steps := [RebuildDone(r, ok, permanent)] + ([KeepOrRemove(r)] + [Fill(r)]);
      && Legal(s, steps)
      && Ends(End(s, steps), game, r, if ok then Room(s.nextRoom) else Unbuilt(permanent))
  {
    var step := RebuildDone(r, ok, permanent);
    KeepEnds(Next(s, step), game, r, if ok then Room(s.nextRoom) else Unbuilt(permanent));
    Chain(s, step, [KeepOrRemove(r)] + [Fill(r)]);
    hide Legal, End, Ends;
  }

  /** The steps of a get's load after it registered, and what they come to. */
  function LoadSteps(r: RegId, fails: bool, stored: bool, ok: bool, permanent: bool): seq<Step> {
    if fails || !stored then [ReadRows(r, fails)] + ([KeepOrRemove(r)] + [Fill(r)])
    else [ReadRows(r, fails)] + ([RebuildDone(r, ok, permanent)] + ([KeepOrRemove(r)] + [Fill(r)]))
  }

  lemma ReadEnds(s: State, game: GameId, r: RegId, fails: bool, ok: bool, permanent: bool)
    requires Loads(s, game, r, Reading)
    ensures var steps := LoadSteps(r, fails, game in s.rows, ok, permanent);
      && Legal(s, steps)
      && Ends(End(s, steps), game, r,
           if fails then ReadFailed else if game !in s.rows then NotFound
           else if ok then Room(s.nextRoom) else Unbuilt(permanent))
  {
    var t := Next(s, ReadRows(r, fails));
    if fails || game !in s.rows {
      KeepEnds(t, game, r, if fails then ReadFailed else NotFound);
      Chain(s, ReadRows(r, fails), [KeepOrRemove(r)] + [Fill(r)]);
    } else {
      RebuildEnds(t, game, r, ok, permanent);
      Chain(s, ReadRows(r, fails), [RebuildDone(r, ok, permanent)] + ([KeepOrRemove(r)] + [Fill(r)]));
    }
    hide Legal, End, Ends;
  }

  lemma GetBegins(s: State, game: GameId, r: RegId)
    requires Enabled(s, Get(game, r)) && game !in s.slots
    ensures var t := Next(s, Get(game, r)); Loads(t, game, r, Waiting) && t.rows == s.rows && t.nextRoom == s.nextRoom
  {
    hide Abort;
  }

  lemma BeginReads(s: State, game: GameId, r: RegId)
    requires Loads(s, game, r, Waiting)
    ensures Enabled(s, BeginInit(r))
    ensures var t := Next(s, BeginInit(r)); Loads(t, game, r, Reading) && t.rows == s.rows && t.nextRoom == s.nextRoom
  {
  }

  /** **What a get of a game the map does not hold finds**: that its read failed;
      that no game is stored; a room of its own; or a rebuild that failed. The
      entry stays for the next get if it holds a room, or a failure for good. */
  lemma LoadAnswers(s: State, game: GameId, r: RegId, fails: bool, ok: bool, permanent: bool)
    requires Enabled(s, Get(game, r)) && game !in s.slots
    ensures var steps := [Get(game, r)] + ([BeginInit(r)] + LoadSteps(r, fails, game in s.rows, ok, permanent));
      && Legal(s, steps)
      && Ends(End(s, steps), game, r,
           if fails then ReadFailed else if game !in s.rows then NotFound
           else if ok then Room(s.nextRoom) else Unbuilt(permanent))
  {
    hide Legal, End, Ends, LoadSteps, Loads;
    var t := Next(s, Get(game, r));
    var u := Next(t, BeginInit(r));
    var rest := LoadSteps(r, fails, game in s.rows, ok, permanent);
    GetBegins(s, game, r);
    BeginReads(t, game, r);
    hide Next, Enabled;
    ReadEnds(u, game, r, fails, ok, permanent);
    Chain(t, BeginInit(r), rest);
    Chain(s, Get(game, r), [BeginInit(r)] + rest);
  }
}
