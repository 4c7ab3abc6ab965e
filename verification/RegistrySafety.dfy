/** What the room registry promises, over every interleaving from an empty map. */
module RegistrySafety {
  import opened Wrappers
  import opened Registry
  import opened RegistryRuns

  /** Every step of `steps` can happen where the ones before it lead. */
  ghost predicate Legal(s: State, steps: seq<Step>)
    decreases |steps|
  {
    steps == [] || (Enabled(s, steps[0]) && Legal(Next(s, steps[0]), steps[1..]))
  }

  ghost function End(s: State, steps: seq<Step>): State
    requires Legal(s, steps)
    decreases |steps|
  {
    if steps == [] then s else End(Next(s, steps[0]), steps[1..])
  }

  ghost predicate Reachable(s: State) {
    exists steps :: Legal(EMPTY, steps) && End(EMPTY, steps) == s
  }

  lemma {:induction false} RunKeeps(s: State, steps: seq<Step>)
    requires Inv(s) && Legal(s, steps)
    ensures Inv(End(s, steps))
    decreases |steps|
  {
    if steps != [] {
      StepKeeps(s, steps[0]);
      hide Inv, Next, Enabled;
      RunKeeps(Next(s, steps[0]), steps[1..]);
    }
  }

  lemma ReachableKeeps(s: State)
    requires Reachable(s)
    ensures Inv(s)
  {
    EmptyHolds();
    hide Inv, Next, Enabled;
    var steps :| Legal(EMPTY, steps) && End(EMPTY, steps) == s;
    RunKeeps(EMPTY, steps);
  }

  lemma EmptyHolds()
    ensures Inv(EMPTY)
  {
  }

  // ----- one room per game -----

  lemma ConnectedPlace(s: State, r: RegId)
    requires Placed(s) && Owned(s) && InMap(s) && Shared(s)
    requires r in s.regs && s.regs[r].phase.Connected? && s.regs[r].entry !in s.displaced
    ensures InPlace(s, s.regs[r].game, s.regs[r].entry)
    ensures s.entries[s.regs[r].entry].cell == Some(Room(s.regs[r].phase.room))
  {
  }

  /** Connections to one game that no forget or delete displaced are all to the
      room the map holds for it. */
  lemma OneRoomPerGame(s: State, r: RegId, q: RegId)
    requires Reachable(s)
    requires r in s.regs && s.regs[r].phase.Connected? && s.regs[r].entry !in s.displaced
    requires q in s.regs && s.regs[q].phase.Connected? && s.regs[q].entry !in s.displaced
    requires s.regs[r].game == s.regs[q].game
    ensures s.regs[r].phase.room == s.regs[q].phase.room && s.regs[r].entry == s.regs[q].entry
    ensures InPlace(s, s.regs[r].game, s.regs[r].entry)
  {
    ReachableKeeps(s);
    ConnectedPlace(s, r);
    ConnectedPlace(s, q);
  }

  /** Whether `step` takes an entry of `game` out of the map by a forget or a
      delete. */
  predicate Displaces(s: State, step: Step, game: GameId) {
    match step
    case ForgetGame(g) => g == game
    case DeleteRegister(call, _) => call in s.deletes && s.deletes[call].game == game
    case FinishDelete(r) => r in s.regs && s.regs[r].game == game
    case _ => false
  }

  lemma MovesDisplaceNone(s: State, r: RegId, loaded: Loaded)
    requires At(s, r)
    ensures Begin(s, r).displaced == s.displaced
    ensures Keep(s, r, loaded).displaced == s.displaced
    ensures FillCell(s, r, loaded).displaced == s.displaced
    ensures Drop(s, r).displaced == s.displaced
  {
    hide Inits, Kept, Answered, InPlace, CallOf;
  }

  lemma LeaveDisplacesNone(s: State, r: RegId, runtime: bool)
    requires At(s, r)
    ensures LeaveCall(s, r, runtime).displaced == s.displaced
  {
    hide Abort, Failed, InPlace, CallOf;
  }

  lemma DisplacedByOthers(s: State, step: Step)
    requires Enabled(s, step) && !step.ForgetGame? && !step.DeleteRegister? && !step.FinishDelete?
    ensures Next(s, step).displaced == s.displaced
  {
    hide Begin, Keep, FillCell, Drop, LeaveCall, Abort, Failed, InPlace, Answered, Inits, Afresh, Finish, Forget;
    match step
    case BeginInit(r) => MovesDisplaceNone(s, r, NotFound);
    case KeepOrRemove(r) => MovesDisplaceNone(s, r, s.regs[r].phase.loaded);
    case Fill(r) => MovesDisplaceNone(s, r, s.regs[r].phase.loaded);
    case Cancel(r) => MovesDisplaceNone(s, r, NotFound);
    case LeaveStep(r, runtime) => LeaveDisplacesNone(s, r, runtime);
    case _ =>
  }

  lemma DisplacedBy(s: State, step: Step, e: EntryId)
    requires Placed(s) && Enabled(s, step) && e < |s.entries| && !Displaces(s, step, s.entries[e].game)
    ensures e in Next(s, step).displaced <==> e in s.displaced
  {
    match step
    case ForgetGame(game) => hide Abort;
    case DeleteRegister(call, r) => DisplacedAfresh(s, call, r);
    case FinishDelete(r) =>
    case _ => hide Next, Enabled; DisplacedByOthers(s, step);
  }

  lemma DisplacedAfresh(s: State, call: DeleteId, r: RegId)
    requires Enabled(s, DeleteRegister(call, r))
    ensures Next(s, DeleteRegister(call, r)).displaced == Forget(s, s.deletes[call].game).displaced
  {
    hide Abort, Inits;
  }

  /** Entries stay what they are: of the same game, and with a cell that, once
      set, does not change. */
  ghost predicate CellsKept(s: State, t: State) {
    && |s.entries| <= |t.entries|
    && forall e | 0 <= e < |s.entries| ::
         && t.entries[e].game == s.entries[e].game
         && (s.entries[e].cell.Some? ==> t.entries[e].cell == s.entries[e].cell)
  }

  lemma GoesKeepsCells(s: State, t: State, r: RegId)
    requires Goes(s, t, r) && Fits(s, r)
    ensures CellsKept(s, t)
  {
    hide Narrows, Clears, MovesCall, Serves, Once;
  }

  lemma JoinKeepsCells(s: State, m: State, t: State, game: GameId, r: RegId, role: Option<DeleteId>)
    requires JoinsAfter(s, m, t, game, r, role)
    ensures CellsKept(s, t)
  {
    hide Narrows, Abort;
  }

  lemma RestKeepsCells(s: State, step: Step, t: State)
    requires Shaped(s, step, t) && Mover(step).None?
    ensures CellsKept(s, t)
  {
    hide JoinsAfter, Narrows, InPlace, Forget;
    match step
    case Get(game, r) => JoinKeepsCells(s, s, t, game, r, None);
    case DeleteRegister(call, r) =>
      JoinKeepsCells(s, Forget(s, s.deletes[call].game), t, s.deletes[call].game, r, Some(call));
    case _ =>
  }

  /** A cell is set once: what an entry's load came to never changes. */
  lemma CellSetOnce(s: State, step: Step)
    requires Inv(s) && Enabled(s, step)
    ensures CellsKept(s, Next(s, step))
  {
    var t := Next(s, step);
    StepShaped(s, step);
    MoverThere(s, step);
    if Mover(step).Some? { AllFit(s, Mover(step).value); }
    hide Next, Enabled, Inv, CellsKept, DeletesOnce, Goes, JoinsAfter, Quiets, Leaves, Fits;
    if Mover(step).Some? {
      GoesKeepsCells(s, t, Mover(step).value);
    } else {
      RestKeepsCells(s, step, t);
    }
  }

  lemma ConnectedRests(s: State, step: Step, r: RegId)
    requires Enabled(s, step) && r in s.regs && s.regs[r].phase.Connected? && step != Cancel(r)
    ensures Mover(step) != Some(r) && (step.LeaveStep? ==> step.reg != r)
  {
  }

  lemma GoesOthers(s: State, t: State, q: RegId, r: RegId)
    requires Goes(s, t, q) && r in s.regs && r != q
    ensures r in t.regs && t.regs[r] == s.regs[r]
  {
    hide Narrows, Proper, Clears, MovesCall;
  }

  lemma JoinOthers(s: State, m: State, t: State, game: GameId, q: RegId, role: Option<DeleteId>, r: RegId)
    requires JoinsAfter(s, m, t, game, q, role) && r in s.regs
    ensures r in t.regs && t.regs[r] == s.regs[r]
  {
    hide Narrows, Abort;
  }

  lemma LeaveOthers(s: State, t: State, q: RegId, r: RegId)
    requires Leaves(s, t, q) && r in s.regs && r != q
    ensures r in t.regs && t.regs[r] == s.regs[r]
  {
    hide Inits, Failed, InPlace;
  }

  /** A step that neither moves `r` on nor drops it leaves it alone. */
  lemma StepOthers(s: State, step: Step, t: State, r: RegId)
    requires Shaped(s, step, t) && r in s.regs && Mover(step) != Some(r) && step != LeaveStep(r, true) && step != LeaveStep(r, false)
    ensures r in t.regs && t.regs[r] == s.regs[r]
  {
    hide Goes, JoinsAfter, Leaves, Mover, Narrows, SameTask;
    if Mover(step).Some? {
      GoesOthers(s, t, Mover(step).value, r);
    } else {
      match step
      case Get(game, q) => JoinOthers(s, s, t, game, q, None, r);
      case DeleteRegister(call, q) =>
        JoinOthers(s, Forget(s, s.deletes[call].game), t, s.deletes[call].game, q, Some(call), r);
      case LeaveStep(q, _) => LeaveOthers(s, t, q, r);
      case _ =>
    }
  }

  lemma StaysConnected(s: State, step: Step, r: RegId)
    requires Inv(s) && Enabled(s, step) && r in s.regs && s.regs[r].phase.Connected? && step != Cancel(r)
    ensures r in Next(s, step).regs && Next(s, step).regs[r] == s.regs[r]
  {
    StepShaped(s, step);
    ConnectedRests(s, step, r);
    hide Inv, Next, Enabled, Shaped, Mover, DeletesOnce;
    StepOthers(s, step, Next(s, step), r);
  }

  /** No step of `steps` displaces an entry of `game` or drops connection `r`. */
  ghost predicate Spares(s: State, steps: seq<Step>, game: GameId, r: RegId)
    requires Legal(s, steps)
    decreases |steps|
  {
    steps != [] ==>
      && !Displaces(s, steps[0], game) && steps[0] != Cancel(r)
      && Spares(Next(s, steps[0]), steps[1..], game, r)
  }

  lemma {:induction false} StaysDisplaced(s: State, steps: seq<Step>, r: RegId)
    requires Inv(s) && Legal(s, steps) && r in s.regs && s.regs[r].phase.Connected? && s.regs[r].entry !in s.displaced
    requires Spares(s, steps, s.regs[r].game, r)
    ensures var t := End(s, steps);
      r in t.regs && t.regs[r] == s.regs[r] && t.regs[r].entry !in t.displaced
    decreases |steps|
  {
    if steps != [] {
      assert s.regs[r].entry < |s.entries| && s.entries[s.regs[r].entry].game == s.regs[r].game;
      hide Next, Enabled, Displaces;
      StepKeeps(s, steps[0]);
      DisplacedBy(s, steps[0], s.regs[r].entry);
      CellSetOnce(s, steps[0]);
      StaysConnected(s, steps[0], r);
      hide Inv;
      StaysDisplaced(Next(s, steps[0]), steps[1..], r);
    }
  }

  /** While a connection is live and no forget or delete of its game runs, no
      step takes its entry out of the map, and every get that its entry answers
      is answered that connection's room. No idle timer, however late it wakes, and
      no other get's failure can come between. */
  lemma RoomOutlivesTimers(s: State, steps: seq<Step>, r: RegId, q: RegId)
    requires Reachable(s) && Legal(s, steps)
    requires r in s.regs && s.regs[r].phase.Connected? && s.regs[r].entry !in s.displaced
    requires Spares(s, steps, s.regs[r].game, r)
    ensures var t := End(s, steps);
      && r in t.regs && t.regs[r] == s.regs[r] && s.regs[r].entry < |t.entries|
      && InPlace(t, s.regs[r].game, s.regs[r].entry)
      && t.entries[s.regs[r].entry].cell == Some(Room(s.regs[r].phase.room))
      && (q in t.regs && t.regs[q].entry == s.regs[r].entry && AnswerOf(t.regs[q].phase).Some? ==>
            AnswerOf(t.regs[q].phase) == Some(Room(s.regs[r].phase.room)))
  {
    hide Legal, Spares, AnswerOf, InPlace, Reachable;
    ReachableKeeps(s);
    StaysDisplaced(s, steps, r);
    RunKeeps(s, steps);
    var t := End(s, steps);
    hide End;
    EntryAnswers(t, r, q);
  }

  /** A connection's entry is in its place, and answers everyone with its room. */
  lemma EntryAnswers(s: State, r: RegId, q: RegId)
    requires Inv(s)
    requires r in s.regs && s.regs[r].phase.Connected? && s.regs[r].entry !in s.displaced
    ensures s.regs[r].entry < |s.entries| && InPlace(s, s.regs[r].game, s.regs[r].entry)
    ensures s.entries[s.regs[r].entry].cell == Some(Room(s.regs[r].phase.room))
    ensures q in s.regs && s.regs[q].entry == s.regs[r].entry && AnswerOf(s.regs[q].phase).Some? ==>
              AnswerOf(s.regs[q].phase) == Some(Room(s.regs[r].phase.room))
  {
    ConnectedPlace(s, r);
    hide Counted, InMap, KeepsOnly, Harmless, Pending, NoLeak, DeletesOnce;
  }

  /** A get of a game with a live room registers on it, and the cell it finds
      gives it that room. */
  lemma GetJoinsRoom(s: State, game: GameId, q: RegId, r: RegId)
    requires Reachable(s) && Enabled(s, Get(game, q))
    requires r in s.regs && s.regs[r].game == game && s.regs[r].phase.Connected? && s.regs[r].entry !in s.displaced
    ensures Enabled(Next(s, Get(game, q)), Share(q))
    ensures q in Next(Next(s, Get(game, q)), Share(q)).regs
    ensures Next(Next(s, Get(game, q)), Share(q)).regs[q] == Registration(game, s.regs[r].entry, None, s.regs[r].phase)
  {
    ReachableKeeps(s);
    ConnectedPlace(s, r);
    GetJoins(s, game, q);
    hide Inv;
    GetShares(s, Next(s, Get(game, q)), game, q);
  }

  lemma GetShares(s: State, t: State, game: GameId, q: RegId)
    requires Joins(s, t, game, q, None) && game in s.slots && s.slots[game].entry < |s.entries|
    requires s.entries[s.slots[game].entry].cell.Some? && s.entries[s.slots[game].entry].cell.value.Room?
    ensures Enabled(t, Share(q)) && q in Next(t, Share(q)).regs
    ensures Next(t, Share(q)).regs[q]
            == Registration(game, s.slots[game].entry, None, Connected(s.entries[s.slots[game].entry].cell.value.room))
  {
    hide Abort;
  }

  // ----- counting -----

  /** `timer` is an idle timer of `game`'s slot that would evict it. */
  ghost predicate Current(s: State, game: GameId, timer: TimerId)
    requires game in s.slots
  {
    && timer in s.timers
    && s.timers[timer].entry == s.slots[game].entry
    && s.timers[timer].generation == s.slots[game].generation
  }

  /** A slot counts its live registrations exactly. One with none holds a
      permanent failure or has one timer that would evict it, pending; one with
      a connection, or a failure, has none. No other failure is in the map. */
  lemma ExactCounting(s: State, game: GameId, timer: TimerId)
    requires Reachable(s) && game in s.slots
    ensures s.slots[game].entry < |s.entries|
    ensures s.slots[game].connections == |On(s.regs, s.slots[game].entry)|
    ensures var cell := s.entries[s.slots[game].entry].cell;
      && (Failed(cell) ==> cell == Some(Unbuilt(true)) && s.slots[game].timer.None?)
      && (s.slots[game].connections == 0 && !s.shutdown && !Failed(cell) ==>
            && s.slots[game].timer.Some?
            && Current(s, game, s.slots[game].timer.value) && !s.timers[s.slots[game].timer.value].aborted)
    ensures Current(s, game, timer) ==> s.slots[game].connections == 0 && s.slots[game].timer == Some(timer)
  {
    ReachableKeeps(s);
    assert Outcome(s, s.slots[game].entry).Some? ==> Kept(Outcome(s, s.slots[game].entry).value);
    hide Counted, InMap, Shared, DeletesOnce;
  }

  /** A leave never takes an entry's count below zero. */
  lemma LeaveCountsDown(s: State, r: RegId, runtime: bool)
    requires Reachable(s) && Enabled(s, LeaveStep(r, runtime)) && InPlace(s, s.regs[r].game, s.regs[r].entry)
    ensures InPlace(Next(s, LeaveStep(r, runtime)), s.regs[r].game, s.regs[r].entry)
    ensures Next(s, LeaveStep(r, runtime)).slots[s.regs[r].game].connections == s.slots[s.regs[r].game].connections - 1 >= 0
  {
    ReachableKeeps(s);
    SlotCounts(s, r);
    LeaveStepLeaves(s, r, runtime);
    LeaveCounts(s, Next(s, LeaveStep(r, runtime)), r);
    hide Inv, Next, Leaves, DeletesOnce, Enabled;
  }

  lemma LeaveCounts(s: State, t: State, r: RegId)
    requires Leaves(s, t, r) && InPlace(s, s.regs[r].game, s.regs[r].entry)
    ensures InPlace(t, s.regs[r].game, s.regs[r].entry)
    ensures t.slots[s.regs[r].game].connections == s.slots[s.regs[r].game].connections - 1
  {
  }

  /** A timer that wakes evicts its slot exactly when nobody has registered
      since it started, and then nobody is on it. */
  lemma FireEvictsIdle(s: State, timer: TimerId)
    requires Reachable(s) && Enabled(s, FireStep(timer))
    ensures var t := Next(s, FireStep(timer));
      && (forall g | g in s.slots ::
            g !in t.slots <==> Current(s, g, timer))
      && (forall r | r in s.regs && InPlace(s, s.regs[r].game, s.regs[r].entry) ::
            InPlace(t, s.regs[r].game, s.regs[r].entry))
  {
    ReachableKeeps(s);
    FireEvictsCurrent(s, timer);
    FireEvictsOwn(s, timer);
    forall r | r in s.regs && InPlace(s, s.regs[r].game, s.regs[r].entry)
      ensures InPlace(Fire(s, timer), s.regs[r].game, s.regs[r].entry)
    {
      SlotCounts(s, r);
    }
    hide Inv;
  }

  lemma FireEvictsCurrent(s: State, timer: TimerId)
    requires Placed(s) && Harmless(s) && Pending(s) && timer in s.timers
    ensures forall g | g in s.slots :: g !in Fire(s, timer).slots <==> Current(s, g, timer)
    ensures forall g | g in Fire(s, timer).slots :: g in s.slots && Fire(s, timer).slots[g] == s.slots[g]
  {
  }

  // ----- failures -----

  lemma MoveKeepsFailure(s: State, t: State, r: RegId, game: GameId)
    requires Goes(s, t, r) && CellsKept(s, t) && game in s.slots && s.slots[game].entry < |s.entries|
    requires Failed(s.entries[s.slots[game].entry].cell)
    ensures game in t.slots && t.slots[game] == s.slots[game]
  {
    hide Proper, MovesCall;
  }

  lemma PlainKeepsSlots(s: State, step: Step)
    requires Quiet(step) && !step.ForgetGame? && !step.FireStep? && Enabled(s, step)
    ensures Next(s, step).slots == s.slots
  {
    hide Abort, Inits;
  }

  lemma QuietKeepsFailure(s: State, step: Step, game: GameId)
    requires Quiet(step) && Enabled(s, step) && !Displaces(s, step, game)
    requires game in s.slots && s.slots[game].entry < |s.entries| && Failed(s.entries[s.slots[game].entry].cell)
    ensures game in Next(s, step).slots && Next(s, step).slots[game] == s.slots[game]
  {
    if !step.ForgetGame? && !step.FireStep? {
      PlainKeepsSlots(s, step);
      hide Next, Enabled;
    } else {
      hide Abort;
    }
  }

  lemma RestKeepsFailure(s: State, step: Step, t: State, game: GameId)
    requires Shaped(s, step, t) && Mover(step).None? && !Quiet(step) && !Displaces(s, step, game)
    requires game in s.slots
    ensures InPlace(t, game, s.slots[game].entry)
  {
    hide Abort, Narrows, Failed, Inits;
  }

  /** A failure the map keeps stays: no timer, leave or load takes it out, only a
      forget or a delete of its game. */
  lemma FailureStays(s: State, step: Step, game: GameId)
    requires Inv(s) && Enabled(s, step) && !Displaces(s, step, game)
    requires game in s.slots && s.slots[game].entry < |s.entries| && Failed(s.entries[s.slots[game].entry].cell)
    ensures InPlace(Next(s, step), game, s.slots[game].entry)
  {
    var t := Next(s, step);
    StepShaped(s, step);
    CellSetOnce(s, step);
    hide Inv, Next, Enabled, Goes, JoinsAfter, Leaves, Quiets, DeletesOnce, Displaces, Failed;
    if Mover(step).Some? {
      MoveKeepsFailure(s, t, Mover(step).value, game);
    } else if Quiet(step) {
      QuietKeepsFailure(s, step, game);
    } else {
      RestKeepsFailure(s, step, t, game);
    }
  }
}
