/** Deletes through the room registry: run once, and, once the rows are gone,
    final. */
module RegistryDeletes {
  import opened Wrappers
  import opened Registry
  import opened RegistryRuns
  import opened RegistrySafety

  // ----- once -----

  /** How many of `steps` take the delete of `call`, to run it. */
  ghost function Taken(s: State, steps: seq<Step>, call: DeleteId): nat
    requires Legal(s, steps)
    decreases |steps|
  {
    if steps == [] then 0
    else (if Takes(s, steps[0], call) then 1 else 0) + Taken(Next(s, steps[0]), steps[1..], call)
  }

  predicate Takes(s: State, step: Step, call: DeleteId) {
    step.BeginInit? && step.reg in s.regs && s.regs[step.reg].role == Some(call)
  }

  function Ran(s: State, call: DeleteId): nat {
    if call in s.deletes then s.deletes[call].ran else 0
  }

  lemma BeginRuns(s: State, r: RegId, call: DeleteId)
    requires Fits(s, r) && Enabled(s, BeginInit(r))
    ensures Ran(Next(s, BeginInit(r)), call) == Ran(s, call) + if Takes(s, BeginInit(r), call) then 1 else 0
    ensures Takes(s, BeginInit(r), call) ==> Ran(s, call) == 0
  {
  }

  /** Storage, and what each delete call deletes and how often it ran, are as
      they were. */
  ghost predicate Alike(s: State, t: State) {
    && t.rows == s.rows && t.created == s.created && t.deletes.Keys == s.deletes.Keys
    && forall d | d in s.deletes :: t.deletes[d].game == s.deletes[d].game && t.deletes[d].ran == s.deletes[d].ran
  }

  lemma ForgetAlike(s: State, game: GameId)
    ensures Alike(s, Forget(s, game))
  {
    hide Abort;
  }

  lemma RegisterAlike(s: State, game: GameId, r: RegId)
    ensures Alike(s, Register(s, game, r))
  {
    hide Abort;
  }

  lemma AfreshAlike(s: State, call: DeleteId, r: RegId)
    requires call in s.deletes
    ensures Alike(s, Afresh(s, call, r))
  {
    hide Abort;
  }

  lemma KeepAlike(s: State, r: RegId, loaded: Loaded)
    requires At(s, r)
    ensures Alike(s, Keep(s, r, loaded))
  {
  }

  lemma FillAlike(s: State, r: RegId, loaded: Loaded)
    requires At(s, r)
    ensures Alike(s, FillCell(s, r, loaded))
  {
    hide Answered;
  }

  lemma FinishAlike(s: State, r: RegId)
    requires At(s, r)
    ensures Alike(s, Finish(s, r))
  {
  }

  lemma DropAlike(s: State, r: RegId)
    requires At(s, r)
    ensures Alike(s, Drop(s, r))
  {
    hide Inits;
  }

  lemma LeaveAlike(s: State, r: RegId, runtime: bool)
    requires At(s, r)
    ensures Alike(s, LeaveCall(s, r, runtime))
  {
    hide Abort, Failed;
  }

  lemma FireAlike(s: State, timer: TimerId)
    requires timer in s.timers && s.timers[timer].entry < |s.entries|
    ensures Alike(s, Fire(s, timer))
  {
  }

  lemma StepAlike(s: State, step: Step)
    requires Enabled(s, step)
    requires !step.StartDelete? && !step.BeginInit? && !step.DeleteRuns? && !step.Create? && !step.RoomDeletes?
    ensures Alike(s, Next(s, step))
  {
    hide Register, Afresh, Forget, Keep, FillCell, Finish, Drop, LeaveCall, Fire, Answered;
    match step
    case Get(game, r) => RegisterAlike(s, game, r);
    case DeleteRegister(call, r) => AfreshAlike(s, call, r);
    case ForgetGame(game) => ForgetAlike(s, game);
    case KeepOrRemove(r) => KeepAlike(s, r, s.regs[r].phase.loaded);
    case Fill(r) => FillAlike(s, r, s.regs[r].phase.loaded);
    case FinishDelete(r) => FinishAlike(s, r);
    case Cancel(r) => DropAlike(s, r);
    case LeaveStep(r, runtime) => LeaveAlike(s, r, runtime);
    case FireStep(timer) => FireAlike(s, timer);
    case _ =>
  }

  lemma BeginKeepsCalls(s: State, r: RegId)
    requires At(s, r)
    ensures var t := Begin(s, r);
      && t.rows == s.rows && t.created == s.created && t.deletes.Keys == s.deletes.Keys
      && forall d | d in s.deletes :: t.deletes[d].game == s.deletes[d].game
  {
  }

  lemma StepRan(s: State, step: Step, call: DeleteId)
    requires Enabled(s, step) && (step.BeginInit? ==> Fits(s, step.reg))
    ensures Ran(Next(s, step), call) == Ran(s, call) + if Takes(s, step, call) then 1 else 0
  {
    hide Register, Afresh, Forget, Keep, FillCell, Finish, Drop, LeaveCall, Fire, Answered, Begin;
    match step
    case BeginInit(r) => BeginRuns(s, r, call); hide Next, Enabled, Fits;
    case StartDelete(_, _) =>
    case DeleteRuns(_, _) =>
    case Create(_) =>
    case RoomDeletes(_) =>
    case _ => StepAlike(s, step); hide Next, Enabled;
  }

  lemma {:induction false} RanIsTaken(s: State, steps: seq<Step>, call: DeleteId)
    requires Inv(s) && Legal(s, steps)
    ensures Ran(End(s, steps), call) == Ran(s, call) + Taken(s, steps, call)
    decreases |steps|
  {
    if steps != [] {
      if steps[0].BeginInit? { AllFit(s, steps[0].reg); }
      StepRan(s, steps[0], call);
      StepKeeps(s, steps[0]);
      hide Inv, Next, Enabled, Ran, Takes;
      RanIsTaken(Next(s, steps[0]), steps[1..], call);
    }
  }

  /** However often a delete call registers again, it takes its delete at most
      once, and once if it returns. */
  lemma DeleteRunsOnce(steps: seq<Step>, call: DeleteId)
    requires Legal(EMPTY, steps)
    ensures Taken(EMPTY, steps, call) <= 1
    ensures var t := End(EMPTY, steps); call in t.deletes && t.deletes[call].returned ==> Taken(EMPTY, steps, call) == 1
  {
    EmptyHolds();
    RanIsTaken(EMPTY, steps, call);
    RunKeeps(EMPTY, steps);
    var t := End(EMPTY, steps);
    hide Legal, End, Taken;
    if call in t.deletes { assert Once(call, t.deletes[call], t.regs); }
  }

  // ----- the rows stay gone -----

  /** The rows of a game whose delete returned, or is about to, stay gone. */
  ghost predicate Erased(s: State) {
    && (forall d | d in s.deletes :: s.deletes[d].game in s.created)
    && (forall r | r in s.regs && s.regs[r].phase.RowsGone? :: s.regs[r].game in s.created && s.regs[r].game !in s.rows)
  }

  lemma RowsStayGone(s: State, step: Step, game: GameId)
    requires Enabled(s, step) && game in s.created
    ensures game in Next(s, step).created
    ensures game !in s.rows ==> game !in Next(s, step).rows
  {
    match step
    case StartDelete(_, _) =>
    case BeginInit(r) => BeginKeepsCalls(s, r); hide Begin;
    case DeleteRuns(_, _) =>
    case Create(_) =>
    case RoomDeletes(_) =>
    case _ => StepAlike(s, step); hide Next, Enabled;
  }

  // ----- nothing of the game to come -----

  /** What only a rebuild comes to, and so only with the game's rows. */
  predicate Built(loaded: Loaded) {
    loaded.Room? || loaded.Unbuilt?
  }

  /** A load in this phase read the rows, and comes to what a rebuild makes of
      them. */
  predicate Coming(phase: Phase) {
    phase.Rebuilding? || ((phase.Returned? || phase.Filling?) && Built(phase.loaded))
  }

  /** Entry `x` holds nothing a rebuild came to, and none is coming: whoever waits
      on it finds no game, or a read that failed, unless the rows are there to
      read. */
  ghost predicate Barren(s: State, x: EntryId)
    requires x < |s.entries|
  {
    && (s.entries[x].cell.Some? ==> !Built(s.entries[x].cell.value))
    && (s.entries[x].owner.Some? && s.entries[x].owner.value in s.regs ==> !Coming(s.regs[s.entries[x].owner.value].phase))
  }

  /** `game`'s rows are gone, and only entries in `before`, none of them in the
      map, may still come to anything else than no game. `earlier` are the registrations there
      were; the others are not on one of those entries. */
  ghost predicate Dead(s: State, game: GameId, before: set<EntryId>, earlier: set<RegId>) {
    && game in s.created && game !in s.rows
    && (forall x | x in before :: x < |s.entries|)
    && (game in s.slots ==> s.slots[game].entry !in before)
    && (forall x | 0 <= x < |s.entries| && s.entries[x].game == game && x !in before :: Barren(s, x))
    && (forall q | q in s.regs && q !in earlier && s.regs[q].game == game :: s.regs[q].entry !in before)
  }

  /** A map holds each game's entry, or a newer one; and a new registration is
      on its game's. */
  ghost predicate Ages(s: State, t: State) {
    && |s.entries| <= |t.entries|
    && (forall g | g in t.slots ::
          (g in s.slots && t.slots[g].entry == s.slots[g].entry) || t.slots[g].entry >= |s.entries|)
    && (forall q | q in t.regs ::
          if q in s.regs then t.regs[q].game == s.regs[q].game && t.regs[q].entry == s.regs[q].entry
          else t.regs[q].game in t.slots && t.regs[q].entry == t.slots[t.regs[q].game].entry)
  }

  lemma GoesAges(s: State, t: State, r: RegId)
    requires Goes(s, t, r)
    ensures Ages(s, t)
  {
    hide Proper, Clears, MovesCall;
  }

  lemma JoinAges(s: State, m: State, t: State, game: GameId, r: RegId, role: Option<DeleteId>)
    requires JoinsAfter(s, m, t, game, r, role)
    ensures Ages(s, t)
  {
    hide Abort;
  }

  lemma LeaveAges(s: State, t: State, r: RegId)
    requires Leaves(s, t, r)
    ensures Ages(s, t)
  {
    hide Inits, Failed;
  }

  lemma StepAges(s: State, step: Step, t: State)
    requires Shaped(s, step, t)
    ensures Ages(s, t)
  {
    hide Goes, JoinsAfter, Leaves, Mover, SameTask;
    if Mover(step).Some? {
      GoesAges(s, t, Mover(step).value);
    } else {
      match step
      case Get(game, q) => JoinAges(s, s, t, game, q, None);
      case DeleteRegister(call, q) =>
        JoinAges(s, Forget(s, s.deletes[call].game), t, s.deletes[call].game, q, Some(call));
      case LeaveStep(q, _) => LeaveAges(s, t, q);
      case _ =>
    }
  }

  lemma KeepPhase(s: State, r: RegId, loaded: Loaded)
    requires At(s, r)
    ensures r in Keep(s, r, loaded).regs && Keep(s, r, loaded).regs[r].phase == Filling(loaded)
  {
  }

  lemma FinishPhase(s: State, r: RegId)
    requires At(s, r)
    ensures r in Finish(s, r).regs && Finish(s, r).regs[r].phase == Filling(NotFound)
  {
  }

  lemma DropPhase(s: State, r: RegId)
    requires At(s, r)
    ensures r in Drop(s, r).regs && Drop(s, r).regs[r].phase == Leaving(None)
  {
    hide Inits;
  }

  lemma BeginPhase(s: State, r: RegId)
    requires At(s, r)
    ensures r in Begin(s, r).regs && (Begin(s, r).regs[r].phase.Reading? || Begin(s, r).regs[r].phase.Deleting?)
  {
  }

  lemma FillPhase(s: State, r: RegId, loaded: Loaded)
    requires At(s, r)
    ensures r in FillCell(s, r, loaded).regs
    ensures FillCell(s, r, loaded).regs[r].phase.Connected? || FillCell(s, r, loaded).regs[r].phase.Leaving?
  {
  }

  /** Only reading a game's rows brings anything of it, and only deleting them has them
      gone. */
  lemma PhaseFrom(s: State, step: Step, r: RegId)
    requires Enabled(s, step) && Mover(step) == Some(r) && r in s.regs && r in Next(s, step).regs
    ensures Coming(Next(s, step).regs[r].phase) ==> Coming(s.regs[r].phase) || s.regs[r].game in s.rows
    ensures Next(s, step).regs[r].phase.RowsGone? ==> step == DeleteRuns(r, true) && s.regs[r].phase.Deleting?
  {
    hide Begin, Keep, FillCell, Finish, Drop;
    match step
    case BeginInit(_) => BeginPhase(s, r);
    case KeepOrRemove(_) => KeepPhase(s, r, s.regs[r].phase.loaded);
    case Fill(_) => FillPhase(s, r, s.regs[r].phase.loaded);
    case FinishDelete(_) => FinishPhase(s, r);
    case Cancel(_) => DropPhase(s, r);
    case _ =>
  }

  lemma GoesKeepsBarren(s: State, t: State, r: RegId, x: EntryId)
    requires Goes(s, t, r) && Owned(s) && x < |s.entries| && Barren(s, x)
    requires s.regs[r].entry == x && Coming(t.regs[r].phase) ==> Coming(s.regs[r].phase)
    ensures x < |t.entries| && Barren(t, x)
  {
    hide Clears, MovesCall, Narrows;
  }

  lemma JoinKeepsBarren(s: State, m: State, t: State, game: GameId, r: RegId, role: Option<DeleteId>, x: EntryId)
    requires JoinsAfter(s, m, t, game, r, role) && Owned(s) && x < |t.entries| && (x < |s.entries| ==> Barren(s, x))
    ensures Barren(t, x)
  {
    hide Abort, Narrows;
  }

  lemma LeaveKeepsBarren(s: State, t: State, r: RegId, x: EntryId)
    requires Leaves(s, t, r) && x < |t.entries| && Barren(s, x)
    ensures Barren(t, x)
  {
    hide InPlace;
  }

  lemma MoveKeepsBarren(s: State, step: Step, r: RegId, x: EntryId)
    requires Inv(s) && Enabled(s, step) && Mover(step) == Some(r) && Goes(s, Next(s, step), r)
    requires x < |Next(s, step).entries|
    requires x < |s.entries| ==> Barren(s, x) && s.entries[x].game !in s.rows
    ensures Barren(Next(s, step), x)
  {
    var t := Next(s, step);
    GoesSameEntries(s, t, r);
    AllFit(s, r);
    hide Goes, Next, Enabled, Barren, Inv, Coming;
    PhaseFrom(s, step, r);
    GoesKeepsBarren(s, t, r, x);
  }

  lemma StepKeepsBarren(s: State, step: Step, x: EntryId)
    requires Inv(s) && Enabled(s, step) && x < |Next(s, step).entries|
    requires x < |s.entries| ==> Barren(s, x) && s.entries[x].game !in s.rows
    ensures Barren(Next(s, step), x)
  {
    var t := Next(s, step);
    StepShaped(s, step);
    MoverThere(s, step);
    hide Goes, JoinsAfter, Leaves, Next, Enabled, Narrows, SameTask, Barren, DeletesOnce, Forget, InPlace, Placed, Owned,
         Counted, InMap, KeepsOnly, Shared, Harmless, Pending, NoLeak;
    if Mover(step).Some? {
      MoveKeepsBarren(s, step, Mover(step).value, x);
    } else {
      RestKeepsBarren(s, step, t, x);
    }
  }

  lemma RestKeepsBarren(s: State, step: Step, t: State, x: EntryId)
    requires Owned(s) && Mover(step).None? && Shaped(s, step, t) && x < |t.entries| && (x < |s.entries| ==> Barren(s, x))
    ensures Barren(t, x)
  {
    hide JoinsAfter, Leaves, Narrows, SameTask, Barren, Owned, Forget;
    match step
    case Get(game, q) => JoinKeepsBarren(s, s, t, game, q, None, x);
    case DeleteRegister(call, q) =>
      JoinKeepsBarren(s, Forget(s, s.deletes[call].game), t, s.deletes[call].game, q, Some(call), x);
    case LeaveStep(q, _) => LeaveSameEntries(s, t, q); LeaveKeepsBarren(s, t, q, x);
    case _ => QuietKeepsBarren(s, t, x);
  }

  lemma GoesSameEntries(s: State, t: State, r: RegId)
    requires Goes(s, t, r)
    ensures |t.entries| == |s.entries| && r in t.regs
  {
  }

  lemma LeaveSameEntries(s: State, t: State, r: RegId)
    requires Leaves(s, t, r)
    ensures |t.entries| == |s.entries|
  {
  }

  lemma QuietKeepsBarren(s: State, t: State, x: EntryId)
    requires Quiets(s, t) && x < |s.entries| && Barren(s, x)
    ensures Barren(t, x)
  {
  }

  /** What a map and new registrations hold stays outside `before`. */
  lemma AgesKeepsApart(s: State, t: State, game: GameId, before: set<EntryId>, earlier: set<RegId>)
    requires Ages(s, t) && forall x | x in before :: x < |s.entries|
    requires game in s.slots ==> s.slots[game].entry !in before
    requires forall q | q in s.regs && q !in earlier && s.regs[q].game == game :: s.regs[q].entry !in before
    ensures game in t.slots ==> t.slots[game].entry !in before
    ensures forall q | q in t.regs && q !in earlier && t.regs[q].game == game :: t.regs[q].entry !in before
    ensures forall x | x in before :: x < |t.entries|
  {
  }

  lemma StepKeepsApart(s: State, step: Step, game: GameId, before: set<EntryId>, earlier: set<RegId>)
    requires Dead(s, game, before, earlier) && Inv(s) && Enabled(s, step)
    ensures var t := Next(s, step);
      && game in t.created && game !in t.rows
      && (forall x | x in before :: x < |t.entries|)
      && (game in t.slots ==> t.slots[game].entry !in before)
      && (forall q | q in t.regs && q !in earlier && t.regs[q].game == game :: t.regs[q].entry !in before)
  {
    StepShaped(s, step);
    StepAges(s, step, Next(s, step));
    RowsStayGone(s, step, game);
    AgesKeepsApart(s, Next(s, step), game, before, earlier);
    hide Inv, Enabled, Next, Shaped, DeletesOnce, Barren, Ages;
  }

  lemma StepKeepsDead(s: State, step: Step, game: GameId, before: set<EntryId>, earlier: set<RegId>)
    requires Inv(s) && Enabled(s, step) && Dead(s, game, before, earlier)
    ensures Dead(Next(s, step), game, before, earlier)
  {
    var t := Next(s, step);
    StepKeepsApart(s, step, game, before, earlier);
    CellSetOnce(s, step);
    hide Inv, Enabled, Next, Barren;
    forall x | 0 <= x < |t.entries| && t.entries[x].game == game && x !in before ensures Barren(t, x) {
      StepKeepsBarren(s, step, x);
    }
  }

  lemma {:induction false} RunKeepsDead(s: State, steps: seq<Step>, game: GameId, before: set<EntryId>, earlier: set<RegId>)
    requires Inv(s) && Legal(s, steps) && Dead(s, game, before, earlier)
    ensures Dead(End(s, steps), game, before, earlier)
    decreases |steps|
  {
    if steps != [] {
      StepKeepsDead(s, steps[0], game, before, earlier);
      StepKeeps(s, steps[0]);
      hide Inv, Enabled, Next, Dead;
      RunKeepsDead(Next(s, steps[0]), steps[1..], game, before, earlier);
    }
  }

  /** Whoever is on an entry outside `before` of a dead game finds no game, or a
      read that failed. */
  lemma DeadFindsNone(s: State, game: GameId, before: set<EntryId>, earlier: set<RegId>, q: RegId)
    requires Inv(s) && Dead(s, game, before, earlier)
    requires q in s.regs && s.regs[q].game == game && (q !in earlier || s.regs[q].entry !in before)
    ensures FindsNoGame(AnswerOf(s.regs[q].phase))
  {
    hide Counted, InMap, KeepsOnly, Harmless, Pending, NoLeak, DeletesOnce;
    assert s.regs[q].entry < |s.entries| && s.entries[s.regs[q].entry].game == game;
    assert Barren(s, s.regs[q].entry);
  }

  /** A get with this answer, if it has one, found that there is no game, or that
      the rows could not be read. */
  predicate FindsNoGame(answer: Option<Loaded>) {
    answer in {None, Some(NotFound), Some(ReadFailed)}
  }

  // ----- a delete is final -----

  /** The map holds an entry for `game` with what a rebuild came to, or one that a
      rebuild is coming to. */
  ghost predicate StillLoads(s: State, game: GameId) {
    game in s.slots && s.slots[game].entry < |s.entries| && !Barren(s, s.slots[game].entry)
  }

  /** Entries of `game`, but not the one the map holds. */
  ghost function Elsewhere(s: State, game: GameId): (before: set<EntryId>) {
    set x | 0 <= x < |s.entries| && !InPlace(s, game, x)
  }

  lemma NothingLoadsIsDead(s: State, game: GameId)
    requires Inv(s) && game in s.created && game !in s.rows && !StillLoads(s, game)
    ensures Dead(s, game, Elsewhere(s, game), s.regs.Keys)
  {
    hide Counted, InMap, KeepsOnly, Harmless, Pending, NoLeak, DeletesOnce, Barren, Shared, Owned;
  }

  /** Once a game's rows are gone and the map holds nothing rebuilt of it, nor has
      it coming, every later get that is answered finds no game, or a read that
      failed. */
  lemma LaterGetsFindNoGame(s: State, game: GameId, steps: seq<Step>, q: RegId)
    requires Reachable(s) && game in s.created && game !in s.rows && !StillLoads(s, game)
    requires Legal(s, steps) && q !in s.regs && q in End(s, steps).regs && End(s, steps).regs[q].game == game
    ensures FindsNoGame(AnswerOf(End(s, steps).regs[q].phase))
  {
    ReachableKeeps(s);
    hide Inv, Dead, Legal, StillLoads, Reachable;
    NothingLoadsIsDead(s, game);
    RunKeeps(s, steps);
    RunKeepsDead(s, steps, game, Elsewhere(s, game), s.regs.Keys);
    hide End, AnswerOf, FindsNoGame;
    DeadFindsNone(End(s, steps), game, Elsewhere(s, game), s.regs.Keys, q);
  }

  /** A registration's rows are gone because it just deleted them, or were gone
      already. */
  lemma RowsGoneFrom(s: State, step: Step, r: RegId)
    requires Enabled(s, step) && Shaped(s, step, Next(s, step)) && r in s.regs
    requires r in Next(s, step).regs && Next(s, step).regs[r].phase.RowsGone?
    ensures s.regs[r].phase.RowsGone? || (step == DeleteRuns(r, true) && s.regs[r].phase.Deleting?)
  {
    if Mover(step) == Some(r) {
      PhaseFrom(s, step, r);
      hide Next, Enabled, Shaped;
    } else if !step.LeaveStep? || step.reg != r {
      StepOthers(s, step, Next(s, step), r);
      hide Next, Enabled, Shaped;
    } else {
      assert false;
    }
  }

  lemma JoinWaits(s: State, m: State, t: State, game: GameId, q: RegId, role: Option<DeleteId>, r: RegId)
    requires JoinsAfter(s, m, t, game, q, role) && r !in s.regs && r in t.regs
    ensures t.regs[r].phase.Waiting?
  {
    hide Narrows, Abort;
  }

  lemma JoinerWaits(s: State, step: Step, t: State, r: RegId)
    requires Shaped(s, step, t) && r !in s.regs && r in t.regs
    ensures t.regs[r].phase.Waiting?
  {
    hide JoinsAfter, Proper, Clears, MovesCall, Narrows;
    match step
    case Get(game, q) => JoinWaits(s, s, t, game, q, None, r);
    case DeleteRegister(call, q) => JoinWaits(s, Forget(s, s.deletes[call].game), t, s.deletes[call].game, q, Some(call), r);
    case _ =>
  }

  lemma DeletesKeepGames(s: State, step: Step, d: DeleteId)
    requires Enabled(s, step) && d in Next(s, step).deletes
    ensures if d in s.deletes then Next(s, step).deletes[d].game == s.deletes[d].game
            else step.StartDelete? && Next(s, step).deletes[d].game in s.created
  {
    match step
    case StartDelete(_, _) =>
    case BeginInit(r) => BeginKeepsCalls(s, r); hide Begin;
    case DeleteRuns(_, _) =>
    case Create(_) =>
    case RoomDeletes(_) =>
    case _ => StepAlike(s, step); hide Next, Enabled;
  }

  lemma CallErased(s: State, step: Step, d: DeleteId)
    requires Enabled(s, step) && Erased(s) && d in Next(s, step).deletes
    ensures Next(s, step).deletes[d].game in Next(s, step).created
  {
    DeletesKeepGames(s, step, d);
    RowsStayGone(s, step, Next(s, step).deletes[d].game);
  }

  lemma StepKeepsErased(s: State, step: Step)
    requires Inv(s) && Enabled(s, step) && Erased(s)
    ensures Erased(Next(s, step))
  {
    hide Inv, Next, Enabled;
    forall d | d in Next(s, step).deletes ensures Next(s, step).deletes[d].game in Next(s, step).created {
      CallErased(s, step, d);
    }
    forall r | r in Next(s, step).regs && Next(s, step).regs[r].phase.RowsGone?
      ensures Next(s, step).regs[r].game in Next(s, step).created && Next(s, step).regs[r].game !in Next(s, step).rows
    {
      RegErased(s, step, r);
    }
  }

  lemma RegErased(s: State, step: Step, r: RegId)
    requires Inv(s) && Enabled(s, step) && Erased(s)
    requires r in Next(s, step).regs && Next(s, step).regs[r].phase.RowsGone?
    ensures var t := Next(s, step); t.regs[r].game in t.created && t.regs[r].game !in t.rows
  {
    StepShaped(s, step);
    StepAges(s, step, Next(s, step));
    hide Shaped, DeletesOnce, Inv, Enabled, Next;
    if r !in s.regs { JoinerWaits(s, step, Next(s, step), r); }
    RowsGoneFrom(s, step, r);
    AllFit(s, r);
    RowsStayGone(s, step, s.regs[r].game);
    if step == DeleteRuns(r, true) { RowsDeleted(s, r); }
  }

  lemma RowsDeleted(s: State, r: RegId)
    requires Enabled(s, DeleteRuns(r, true))
    ensures s.regs[r].game !in Next(s, DeleteRuns(r, true)).rows
  {
  }

  lemma {:induction false} RunKeepsErased(s: State, steps: seq<Step>)
    requires Inv(s) && Legal(s, steps) && Erased(s)
    ensures Erased(End(s, steps))
    decreases |steps|
  {
    if steps != [] {
      StepKeepsErased(s, steps[0]);
      StepKeeps(s, steps[0]);
      hide Inv, Enabled, Next, Erased;
      RunKeepsErased(Next(s, steps[0]), steps[1..]);
    }
  }

  lemma ReachableErased(s: State)
    requires Reachable(s)
    ensures Erased(s)
  {
    EmptyHolds();
    hide Inv, Next, Enabled;
    var steps :| Legal(EMPTY, steps) && End(EMPTY, steps) == s;
    RunKeepsErased(EMPTY, steps);
  }

  /** A delete whose entry no forget displaced still holds its place. */
  lemma FinishInPlace(s: State, r: RegId)
    requires Inv(s) && r in s.regs && s.regs[r].phase.RowsGone? && s.regs[r].entry !in s.displaced
    ensures InPlace(s, s.regs[r].game, s.regs[r].entry)
  {
    hide Counted, KeepsOnly, Harmless, Pending, NoLeak, DeletesOnce, Shared;
  }

  lemma FinishDead(s: State, r: RegId)
    requires Enabled(s, FinishDelete(r)) && Fits(s, r) && InPlace(s, s.regs[r].game, s.regs[r].entry)
    requires s.regs[r].game in s.created && s.regs[r].game !in s.rows && Placed(s)
    ensures Dead(Next(s, FinishDelete(r)), s.regs[r].game, Elsewhere(s, s.regs[r].game), s.regs.Keys)
  {
    hide Serves, Once, Abort;
  }

  lemma FinishOutcome(s: State, r: RegId)
    requires Enabled(s, FinishDelete(r)) && Fits(s, r)
    ensures Outcome(Next(s, FinishDelete(r)), s.regs[r].entry) == Some(NotFound)
  {
    hide Serves, Once, Abort;
  }

  /** Once it is known what an entry's load comes to, that does not change. */
  lemma OutcomeStays(s: State, step: Step, x: EntryId)
    requires Inv(s) && Enabled(s, step) && x < |s.entries| && Outcome(s, x).Some?
    ensures x < |Next(s, step).entries| && Outcome(Next(s, step), x) == Outcome(s, x)
  {
    var t := Next(s, step);
    StepShaped(s, step);
    CellSetOnce(s, step);
    hide Next, Enabled, Goes, JoinsAfter, Leaves, Quiets, DeletesOnce, Outcome, CellsKept;
    if Mover(step).Some? {
      MoverOutcome(s, t, Mover(step).value, x);
    } else {
      RestOutcome(s, step, t, x);
    }
  }

  lemma MoverOutcome(s: State, t: State, r: RegId, x: EntryId)
    requires Goes(s, t, r) && Owned(s) && x < |s.entries| && Outcome(s, x).Some?
    ensures x < |t.entries| && Outcome(t, x) == Outcome(s, x)
  {
    GoesSameEntries(s, t, r);
    MoveOutcomes(s, t, r, x);
  }

  lemma RestOutcome(s: State, step: Step, t: State, x: EntryId)
    requires Placed(s) && Owned(s) && Mover(step).None? && Shaped(s, step, t) && x < |s.entries| && Outcome(s, x).Some?
    ensures x < |t.entries| && Outcome(t, x) == Outcome(s, x)
  {
    hide JoinsAfter, Leaves, Narrows, SameTask, Placed, Owned, Forget;
    match step
    case Get(game, q) => JoinOutcome(s, s, t, game, q, None, x);
    case DeleteRegister(call, q) =>
      JoinOutcome(s, Forget(s, s.deletes[call].game), t, s.deletes[call].game, q, Some(call), x);
    case LeaveStep(q, _) => LeaveOutcome(s, t, q, x);
    case _ =>
  }

  lemma JoinOutcome(s: State, m: State, t: State, game: GameId, q: RegId, role: Option<DeleteId>, x: EntryId)
    requires JoinsAfter(s, m, t, game, q, role) && Owned(s) && x < |s.entries|
    ensures x < |t.entries| && Outcome(t, x) == Outcome(s, x)
  {
    hide Abort, Narrows;
  }

  lemma LeaveOutcome(s: State, t: State, q: RegId, x: EntryId)
    requires Leaves(s, t, q) && Owned(s) && x < |s.entries|
    ensures x < |t.entries| && Outcome(t, x) == Outcome(s, x)
  {
    hide InPlace, Failed;
  }

  lemma {:induction false} RunOutcome(s: State, steps: seq<Step>, x: EntryId)
    requires Inv(s) && Legal(s, steps) && x < |s.entries| && Outcome(s, x).Some?
    ensures x < |End(s, steps).entries| && Outcome(End(s, steps), x) == Outcome(s, x)
    decreases |steps|
  {
    if steps != [] {
      OutcomeStays(s, steps[0], x);
      StepKeeps(s, steps[0]);
      hide Inv, Enabled, Next, Outcome;
      RunOutcome(Next(s, steps[0]), steps[1..], x);
    }
  }

  /** Whoever waits on an entry is answered what its load came to. */
  lemma AnsweredOutcome(s: State, q: RegId)
    requires Inv(s) && q in s.regs && s.regs[q].entry < |s.entries| && AnswerOf(s.regs[q].phase).Some?
    ensures AnswerOf(s.regs[q].phase) == Outcome(s, s.regs[q].entry)
  {
    hide Placed, Owned, Counted, InMap, KeepsOnly, Harmless, Pending, NoLeak, DeletesOnce;
  }

  /** A delete linearises: when it finishes on an entry no forget displaced, the
      gets waiting on that entry are answered that there is no game, and every
      get that registers later finds no game. */
  lemma DeleteIsFinal(s: State, r: RegId, steps: seq<Step>, q: RegId)
    requires Reachable(s) && Enabled(s, FinishDelete(r)) && s.regs[r].entry !in s.displaced
    requires Legal(Next(s, FinishDelete(r)), steps) && q in End(Next(s, FinishDelete(r)), steps).regs
    requires End(Next(s, FinishDelete(r)), steps).regs[q].game == s.regs[r].game
    ensures var Registration(_, entry, _, phase) := End(Next(s, FinishDelete(r)), steps).regs[q];
      && (entry == s.regs[r].entry ==> AnswerOf(phase) in {None, Some(NotFound)})
      && (q !in s.regs ==> FindsNoGame(AnswerOf(phase)))
  {
    var game, before := s.regs[r].game, Elsewhere(s, s.regs[r].game);
    var t := Next(s, FinishDelete(r));
    ReachableKeeps(s);
    ReachableErased(s);
    AllFit(s, r);
    FinishInPlace(s, r);
    FinishDead(s, r);
    FinishOutcome(s, r);
    StepKeeps(s, FinishDelete(r));
    CellSetOnce(s, FinishDelete(r));
    assert s.regs[r].entry < |t.entries|;
    hide Inv, Enabled, Next, Dead, Fits, Erased, AnswerOf, FindsNoGame, Outcome, CellsKept, Reachable;
    RunKeeps(t, steps);
    FinalAnswer(t, steps, game, before, s.regs.Keys, s.regs[r].entry, q);
  }

  lemma FinalAnswer(t: State, steps: seq<Step>, game: GameId, before: set<EntryId>, earlier: set<RegId>, x: EntryId, q: RegId)
    requires Inv(t) && Dead(t, game, before, earlier) && x < |t.entries| && Outcome(t, x) == Some(NotFound)
    requires Legal(t, steps) && q in End(t, steps).regs && End(t, steps).regs[q].game == game
    ensures var Registration(_, entry, _, phase) := End(t, steps).regs[q];
      && (entry == x ==> AnswerOf(phase) in {None, Some(NotFound)})
      && (q !in earlier ==> FindsNoGame(AnswerOf(phase)))
  {
    hide Inv, Dead, FindsNoGame, Outcome;
    RunKeeps(t, steps);
    RunKeepsDead(t, steps, game, before, earlier);
    RunOutcome(t, steps, x);
    var u := End(t, steps);
    if q !in earlier { DeadFindsNone(u, game, before, earlier, q); }
    if u.regs[q].entry == x && AnswerOf(u.regs[q].phase).Some? { AnsweredOutcome(u, q); }
    hide End, Legal;
  }

  // ----- exactly when it is -----

  /** `steps` lead to registration `q` finding a room of `game`, or that it cannot
      be rebuilt. */
  ghost predicate Finds(s: State, steps: seq<Step>, q: RegId, game: GameId) {
    && Legal(s, steps)
    && q in End(s, steps).regs && End(s, steps).regs[q].game == game
    && AnswerOf(End(s, steps).regs[q].phase).Some? && Built(AnswerOf(End(s, steps).regs[q].phase).value)
  }

  lemma Prepend(s: State, step: Step, steps: seq<Step>, q: RegId, game: GameId)
    requires Enabled(s, step) && Finds(Next(s, step), steps, q, game)
    ensures Finds(s, [step] + steps, q, game)
  {
    hide Enabled, Next;
    assert ([step] + steps)[1..] == steps;
  }

  lemma Here(s: State, q: RegId, game: GameId)
    requires q in s.regs && s.regs[q].game == game
    requires AnswerOf(s.regs[q].phase).Some? && Built(AnswerOf(s.regs[q].phase).value)
    ensures Finds(s, [], q, game)
  {
  }

  /** `q` waits for what `o` loads into entry `x`. */
  ghost predicate Awaits(s: State, o: RegId, q: RegId, game: GameId, x: EntryId) {
    && x < |s.entries| && s.entries[x].cell.None? && s.entries[x].owner == Some(o)
    && o in s.regs && o != q && s.regs[o].entry == x
    && q in s.regs && s.regs[q] == Registration(game, x, None, Waiting)
  }

  lemma FilledServes(s: State, q: RegId, game: GameId) returns (steps: seq<Step>)
    requires q in s.regs && s.regs[q].game == game && s.regs[q].role.None? && s.regs[q].phase.Waiting?
    requires s.regs[q].entry < |s.entries|
    requires s.entries[s.regs[q].entry].cell.Some? && Built(s.entries[s.regs[q].entry].cell.value)
    ensures Finds(s, steps, q, game)
  {
    Here(Next(s, Share(q)), q, game);
    hide Finds;
    Prepend(s, Share(q), [], q, game);
    steps := [Share(q)] + [];
  }

  lemma FillingServes(s: State, o: RegId, q: RegId, game: GameId, x: EntryId) returns (steps: seq<Step>)
    requires Awaits(s, o, q, game, x) && s.regs[o].phase.Filling? && Built(s.regs[o].phase.loaded)
    ensures Finds(s, steps, q, game)
  {
    var t := Next(s, Fill(o));
    hide Finds;
    var rest := FilledServes(t, q, game);
    Prepend(s, Fill(o), rest, q, game);
    steps := [Fill(o)] + rest;
  }

  lemma ReturnedServes(s: State, o: RegId, q: RegId, game: GameId, x: EntryId) returns (steps: seq<Step>)
    requires Awaits(s, o, q, game, x) && s.regs[o].phase.Returned? && Built(s.regs[o].phase.loaded)
    ensures Finds(s, steps, q, game)
  {
    var t := Next(s, KeepOrRemove(o));
    hide Finds;
    var rest := FillingServes(t, o, q, game, x);
    Prepend(s, KeepOrRemove(o), rest, q, game);
    steps := [KeepOrRemove(o)] + rest;
  }

  lemma ComingServes(s: State, o: RegId, q: RegId, game: GameId, x: EntryId) returns (steps: seq<Step>)
    requires Awaits(s, o, q, game, x) && Coming(s.regs[o].phase)
    ensures Finds(s, steps, q, game)
  {
    hide Finds;
    if s.regs[o].phase.Filling? {
      steps := FillingServes(s, o, q, game, x);
    } else if s.regs[o].phase.Returned? {
      steps := ReturnedServes(s, o, q, game, x);
    } else {
      var built := RebuildDone(o, false, true);
      var rest := ReturnedServes(Next(s, built), o, q, game, x);
      Prepend(s, built, rest, q, game);
      steps := [built] + rest;
    }
  }

  lemma StillLoadsServes(s: State, game: GameId, q: RegId) returns (steps: seq<Step>)
    requires Inv(s) && StillLoads(s, game) && q !in s.regs
    ensures Finds(s, steps, q, game)
  {
    var x := s.slots[game].entry;
    var t := Next(s, Get(game, q));
    GetJoins(s, game, q);
    var rest;
    if s.entries[x].cell.Some? && Built(s.entries[x].cell.value) {
      hide Inv, Next, Abort, Finds;
      rest := FilledServes(t, q, game);
    } else {
      var o := s.entries[x].owner.value;
      assert o in s.regs && s.regs[o].entry == x && s.entries[x].cell.None? by { AllFit(s, o); }
      hide Inv, Next, Abort, Finds;
      rest := ComingServes(t, o, q, game, x);
    }
    Prepend(s, Get(game, q), rest, q, game);
    steps := [Get(game, q)] + rest;
  }

  lemma {:induction false} FreshId(ids: set<nat>) returns (bound: nat)
    ensures forall id | id in ids :: id < bound
    decreases |ids|
  {
    if ids == {} { return 0; }
    var some: nat :| some in ids;
    var rest := FreshId(ids - {some});
    bound := if some < rest then rest else some + 1;
    forall id | id in ids ensures id < bound {
      if id != some { assert id in ids - {some}; }
    }
  }

  ghost predicate FindsLater(s: State, game: GameId) {
    exists q, steps :: q !in s.regs && Finds(s, steps, q, game)
  }

  /** With a game's rows gone, some later get can still find a room, or that the
      game cannot be rebuilt, exactly when the map holds such an answer, or one
      coming. */
  lemma LaterGetsExactly(s: State, game: GameId)
    requires Reachable(s) && game in s.created && game !in s.rows
    ensures FindsLater(s, game) <==> StillLoads(s, game)
  {
    if StillLoads(s, game) {
      ReachableKeeps(s);
      hide Inv, StillLoads, Reachable, Finds;
      var q := FreshId(s.regs.Keys);
      assert q !in s.regs;
      var steps := StillLoadsServes(s, game, q);
    } else if FindsLater(s, game) {
      hide StillLoads, Reachable, Legal, End;
      var q, steps :| q !in s.regs && Finds(s, steps, q, game);
      LaterGetsFindNoGame(s, game, steps, q);
    }
  }

  // ----- two deletes at once -----

  const GAME: GameId := "game"

  lemma {:induction false} EndExtends(s: State, steps: seq<Step>, step: Step)
    requires Legal(s, steps) && Enabled(End(s, steps), step)
    ensures Legal(s, steps + [step]) && End(s, steps + [step]) == Next(End(s, steps), step)
    decreases |steps|
  {
    hide Next, Enabled;
    if steps == [] {
      assert [] + [step] == [step] && [step][1..] == [];
      assert Legal(Next(s, step), []);
    } else {
      assert (steps + [step])[1..] == steps[1..] + [step];
      EndExtends(Next(s, steps[0]), steps[1..], step);
    }
  }

  lemma Reaches(s: State, step: Step) returns (t: State)
    requires Reachable(s) && Enabled(s, step)
    ensures Reachable(t) && t == Next(s, step)
  {
    hide Next, Enabled;
    var steps :| Legal(EMPTY, steps) && End(EMPTY, steps) == s;
    EndExtends(EMPTY, steps, step);
    t := Next(s, step);
  }

  /** `GAME`'s first delete, in registration 1 on entry 0, where a second one, in
      registration 2, has put entry 1 in its place. */
  function Contended(first: Phase, cell: Option<Loaded>, owner: Option<RegId>, returned: bool,
                     second: Phase, rows: set<GameId>): State {
    State(
      map[GAME := Slot(1, 1, 1, None)],
      [Entry(GAME, cell, owner), Entry(GAME, None, if second.Waiting? then None else Some(2))],
      map[1 := Registration(GAME, 0, Some(1), first), 2 := Registration(GAME, 1, Some(2), second)],
      map[], 0,
      map[1 := DeleteCall(GAME, Some(1), 1, returned, false),
          2 := DeleteCall(GAME, Some(2), if second.Waiting? then 0 else 1, false, false)],
      rows, {GAME}, {0}, if second.Returned? || second.Filling? then 1 else 0, false)
  }

  function Alone(phase: Phase): State {
    State(
      map[GAME := Slot(0, 1, 1, None)],
      [Entry(GAME, None, if phase.Waiting? then None else Some(1))],
      map[1 := Registration(GAME, 0, Some(1), phase)], map[], 0,
      map[1 := DeleteCall(GAME, Some(1), if phase.Waiting? then 0 else 1, false, false)],
      {GAME}, {GAME}, {}, 0, false)
  }

  lemma FirstAsked() returns (s: State)
    ensures Reachable(s) && s == EMPTY.(deletes := map[1 := DeleteCall(GAME, None, 0, false, false)], rows := {GAME}, created := {GAME})
  {
    assert Legal(EMPTY, []) && End(EMPTY, []) == EMPTY;
    hide Reachable;
    s := Reaches(EMPTY, Create(GAME));
    s := Reaches(s, StartDelete(1, GAME));
  }

  lemma FirstDeletes()
    ensures Reachable(Alone(Deleting))
  {
    hide Reachable;
    var s := FirstAsked();
    s := Reaches(s, DeleteRegister(1, 1));
    assert s == Alone(Waiting);
    s := Reaches(s, BeginInit(1));
    assert s == Alone(Deleting);
  }

  lemma SecondDisplaces()
    ensures Reachable(Contended(Deleting, None, Some(1), false, Waiting, {GAME}))
  {
    FirstDeletes();
    hide Reachable;
    var s := Reaches(Alone(Deleting), StartDelete(2, GAME));
    s := Reaches(s, DeleteRegister(2, 2));
    assert s == Contended(Deleting, None, Some(1), false, Waiting, {GAME});
  }

  lemma SecondFails()
    ensures Reachable(Contended(Deleting, None, Some(1), false, Rebuilding, {GAME}))
  {
    SecondDisplaces();
    hide Reachable;
    var s := Reaches(Contended(Deleting, None, Some(1), false, Waiting, {GAME}), BeginInit(2));
    assert s == Contended(Deleting, None, Some(1), false, Deleting, {GAME});
    s := Reaches(s, DeleteRuns(2, false));
    s := Reaches(s, ReadRows(2, false));
    assert s == Contended(Deleting, None, Some(1), false, Rebuilding, {GAME});
  }

  lemma FirstDeletesRows()
    ensures Reachable(Contended(RowsGone, None, Some(1), false, Rebuilding, {}))
  {
    SecondFails();
    hide Reachable;
    var s := Reaches(Contended(Deleting, None, Some(1), false, Rebuilding, {GAME}), DeleteRuns(1, true));
    assert s == Contended(RowsGone, None, Some(1), false, Rebuilding, {});
  }

  /** The first delete has returned; its registration is about to leave. */
  function AfterFirst(second: Phase): State {
    Contended(Leaving(Some(NotFound)), Some(NotFound), None, true, second, {})
  }

  lemma FirstFinishes()
    ensures Reachable(Contended(Filling(NotFound), None, Some(1), false, Rebuilding, {}))
  {
    FirstDeletesRows();
    hide Reachable;
    var s := Reaches(Contended(RowsGone, None, Some(1), false, Rebuilding, {}), FinishDelete(1));
    assert s == Contended(Filling(NotFound), None, Some(1), false, Rebuilding, {});
  }

  lemma FirstReturns()
    ensures Reachable(AfterFirst(Rebuilding))
  {
    FirstFinishes();
    hide Reachable;
    var s := Reaches(Contended(Filling(NotFound), None, Some(1), false, Rebuilding, {}), Fill(1));
    assert s == AfterFirst(Rebuilding);
  }

  /** The second delete's load, of a game that cannot be rebuilt, has filled its
      entry, which the map keeps. */
  function Cached(): State {
    AfterFirst(Filling(Unbuilt(true))).(
      entries := [Entry(GAME, Some(NotFound), None), Entry(GAME, Some(Unbuilt(true)), None)],
      regs := map[1 := Registration(GAME, 0, Some(1), Leaving(Some(NotFound))),
                  2 := Registration(GAME, 1, Some(2), Leaving(Some(Unbuilt(true))))],
      deletes := map[1 := DeleteCall(GAME, Some(1), 1, true, false), 2 := DeleteCall(GAME, Some(2), 1, true, false)])
  }

  lemma SecondLoads()
    ensures Reachable(AfterFirst(Filling(Unbuilt(true))))
  {
    FirstReturns();
    hide Reachable;
    var s := Reaches(AfterFirst(Rebuilding), RebuildDone(2, false, true));
    assert s == AfterFirst(Returned(Unbuilt(true)));
    s := Reaches(s, KeepOrRemove(2));
    assert s == AfterFirst(Filling(Unbuilt(true)));
  }

  lemma SecondCaches()
    ensures Reachable(Cached())
  {
    SecondLoads();
    hide Reachable;
    var s := Reaches(AfterFirst(Filling(Unbuilt(true))), Fill(2));
    assert s == Cached();
  }

  /** **A delete that another displaced is not final.** It deletes the rows and
      returns; the other, refused, loads the game from the rows it read first,
      and the map keeps its failure, which the next get finds and not that there
      is no game. */
  lemma DisplacedDeleteIsNotFinal() returns (s: State)
    ensures Reachable(s) && 1 in s.deletes && s.deletes[1].returned && s.deletes[1].game == GAME
    ensures GAME in s.created && GAME !in s.rows && FindsLater(s, GAME)
    ensures Enabled(s, Get(GAME, 3)) && Enabled(Next(s, Get(GAME, 3)), Share(3))
    ensures 3 in Next(Next(s, Get(GAME, 3)), Share(3)).regs
    ensures AnswerOf(Next(Next(s, Get(GAME, 3)), Share(3)).regs[3].phase) == Some(Unbuilt(true))
  {
    s := Cached();
    SecondCaches();
    assert StillLoads(s, GAME);
    LaterGetsExactly(s, GAME);
    hide Reachable, FindsLater, StillLoads;
    CachedAnswers();
  }

  lemma CachedAnswers()
    ensures Enabled(Cached(), Get(GAME, 3)) && Enabled(Next(Cached(), Get(GAME, 3)), Share(3))
    ensures 3 in Next(Next(Cached(), Get(GAME, 3)), Share(3)).regs
    ensures AnswerOf(Next(Next(Cached(), Get(GAME, 3)), Share(3)).regs[3].phase) == Some(Unbuilt(true))
  {
    GetJoins(Cached(), GAME, 3);
  }
}
