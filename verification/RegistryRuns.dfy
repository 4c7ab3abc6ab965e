/** What holds of the room registry in every interleaving. */
module RegistryRuns {
  import opened Wrappers
  import opened Registry

  // ----- the invariant, in parts -----

  /** Slots and registrations name entries of their own game, and nothing
      displaced is in the map. */
  ghost predicate Placed(s: State) {
    && (forall g | g in s.slots ::
          && s.slots[g].entry < |s.entries| && s.entries[s.slots[g].entry].game == g
          && s.slots[g].entry !in s.displaced)
    && (forall r | r in s.regs :: s.regs[r].entry < |s.entries| && s.entries[s.regs[r].entry].game == s.regs[r].game)
    && (forall t | t in s.timers ::
          && t < s.nextTimer
          && s.timers[t].entry < |s.entries| && s.entries[s.timers[t].entry].game == s.timers[t].game)
    && (forall e | e in s.displaced :: e < |s.entries|)
  }

  /** An entry's initializer is the one registration running it, and its cell is
      empty until that one fills it. */
  ghost predicate Owned(s: State) {
    && (forall e | 0 <= e < |s.entries| && s.entries[e].owner.Some? ::
          && s.entries[e].owner.value in s.regs
          && s.regs[s.entries[e].owner.value].entry == e
          && Inits(s.regs[s.entries[e].owner.value].phase))
    && (forall r | r in s.regs && s.regs[r].entry < |s.entries| && Inits(s.regs[r].phase) ::
          s.entries[s.regs[r].entry].owner == Some(r) && s.entries[s.regs[r].entry].cell.None?)
  }

  /** The live registrations counted on `entry`. */
  ghost function On(regs: map<RegId, Registration>, entry: EntryId): set<RegId> {
    set r | r in regs && regs[r].entry == entry
  }

  /** Every slot counts exactly the live registrations on its own entry. */
  ghost predicate Counted(s: State) {
    forall g | g in s.slots :: s.slots[g].connections == |On(s.regs, s.slots[g].entry)|
  }

  /** What an entry's load is known to have come to: what its cell holds, or
      what its initializer is about to put there. */
  ghost function Outcome(s: State, e: EntryId): Option<Loaded>
    requires e < |s.entries|
  {
    var Entry(_, cell, owner) := s.entries[e];
    if cell.Some? then cell
    else if owner.Some? && owner.value in s.regs && s.regs[owner.value].phase.Filling? then
      Some(s.regs[owner.value].phase.loaded)
    else None
  }

  /** A live registration's entry is still in its place, unless a forget or a
      delete displaced it or its load came to nothing the map keeps. */
  ghost predicate InMap(s: State) {
    forall r | r in s.regs && s.regs[r].entry < |s.entries| ::
      || InPlace(s, s.regs[r].game, s.regs[r].entry)
      || s.regs[r].entry in s.displaced
      || (Outcome(s, s.regs[r].entry).Some? && !Kept(Outcome(s, s.regs[r].entry).value))
  }

  /** The map holds no load that came to nothing it keeps. */
  ghost predicate KeepsOnly(s: State) {
    forall g | g in s.slots && s.slots[g].entry < |s.entries| ::
      Outcome(s, s.slots[g].entry).Some? ==> Kept(Outcome(s, s.slots[g].entry).value)
  }

  /** What a get found, a room or a failure, is what its entry's cell holds. */
  ghost predicate Shared(s: State) {
    forall r | r in s.regs && s.regs[r].entry < |s.entries| && AnswerOf(s.regs[r].phase).Some? ::
      s.entries[s.regs[r].entry].cell == AnswerOf(s.regs[r].phase)
  }

  /** An idle timer that could still evict its entry finds no connection on it,
      and is the one the slot names. */
  ghost predicate Harmless(s: State) {
    forall t | t in s.timers && InPlace(s, s.timers[t].game, s.timers[t].entry) ::
      && s.timers[t].generation <= s.slots[s.timers[t].game].generation
      && (s.timers[t].generation == s.slots[s.timers[t].game].generation ==>
            && s.slots[s.timers[t].game].connections == 0
            && s.slots[s.timers[t].game].timer == Some(t))
  }

  /** The timer a slot names is pending, on the slot's current generation, and
      only while the slot has no connection and no failure. */
  ghost predicate Pending(s: State) {
    forall g | g in s.slots && s.slots[g].timer.Some? && s.slots[g].entry < |s.entries| ::
      && s.slots[g].timer.value in s.timers
      && s.timers[s.slots[g].timer.value].game == g
      && s.timers[s.slots[g].timer.value].entry == s.slots[g].entry
      && s.timers[s.slots[g].timer.value].generation == s.slots[g].generation
      && !s.timers[s.slots[g].timer.value].aborted
      && s.slots[g].connections == 0
      && !Failed(s.entries[s.slots[g].entry].cell)
  }

  /** A slot nobody is on waits for its timer or holds a failure. */
  ghost predicate NoLeak(s: State) {
    forall g | g in s.slots && s.slots[g].entry < |s.entries| && s.slots[g].connections == 0 && !s.shutdown ::
      s.slots[g].timer.Some? || Failed(s.entries[s.slots[g].entry].cell)
  }

  /** Registration `r` fits the delete call it is for: while it waits the call
      has not run its delete, and while it runs the initializer it has, once. */
  ghost predicate Serves(r: RegId, reg: Registration, deletes: map<DeleteId, DeleteCall>) {
    if reg.role.None? then !reg.phase.Deleting? && !reg.phase.RowsGone?
    else
      && reg.role.value in deletes
      && var call := deletes[reg.role.value];
      && call.reg == Some(r) && call.game == reg.game
      && !reg.phase.Connected?
      && (reg.phase.Waiting? ==> !call.returned && !call.dropped && call.ran == 0)
      && (Inits(reg.phase) ==> !call.returned && !call.dropped && call.ran == 1)
  }

  /** A delete call has run its delete at most once, once if it returned, and
      until then is in the registration that ran it. */
  ghost predicate Once(d: DeleteId, call: DeleteCall, regs: map<RegId, Registration>) {
    && (call.reg.Some? ==> call.reg.value in regs && regs[call.reg.value].role == Some(d))
    && call.ran <= 1
    && (call.returned ==> call.ran == 1)
    && (call.ran == 1 && !call.returned && !call.dropped ==> call.reg.Some? && Inits(regs[call.reg.value].phase))
  }

  ghost predicate DeletesOnce(s: State) {
    && (forall r | r in s.regs :: Serves(r, s.regs[r], s.deletes))
    && (forall d | d in s.deletes :: Once(d, s.deletes[d], s.regs))
  }

  ghost predicate Inv(s: State) {
    && Placed(s)
    && Owned(s)
    && Counted(s)
    && InMap(s)
    && KeepsOnly(s)
    && Shared(s)
    && Harmless(s)
    && Pending(s)
    && NoLeak(s)
    && DeletesOnce(s)
  }

  // ----- counting -----

  lemma OnAdds(regs: map<RegId, Registration>, r: RegId, reg: Registration, e: EntryId)
    requires r !in regs
    ensures |On(regs[r := reg], e)| == |On(regs, e)| + (if reg.entry == e then 1 else 0)
  {
    assert On(regs[r := reg], e) == On(regs, e) + (if reg.entry == e then {r} else {});
  }

  lemma OnDrops(regs: map<RegId, Registration>, r: RegId, e: EntryId)
    requires r in regs
    ensures |On(regs - {r}, e)| == |On(regs, e)| - (if regs[r].entry == e then 1 else 0)
  {
    assert On(regs - {r}, e) == On(regs, e) - (if regs[r].entry == e then {r} else {});
  }

  lemma Counts(regs: map<RegId, Registration>, r: RegId, e: EntryId)
    requires r in regs && regs[r].entry == e
    ensures |On(regs, e)| >= 1
  {
    assert r in On(regs, e);
  }

  lemma EmptyOn(regs: map<RegId, Registration>, e: EntryId)
    requires forall r | r in regs :: regs[r].entry != e
    ensures |On(regs, e)| == 0
  {
    assert On(regs, e) == {};
  }

  lemma {:induction false} SlotCounts(s: State, r: RegId)
    requires Placed(s) && Counted(s) && r in s.regs
    requires InPlace(s, s.regs[r].game, s.regs[r].entry)
    ensures s.slots[s.regs[r].game].connections >= 1
  {
    Counts(s.regs, r, s.regs[r].entry);
  }


  // ----- a registration moves on -----

  /** Only `r`'s phase, its entry's cell and initializer, and the delete calls
      change, except that slots may leave the map. */
  ghost predicate Moves(s: State, t: State, r: RegId) {
    && At(s, r)
    && t.regs.Keys == s.regs.Keys
    && (forall q | q in s.regs && q != r :: t.regs[q] == s.regs[q])
    && t.regs[r] == s.regs[r].(phase := t.regs[r].phase)
    && |t.entries| == |s.entries|
    && (forall e | 0 <= e < |s.entries| && e != s.regs[r].entry :: t.entries[e] == s.entries[e])
    && t.entries[s.regs[r].entry].game == s.entries[s.regs[r].entry].game
    && Narrows(s, t)
    && t.timers == s.timers && t.nextTimer == s.nextTimer && t.shutdown == s.shutdown
  }

  /** Slots only leave the map, and only entries that left it are displaced. */
  ghost predicate Narrows(s: State, t: State) {
    && (forall g | g in t.slots :: g in s.slots && t.slots[g] == s.slots[g])
    && (forall e | e in t.displaced ::
          || e in s.displaced
          || (e < |s.entries| && e < |t.entries| && !InPlace(t, s.entries[e].game, e)))
    && s.displaced <= t.displaced
  }

  /** `r` begins its entry's initializer, works on it, fills the cell, gives it
      up, or moves beside it. */
  ghost predicate Proper(s: State, t: State, r: RegId)
    requires At(s, r) && At(t, r)
  {
    var was, now := s.entries[s.regs[r].entry], t.entries[t.regs[r].entry];
    var p, q := s.regs[r].phase, t.regs[r].phase;
    && (AnswerOf(q).Some? ==> now.cell == AnswerOf(q))
    && (|| (p.Waiting? && Inits(q) && !q.Filling? && was.cell.None? && was.owner.None? && now == was.(owner := Some(r)))
        || (Inits(p) && !p.Filling? && Inits(q) && now == was)
        || (p.Filling? && !Inits(q) && now == was.(cell := Some(p.loaded), owner := None))
        || (Inits(p) && !p.Filling? && !Inits(q) && now == was.(owner := None))
        || (!Inits(p) && !Inits(q) && now == was))
  }

  lemma MoveKeepsPlaces(s: State, t: State, r: RegId)
    requires Moves(s, t, r) && Placed(s)
    ensures Placed(t)
  {
  }

  lemma MoveKeepsCounts(s: State, t: State, r: RegId)
    requires Moves(s, t, r) && Counted(s)
    ensures Counted(t)
  {
    forall g | g in t.slots ensures t.slots[g].connections == |On(t.regs, t.slots[g].entry)| {
      assert On(t.regs, t.slots[g].entry) == On(s.regs, t.slots[g].entry);
    }
  }

  /** An entry with no connection counted is not `r`'s. */
  lemma Apart(s: State, r: RegId, g: GameId)
    requires At(s, r) && Counted(s) && g in s.slots && s.slots[g].connections == 0
    ensures s.slots[g].entry != s.regs[r].entry
  {
    if s.slots[g].entry == s.regs[r].entry {
      Counts(s.regs, r, s.regs[r].entry);
      assert false;
    }
  }

  lemma MoveKeepsTimers(s: State, t: State, r: RegId)
    requires Moves(s, t, r) && Counted(s) && Harmless(s) && Pending(s) && NoLeak(s)
    ensures Harmless(t) && Pending(t) && NoLeak(t)
  {
    forall g | g in t.slots && t.slots[g].connections == 0 ensures t.slots[g].entry != s.regs[r].entry {
      Apart(s, r, g);
    }
  }

  lemma MoveKeepsOwners(s: State, t: State, r: RegId)
    requires Moves(s, t, r) && Proper(s, t, r) && Owned(s)
    ensures Owned(t)
  {
  }

  lemma MoveKeepsShared(s: State, t: State, r: RegId)
    requires Moves(s, t, r) && Proper(s, t, r) && Owned(s) && Shared(s)
    ensures Shared(t)
  {
  }

  lemma MoveOutcomes(s: State, t: State, r: RegId, e: EntryId)
    requires Moves(s, t, r) && Proper(s, t, r) && Owned(s) && e < |s.entries|
    ensures e != s.regs[r].entry || Outcome(s, e).Some? ==> Outcome(t, e) == Outcome(s, e)
    ensures Outcome(t, e) == Outcome(s, e) || (t.regs[r].phase.Filling? && Outcome(t, e) == Some(t.regs[r].phase.loaded))
  {
  }

  /** `r`'s load came to `t`'s phase; whatever the map does not keep is out. */
  ghost predicate Clears(s: State, t: State, r: RegId)
    requires r in s.regs && r in t.regs
  {
    var gone := t.regs[r].phase.Filling? && !Kept(t.regs[r].phase.loaded);
    && (forall g | g in s.slots && g !in t.slots :: s.slots[g].entry == s.regs[r].entry && gone)
    && (gone ==> !InPlace(t, s.regs[r].game, s.regs[r].entry))
  }

  lemma MoveKeepsKept(s: State, t: State, r: RegId)
    requires Moves(s, t, r) && Proper(s, t, r) && Clears(s, t, r) && Placed(s) && Owned(s) && KeepsOnly(s)
    ensures KeepsOnly(t)
  {
    hide Owned, Proper;
    forall g | g in t.slots && t.slots[g].entry < |t.entries|
      ensures Outcome(t, t.slots[g].entry).Some? ==> Kept(Outcome(t, t.slots[g].entry).value)
    {
      MoveOutcomes(s, t, r, t.slots[g].entry);
    }
  }

  lemma MoveKeepsMap(s: State, t: State, r: RegId)
    requires Moves(s, t, r) && Proper(s, t, r) && Clears(s, t, r) && Placed(s) && Owned(s) && InMap(s)
    requires t.regs[r].phase.Filling? ==> t.entries[t.regs[r].entry].cell.None? && t.entries[t.regs[r].entry].owner == Some(r)
    ensures InMap(t)
  {
    hide Owned, Proper;
    forall q | q in t.regs && t.regs[q].entry < |t.entries|
      ensures || InPlace(t, t.regs[q].game, t.regs[q].entry)
              || t.regs[q].entry in t.displaced
              || (Outcome(t, t.regs[q].entry).Some? && !Kept(Outcome(t, t.regs[q].entry).value))
    {
      MoveOutcomes(s, t, r, t.regs[q].entry);
    }
  }

  /** What a move does to the delete call `r` is for, and to no other. */
  ghost predicate MovesCall(s: State, t: State, r: RegId)
    requires r in s.regs && r in t.regs
  {
    && Serves(r, t.regs[r], t.deletes)
    && if s.regs[r].role.None? then t.deletes == s.deletes
       else
         && s.regs[r].role.value in s.deletes && s.regs[r].role.value in t.deletes
         && t.deletes == s.deletes[s.regs[r].role.value := t.deletes[s.regs[r].role.value]]
         && Once(s.regs[r].role.value, t.deletes[s.regs[r].role.value], t.regs)
  }

  lemma MoveKeepsCalls(s: State, t: State, r: RegId)
    requires Moves(s, t, r) && MovesCall(s, t, r) && DeletesOnce(s)
    ensures DeletesOnce(t)
  {
    forall d | d in t.deletes && s.regs[r].role != Some(d) ensures Once(d, t.deletes[d], t.regs) {
      assert Once(d, s.deletes[d], s.regs);
      assert Serves(r, s.regs[r], s.deletes);
    }
    forall q | q in t.regs && q != r ensures Serves(q, t.regs[q], t.deletes) {
      assert Serves(q, s.regs[q], s.deletes) && Serves(r, s.regs[r], s.deletes);
    }
  }

  /** A registration's move, in all it has to satisfy. */
  ghost predicate Goes(s: State, t: State, r: RegId) {
    && Moves(s, t, r) && Proper(s, t, r) && Clears(s, t, r) && MovesCall(s, t, r)
    && (t.regs[r].phase.Filling? ==>
          t.entries[t.regs[r].entry].cell.None? && t.entries[t.regs[r].entry].owner == Some(r))
  }

  lemma GoesKeeps(s: State, t: State, r: RegId)
    requires Inv(s) && Goes(s, t, r)
    ensures Inv(t)
  {
    hide Placed, Owned, Counted, InMap, KeepsOnly, Shared, Harmless, Pending, NoLeak, DeletesOnce;
    hide Proper, Clears, MovesCall;
    MoveKeepsPlaces(s, t, r);
    MoveKeepsOwners(s, t, r);
    MoveKeepsCounts(s, t, r);
    MoveKeepsMap(s, t, r);
    MoveKeepsKept(s, t, r);
    MoveKeepsShared(s, t, r);
    MoveKeepsTimers(s, t, r);
    MoveKeepsCalls(s, t, r);
  }

  // ----- each move is one -----

  /** What the invariant says of `r` itself. */
  ghost predicate Fits(s: State, r: RegId) {
    && At(s, r)
    && s.entries[s.regs[r].entry].game == s.regs[r].game
    && (Inits(s.regs[r].phase) ==>
          s.entries[s.regs[r].entry].owner == Some(r) && s.entries[s.regs[r].entry].cell.None?)
    && Serves(r, s.regs[r], s.deletes)
    && (s.regs[r].role.Some? ==> Once(s.regs[r].role.value, s.deletes[s.regs[r].role.value], s.regs))
  }

  lemma AllFit(s: State, r: RegId)
    requires Inv(s) && r in s.regs
    ensures Fits(s, r)
  {
    hide Counted, InMap, KeepsOnly, Shared, Harmless, Pending, NoLeak;
    assert Serves(r, s.regs[r], s.deletes);
  }

  lemma BeginGoes(s: State, r: RegId)
    requires Enabled(s, BeginInit(r)) && Fits(s, r)
    ensures Goes(s, Next(s, BeginInit(r)), r)
  {
  }

  lemma ReadGoes(s: State, r: RegId, fails: bool)
    requires Enabled(s, ReadRows(r, fails)) && Fits(s, r)
    ensures Goes(s, Next(s, ReadRows(r, fails)), r)
  {
  }

  lemma RebuildGoes(s: State, r: RegId, ok: bool, permanent: bool)
    requires Enabled(s, RebuildDone(r, ok, permanent)) && Fits(s, r)
    ensures Goes(s, Next(s, RebuildDone(r, ok, permanent)), r)
  {
  }

  lemma KeepMoves(s: State, r: RegId, loaded: Loaded)
    requires Fits(s, r)
    ensures Moves(s, Keep(s, r, loaded), r) && Clears(s, Keep(s, r, loaded), r)
    ensures Keep(s, r, loaded).deletes == s.deletes && Keep(s, r, loaded).entries == s.entries
    ensures Keep(s, r, loaded).regs == s.regs[r := s.regs[r].(phase := Filling(loaded))]
  {
    hide Serves, Once;
  }

  lemma KeepGoes(s: State, r: RegId)
    requires Enabled(s, KeepOrRemove(r)) && Fits(s, r)
    ensures Goes(s, Next(s, KeepOrRemove(r)), r)
  {
    KeepMoves(s, r, s.regs[r].phase.loaded);
    hide Keep, Moves, Clears;
  }

  lemma FillGoes(s: State, r: RegId)
    requires Enabled(s, Fill(r)) && Fits(s, r)
    ensures Goes(s, Next(s, Fill(r)), r)
  {
  }

  lemma ShareGoes(s: State, r: RegId)
    requires Enabled(s, Share(r)) && Fits(s, r)
    ensures Goes(s, Next(s, Share(r)), r)
  {
  }

  lemma DeleteGoes(s: State, r: RegId, ok: bool)
    requires Enabled(s, DeleteRuns(r, ok)) && Fits(s, r)
    ensures Goes(s, Next(s, DeleteRuns(r, ok)), r)
  {
  }

  lemma FinishMoves(s: State, r: RegId)
    requires Fits(s, r)
    ensures Moves(s, Finish(s, r), r) && Clears(s, Finish(s, r), r)
    ensures Finish(s, r).deletes == s.deletes && Finish(s, r).entries == s.entries
    ensures Finish(s, r).regs == s.regs[r := s.regs[r].(phase := Filling(NotFound))]
  {
    hide Serves, Once;
  }

  lemma FinishGoes(s: State, r: RegId)
    requires Enabled(s, FinishDelete(r)) && Fits(s, r)
    ensures Goes(s, Next(s, FinishDelete(r)), r)
  {
    FinishMoves(s, r);
    hide Finish, Moves, Clears;
  }

  lemma DropMoves(s: State, r: RegId)
    requires Fits(s, r)
    ensures Moves(s, Drop(s, r), r) && Clears(s, Drop(s, r), r) && MovesCall(s, Drop(s, r), r)
  {
  }

  lemma CancelGoes(s: State, r: RegId)
    requires Enabled(s, Cancel(r)) && Fits(s, r)
    ensures Goes(s, Next(s, Cancel(r)), r)
  {
    DropMoves(s, r);
    hide Moves, Clears, MovesCall, Serves, Once;
  }

  // ----- forgets, timers and storage -----

  /** No registration or entry changes. A slot leaves the map
      displaced or with no connection, and the timer of one that stays is kept. */
  ghost predicate Quiets(s: State, t: State) {
    && t.regs == s.regs && t.entries == s.entries
    && Narrows(s, t)
    && (forall g | g in s.slots && g !in t.slots :: s.slots[g].entry in t.displaced || s.slots[g].connections == 0)
    && t.nextTimer == s.nextTimer
    && (forall x | x in t.timers :: x in s.timers && SameTask(s.timers[x], t.timers[x]))
    && (forall g | g in t.slots && t.slots[g].timer.Some? && t.slots[g].timer.value in s.timers ::
          t.slots[g].timer.value in t.timers && (t.timers[t.slots[g].timer.value].aborted ==> s.timers[t.slots[g].timer.value].aborted))
    && (s.shutdown ==> t.shutdown)
  }

  ghost predicate SameTask(a: Timer, b: Timer) {
    a.game == b.game && a.entry == b.entry && a.generation == b.generation
  }

  lemma QuietKeepsPlaces(s: State, t: State)
    requires Quiets(s, t) && Placed(s)
    ensures Placed(t)
  {
  }

  lemma QuietKeepsMap(s: State, t: State)
    requires Quiets(s, t) && Placed(s) && Counted(s) && InMap(s)
    ensures InMap(t)
  {
    hide Counted;
    forall r | r in t.regs && t.regs[r].entry < |t.entries|
      ensures InPlace(t, t.regs[r].game, t.regs[r].entry) || t.regs[r].entry in t.displaced
              || (Outcome(t, t.regs[r].entry).Some? && !Kept(Outcome(t, t.regs[r].entry).value))
    {
      assert Outcome(t, t.regs[r].entry) == Outcome(s, t.regs[r].entry);
      if InPlace(s, s.regs[r].game, s.regs[r].entry) { SlotCounts(s, r); }
    }
  }

  lemma QuietKeepsTimers(s: State, t: State)
    requires Quiets(s, t) && Harmless(s) && Pending(s) && NoLeak(s)
    ensures Harmless(t) && Pending(t) && NoLeak(t)
  {
  }

  lemma QuietKeeps(s: State, t: State)
    requires Inv(s) && Quiets(s, t) && DeletesOnce(t)
    ensures Inv(t)
  {
    QuietKeepsPlaces(s, t);
    QuietKeepsMap(s, t);
    QuietKeepsTimers(s, t);
    QuietKeepsRest(s, t);
    hide *;
  }

  lemma QuietKeepsRest(s: State, t: State)
    requires Quiets(s, t) && Owned(s) && Counted(s) && KeepsOnly(s) && Shared(s)
    ensures Owned(t) && Counted(t) && KeepsOnly(t) && Shared(t)
  {
    assert forall e | 0 <= e < |s.entries| :: Outcome(t, e) == Outcome(s, e);
    hide Outcome, On, Inits;
  }

  lemma AbortDrops(timers: map<TimerId, Timer>, timer: Option<TimerId>)
    ensures forall x | x in Abort(timers, timer) :: x in timers && SameTask(timers[x], Abort(timers, timer)[x])
    ensures forall x | x in timers && timer != Some(x) :: x in Abort(timers, timer) && Abort(timers, timer)[x] == timers[x]
  {
  }

  lemma ForgetQuiets(s: State, game: GameId)
    requires Placed(s) && Pending(s)
    ensures Quiets(s, Forget(s, game))
  {
    if game in s.slots {
      AbortDrops(s.timers, s.slots[game].timer);
      hide Abort;
    }
  }

  lemma FireQuiets(s: State, timer: TimerId)
    requires Placed(s) && Harmless(s) && Pending(s) && Enabled(s, FireStep(timer))
    ensures Quiets(s, Next(s, FireStep(timer)))
  {
    FiredQuiets(s, timer);
    hide Quiets, Placed, Harmless, Pending;
  }

  lemma FiredQuiets(s: State, timer: TimerId)
    requires Placed(s) && Harmless(s) && Pending(s) && timer in s.timers
    ensures Quiets(s, Fire(s, timer))
  {
    FireEvictsOwn(s, timer);
    FireRemoves(s, timer);
    hide Harmless, Pending, Failed, Fire, Placed;
  }

  lemma FireRemoves(s: State, timer: TimerId)
    requires Placed(s) && timer in s.timers
    ensures var t := Fire(s, timer);
      && t == s.(timers := s.timers - {timer}, slots := t.slots)
      && Narrows(s, t)
  {
    hide Failed;
  }

  /** A firing timer evicts only a slot with no connection, and always the one
      slot that names it. */
  lemma FireEvictsOwn(s: State, timer: TimerId)
    requires Placed(s) && Harmless(s) && Pending(s) && timer in s.timers
    ensures forall g | g in s.slots && s.slots[g].timer == Some(timer) :: g !in Fire(s, timer).slots
    ensures forall g | g in s.slots && g !in Fire(s, timer).slots :: s.slots[g].connections == 0
  {
  }

  lemma AbortQuiets(s: State, timer: TimerId)
    requires Pending(s) && Placed(s) && Enabled(s, AbortLands(timer))
    ensures Quiets(s, Next(s, AbortLands(timer)))
  {
  }

  // ----- a registration joins -----

  /** `r` is counted on `game`'s entry, a new one if the map held none, for the
      delete call `role` or for a get. */
  ghost predicate Joins(s: State, t: State, game: GameId, r: RegId, role: Option<DeleteId>) {
    var entry := if game in s.slots then s.slots[game].entry else |s.entries|;
    var slot := if game in s.slots then s.slots[game] else Slot(entry, 0, 0, None);
    && r !in s.regs
    && t.regs == s.regs[r := Registration(game, entry, role, Waiting)]
    && t.slots == s.slots[game := Slot(entry, slot.connections + 1, slot.generation + 1, None)]
    && t.entries == (if game in s.slots then s.entries else s.entries + [Entry(game, None, None)])
    && t.timers == Abort(s.timers, slot.timer)
    && t.nextTimer == s.nextTimer && t.displaced == s.displaced && t.shutdown == s.shutdown
  }

  lemma JoinKeepsPlaces(s: State, t: State, game: GameId, r: RegId, role: Option<DeleteId>)
    requires Joins(s, t, game, r, role) && Placed(s)
    ensures Placed(t)
  {
  }

  lemma JoinKeepsOwners(s: State, t: State, game: GameId, r: RegId, role: Option<DeleteId>)
    requires Joins(s, t, game, r, role) && Placed(s) && Owned(s)
    ensures Owned(t)
  {
  }

  lemma JoinKeepsCounts(s: State, t: State, game: GameId, r: RegId, role: Option<DeleteId>)
    requires Joins(s, t, game, r, role) && Placed(s) && Counted(s)
    ensures Counted(t)
  {
    forall g | g in t.slots ensures t.slots[g].connections == |On(t.regs, t.slots[g].entry)| {
      OnAdds(s.regs, r, t.regs[r], t.slots[g].entry);
      if game !in s.slots { EmptyOn(s.regs, |s.entries|); }
    }
  }

  lemma JoinOutcomes(s: State, t: State, game: GameId, r: RegId, role: Option<DeleteId>, e: EntryId)
    requires Joins(s, t, game, r, role) && Placed(s) && Owned(s) && e < |t.entries|
    ensures Outcome(t, e) == if e < |s.entries| then Outcome(s, e) else None
  {
  }

  lemma JoinKeepsMap(s: State, t: State, game: GameId, r: RegId, role: Option<DeleteId>)
    requires Joins(s, t, game, r, role) && Placed(s) && Owned(s) && InMap(s) && KeepsOnly(s) && Shared(s)
    ensures InMap(t) && KeepsOnly(t) && Shared(t)
  {
    forall e | 0 <= e < |t.entries| ensures Outcome(t, e) == if e < |s.entries| then Outcome(s, e) else None {
      JoinOutcomes(s, t, game, r, role, e);
    }
    hide Owned, Outcome, Abort, Kept;
    JoinKeepsInMap(s, t, game, r, role);
    JoinKeepsKept(s, t, game, r, role);
    hide Joins, InMap, KeepsOnly, Shared;
  }

  lemma JoinKeepsInMap(s: State, t: State, game: GameId, r: RegId, role: Option<DeleteId>)
    requires Joins(s, t, game, r, role) && Placed(s) && InMap(s)
    requires forall e | 0 <= e < |t.entries| :: Outcome(t, e) == if e < |s.entries| then Outcome(s, e) else None
    ensures InMap(t)
  {
    hide Outcome, Abort, Kept;
  }

  lemma JoinKeepsKept(s: State, t: State, game: GameId, r: RegId, role: Option<DeleteId>)
    requires Joins(s, t, game, r, role) && Placed(s) && KeepsOnly(s) && Shared(s)
    requires forall e | 0 <= e < |t.entries| :: Outcome(t, e) == if e < |s.entries| then Outcome(s, e) else None
    ensures KeepsOnly(t) && Shared(t)
  {
    hide Outcome, Abort, Kept;
  }

  lemma JoinKeepsHarmless(s: State, t: State, game: GameId, r: RegId, role: Option<DeleteId>)
    requires Joins(s, t, game, r, role) && Placed(s) && Harmless(s)
    ensures Harmless(t)
  {
    AbortDrops(s.timers, if game in s.slots then s.slots[game].timer else None);
    hide Abort;
  }

  lemma JoinKeepsPending(s: State, t: State, game: GameId, r: RegId, role: Option<DeleteId>)
    requires Joins(s, t, game, r, role) && Placed(s) && Pending(s)
    ensures Pending(t)
  {
    AbortDrops(s.timers, if game in s.slots then s.slots[game].timer else None);
    hide Abort;
  }

  lemma JoinKeepsLeakless(s: State, t: State, game: GameId, r: RegId, role: Option<DeleteId>)
    requires Joins(s, t, game, r, role) && Placed(s) && Counted(s) && NoLeak(s)
    ensures NoLeak(t)
  {
  }

  lemma JoinKeepsCalls(s: State, t: State, game: GameId, r: RegId, role: Option<DeleteId>)
    requires Joins(s, t, game, r, role) && DeletesOnce(s)
    requires if role.None? then t.deletes == s.deletes
             else
               && role.value in s.deletes
               && var call := s.deletes[role.value];
               && call.game == game && call.reg.None? && !call.returned && !call.dropped
               && t.deletes == s.deletes[role.value := call.(reg := Some(r))]
    ensures DeletesOnce(t)
  {
    if role.Some? { assert Once(role.value, s.deletes[role.value], s.regs); }
    forall q | q in t.regs ensures Serves(q, t.regs[q], t.deletes) {
      if q != r { assert Serves(q, s.regs[q], s.deletes); }
    }
    forall d | d in t.deletes ensures Once(d, t.deletes[d], t.regs) {
      assert Once(d, s.deletes[d], s.regs);
    }
  }

  lemma JoinKeeps(s: State, t: State, game: GameId, r: RegId, role: Option<DeleteId>)
    requires Inv(s) && Joins(s, t, game, r, role) && DeletesOnce(t)
    ensures Inv(t)
  {
    hide Placed, Owned, Counted, InMap, KeepsOnly, Shared, Harmless, Pending, NoLeak, DeletesOnce, Joins;
    JoinKeepsPlaces(s, t, game, r, role);
    JoinKeepsOwners(s, t, game, r, role);
    JoinKeepsCounts(s, t, game, r, role);
    JoinKeepsMap(s, t, game, r, role);
    JoinKeepsHarmless(s, t, game, r, role);
    JoinKeepsPending(s, t, game, r, role);
    JoinKeepsLeakless(s, t, game, r, role);
  }

  // ----- a registration leaves -----

  /** `r` is uncounted. If it was the last on a slot still in the map, the slot's
      idle timer starts, unless it holds a failure or no runtime is left. */
  ghost predicate Leaves(s: State, t: State, r: RegId) {
    && At(s, r) && !Inits(s.regs[r].phase)
    && t.regs == s.regs - {r}
    && t.entries == s.entries && t.displaced == s.displaced && t.shutdown == s.shutdown
    && var Registration(game, entry, _, _) := s.regs[r];
    && if !InPlace(s, game, entry) then
         t.slots == s.slots && t.timers == s.timers && t.nextTimer == s.nextTimer
       else
         var slot := s.slots[game].(connections := s.slots[game].connections - 1);
         var idle := slot.connections <= 0 && !Failed(s.entries[entry].cell);
         || (&& t.slots == s.slots[game := slot] && t.timers == s.timers && t.nextTimer == s.nextTimer
             && (idle ==> s.shutdown))
         || (&& idle
             && t.slots == s.slots[game := slot.(timer := Some(s.nextTimer))]
             && t.timers == s.timers[s.nextTimer := Timer(game, entry, slot.generation, false, false)]
             && t.nextTimer == s.nextTimer + 1)
  }

  lemma LeaveLeaves(s: State, r: RegId, runtime: bool, deletes: map<DeleteId, DeleteCall>)
    requires At(s, r) && s.regs[r].phase.Leaving? && (runtime || s.shutdown)
    requires InPlace(s, s.regs[r].game, s.regs[r].entry) ==> s.slots[s.regs[r].game].timer.None?
    ensures Leaves(s, Leave(s, r, runtime).(deletes := deletes), r)
  {
  }

  lemma LeftUntimed(s: State, r: RegId)
    requires r in s.regs && Placed(s) && Counted(s) && Pending(s) && InPlace(s, s.regs[r].game, s.regs[r].entry)
    ensures s.slots[s.regs[r].game].timer.None?
  {
    SlotCounts(s, r);
  }

  lemma LeaveKeepsPlaces(s: State, t: State, r: RegId)
    requires Leaves(s, t, r) && Placed(s)
    ensures Placed(t)
  {
  }

  lemma LeaveKeepsOwners(s: State, t: State, r: RegId)
    requires Leaves(s, t, r) && Owned(s)
    ensures Owned(t)
  {
  }

  lemma LeaveKeepsCounts(s: State, t: State, r: RegId)
    requires Leaves(s, t, r) && Placed(s) && Counted(s)
    ensures Counted(t)
  {
    forall g | g in t.slots ensures t.slots[g].connections == |On(t.regs, t.slots[g].entry)| {
      OnDrops(s.regs, r, t.slots[g].entry);
    }
  }

  lemma LeaveKeepsMap(s: State, t: State, r: RegId)
    requires Leaves(s, t, r) && Placed(s) && Owned(s) && InMap(s) && KeepsOnly(s) && Shared(s)
    ensures InMap(t) && KeepsOnly(t) && Shared(t)
  {
    assert forall e | 0 <= e < |t.entries| :: Outcome(t, e) == Outcome(s, e);
    hide Owned, Outcome;
    LeaveKeepsInMap(s, t, r);
    LeaveKeepsKept(s, t, r);
    hide Leaves, InMap, KeepsOnly;
  }

  lemma LeaveKeepsInMap(s: State, t: State, r: RegId)
    requires Leaves(s, t, r) && Placed(s) && InMap(s)
    requires forall e | 0 <= e < |t.entries| :: Outcome(t, e) == Outcome(s, e)
    ensures InMap(t)
  {
    hide Outcome, Inits, Failed, Kept;
  }

  lemma LeaveKeepsKept(s: State, t: State, r: RegId)
    requires Leaves(s, t, r) && Placed(s) && KeepsOnly(s) && Shared(s)
    requires forall e | 0 <= e < |t.entries| :: Outcome(t, e) == Outcome(s, e)
    ensures KeepsOnly(t) && Shared(t)
  {
    hide Outcome, Inits, Failed, Kept, AnswerOf;
  }

  lemma LeaveKeepsTimers(s: State, t: State, r: RegId)
    requires Leaves(s, t, r) && Placed(s) && Counted(s) && Harmless(s)
    ensures Harmless(t)
  {
    if InPlace(s, s.regs[r].game, s.regs[r].entry) { SlotCounts(s, r); }
    hide Counted, Inits, Failed;
  }

  lemma LeaveKeepsPending(s: State, t: State, r: RegId)
    requires Leaves(s, t, r) && Placed(s) && Counted(s) && Pending(s)
    ensures Pending(t)
  {
    if InPlace(s, s.regs[r].game, s.regs[r].entry) { SlotCounts(s, r); }
    hide Counted, Inits, Failed;
  }

  lemma LeaveKeepsLeakless(s: State, t: State, r: RegId)
    requires Leaves(s, t, r) && Placed(s) && NoLeak(s)
    ensures NoLeak(t)
  {
    hide Inits, Failed;
  }

  lemma LeaveKeepsCalls(s: State, t: State, r: RegId)
    requires Leaves(s, t, r) && DeletesOnce(s)
    requires t.deletes == DeletesAfter(s, r)
    ensures DeletesOnce(t)
  {
    assert Serves(r, s.regs[r], s.deletes);
    forall q | q in t.regs ensures Serves(q, t.regs[q], t.deletes) {
      assert Serves(q, s.regs[q], s.deletes);
    }
    forall d | d in t.deletes ensures Once(d, t.deletes[d], t.regs) {
      assert Once(d, s.deletes[d], s.regs);
    }
  }

  lemma LeaveStepLeaves(s: State, r: RegId, runtime: bool)
    requires Inv(s) && Enabled(s, LeaveStep(r, runtime))
    ensures Leaves(s, Next(s, LeaveStep(r, runtime)), r) && DeletesOnce(Next(s, LeaveStep(r, runtime)))
  {
    var t := Next(s, LeaveStep(r, runtime));
    LeaveCalls(s, r, runtime);
    if InPlace(s, s.regs[r].game, s.regs[r].entry) { LeftUntimed(s, r); }
    LeaveLeaves(s, r, runtime, t.deletes);
    hide Placed, Owned, Counted, InMap, KeepsOnly, Shared, Harmless, Pending, NoLeak, DeletesOnce, Leaves, Next;
    LeaveKeepsCalls(s, t, r);
  }

  lemma LeaveKeeps(s: State, t: State, r: RegId)
    requires Inv(s) && Leaves(s, t, r) && DeletesOnce(t)
    ensures Inv(t)
  {
    hide Placed, Owned, Counted, InMap, KeepsOnly, Shared, Harmless, Pending, NoLeak, DeletesOnce, Leaves;
    LeaveKeepsPlaces(s, t, r);
    LeaveKeepsOwners(s, t, r);
    LeaveKeepsCounts(s, t, r);
    LeaveKeepsMap(s, t, r);
    LeaveKeepsTimers(s, t, r);
    LeaveKeepsPending(s, t, r);
    LeaveKeepsLeakless(s, t, r);
  }

  lemma LeaveCalls(s: State, r: RegId, runtime: bool)
    requires Enabled(s, LeaveStep(r, runtime))
    ensures Next(s, LeaveStep(r, runtime)) == Leave(s, r, runtime).(deletes := DeletesAfter(s, r))
  {
    hide Inits, Failed, Abort, Answered;
  }

  /** The delete calls once `r` has left the one it was for. */
  function DeletesAfter(s: State, r: RegId): map<DeleteId, DeleteCall>
    requires r in s.regs
  {
    if s.regs[r].role.None? || s.regs[r].role.value !in s.deletes then s.deletes
    else s.deletes[s.regs[r].role.value := s.deletes[s.regs[r].role.value].(reg := None)]
  }

  // ----- every step -----

  /** A step that registers, seen as the forget before it and the joining. */
  ghost predicate JoinsAfter(s: State, m: State, t: State, game: GameId, r: RegId, role: Option<DeleteId>) {
    Quiets(s, m) && m.deletes == s.deletes && Joins(m, t, game, r, role)
  }

  lemma GetJoins(s: State, game: GameId, r: RegId)
    requires Enabled(s, Get(game, r))
    ensures Joins(s, Next(s, Get(game, r)), game, r, None) && Next(s, Get(game, r)).deletes == s.deletes
  {
    hide Abort, Inits;
  }

  lemma GetShaped(s: State, game: GameId, r: RegId)
    requires Inv(s) && Enabled(s, Get(game, r))
    ensures JoinsAfter(s, s, Next(s, Get(game, r)), game, r, None) && DeletesOnce(Next(s, Get(game, r)))
  {
    GetJoins(s, game, r);
    hide Placed, Owned, Counted, InMap, KeepsOnly, Shared, Harmless, Pending, NoLeak, DeletesOnce, Joins, Next;
    JoinKeepsCalls(s, Next(s, Get(game, r)), game, r, None);
  }

  lemma AfreshJoins(s: State, call: DeleteId, r: RegId)
    requires Enabled(s, DeleteRegister(call, r))
    ensures Joins(Forget(s, s.deletes[call].game), Next(s, DeleteRegister(call, r)), s.deletes[call].game, r, Some(call))
    ensures Next(s, DeleteRegister(call, r)).deletes == s.deletes[call := s.deletes[call].(reg := Some(r))]
  {
    hide Abort, Inits;
  }

  lemma AfreshShaped(s: State, call: DeleteId, r: RegId)
    requires Inv(s) && Enabled(s, DeleteRegister(call, r))
    ensures JoinsAfter(s, Forget(s, s.deletes[call].game), Next(s, DeleteRegister(call, r)), s.deletes[call].game, r, Some(call))
    ensures DeletesOnce(Next(s, DeleteRegister(call, r)))
  {
    var m := Forget(s, s.deletes[call].game);
    ForgetQuiets(s, s.deletes[call].game);
    ForgetKeepsCalls(s, s.deletes[call].game);
    AfreshJoins(s, call, r);
    hide Placed, Owned, Counted, InMap, KeepsOnly, Shared, Harmless, Pending, NoLeak, DeletesOnce, Joins, Next, Quiets;
    JoinKeepsCalls(m, Next(s, DeleteRegister(call, r)), s.deletes[call].game, r, Some(call));
  }

  lemma ForgetKeepsCalls(s: State, game: GameId)
    requires DeletesOnce(s)
    ensures DeletesOnce(Forget(s, game))
  {
    hide Serves, Once, Abort;
  }

  lemma StartKeepsCalls(s: State, call: DeleteId, game: GameId)
    requires DeletesOnce(s) && Enabled(s, StartDelete(call, game))
    ensures DeletesOnce(Next(s, StartDelete(call, game)))
  {
    hide Abort;
  }

  /** The registration a step moves on, if it is a move. */
  function Mover(step: Step): Option<RegId> {
    match step
    case BeginInit(r) => Some(r)
    case ReadRows(r, _) => Some(r)
    case RebuildDone(r, _, _) => Some(r)
    case KeepOrRemove(r) => Some(r)
    case Fill(r) => Some(r)
    case Share(r) => Some(r)
    case DeleteRuns(r, _) => Some(r)
    case FinishDelete(r) => Some(r)
    case Cancel(r) => Some(r)
    case _ => None
  }

  lemma MoverGoes(s: State, step: Step, r: RegId)
    requires Mover(step) == Some(r) && Enabled(s, step) && Fits(s, r)
    ensures Goes(s, Next(s, step), r)
  {
    hide Goes, Fits, Next, Enabled;
    match step
    case BeginInit(_) => BeginGoes(s, r);
    case ReadRows(_, fails) => ReadGoes(s, r, fails);
    case RebuildDone(_, ok, permanent) => RebuildGoes(s, r, ok, permanent);
    case KeepOrRemove(_) => KeepGoes(s, r);
    case Fill(_) => FillGoes(s, r);
    case Share(_) => ShareGoes(s, r);
    case DeleteRuns(_, ok) => DeleteGoes(s, r, ok);
    case FinishDelete(_) => FinishGoes(s, r);
    case Cancel(_) => CancelGoes(s, r);
  }

  predicate Quiet(step: Step) {
    Mover(step).None? && !step.Get? && !step.DeleteRegister? && !step.LeaveStep?
  }

  lemma PlainQuiets(s: State, step: Step)
    requires Quiet(step) && !step.ForgetGame? && !step.FireStep? && !step.AbortLands? && Enabled(s, step)
    ensures Quiets(s, Next(s, step))
  {
    hide Abort, Inits;
  }

  lemma QuietStepQuiets(s: State, step: Step)
    requires Quiet(step) && Enabled(s, step) && Inv(s)
    ensures Quiets(s, Next(s, step))
  {
    hide Placed, Owned, Counted, InMap, KeepsOnly, Shared, Harmless, Pending, NoLeak, DeletesOnce, Quiets, Abort;
    match step
    case ForgetGame(game) => ForgetQuiets(s, game);
    case FireStep(timer) => FireQuiets(s, timer);
    case AbortLands(timer) => AbortQuiets(s, timer);
    case _ => PlainQuiets(s, step);
  }

  lemma QuietKeepsCalls(s: State, step: Step)
    requires Quiet(step) && Enabled(s, step) && DeletesOnce(s)
    ensures DeletesOnce(Next(s, step))
  {
    match step
    case StartDelete(call, game) => StartKeepsCalls(s, call, game);
    case _ => hide Serves, Once, Abort;
  }

  lemma MoveStepKeepsCalls(s: State, t: State, r: RegId)
    requires Goes(s, t, r) && DeletesOnce(s)
    ensures DeletesOnce(t)
  {
    MoveKeepsCalls(s, t, r);
  }

  lemma MoverThere(s: State, step: Step)
    requires Enabled(s, step)
    ensures Mover(step).Some? ==> Mover(step).value in s.regs
  {
  }

  /** Every step is a move, a forget or timer or storage step, a join or a leave. */
  ghost predicate Shaped(s: State, step: Step, t: State) {
    if Mover(step).Some? then Goes(s, t, Mover(step).value)
    else match step
      case Get(game, r) => JoinsAfter(s, s, t, game, r, None)
      case DeleteRegister(call, r) =>
        && call in s.deletes
        && JoinsAfter(s, Forget(s, s.deletes[call].game), t, s.deletes[call].game, r, Some(call))
      case LeaveStep(r, _) => Leaves(s, t, r)
      case _ => Quiets(s, t)
  }

  lemma StepShaped(s: State, step: Step)
    requires Inv(s) && Enabled(s, step)
    ensures Shaped(s, step, Next(s, step)) && DeletesOnce(Next(s, step))
  {
    var t := Next(s, step);
    MoverThere(s, step);
    hide Goes, Quiets, JoinsAfter, Leaves, Next, DeletesOnce;
    if Mover(step).Some? {
      var r := Mover(step).value;
      hide Enabled;
      AllFit(s, r);
      MoverGoes(s, step, r);
      MoveStepKeepsCalls(s, t, r);
    } else if Quiet(step) {
      hide Enabled;
      QuietStepQuiets(s, step);
      QuietKeepsCalls(s, step);
    } else {
      match step
      case Get(game, r) => GetShaped(s, game, r);
      case DeleteRegister(call, r) => AfreshShaped(s, call, r);
      case LeaveStep(r, runtime) => LeaveStepLeaves(s, r, runtime);
    }
  }

  lemma StepKeeps(s: State, step: Step)
    requires Inv(s) && Enabled(s, step)
    ensures Inv(Next(s, step))
  {
    var t := Next(s, step);
    StepShaped(s, step);
    hide Goes, Quiets, JoinsAfter, Leaves, Next, Enabled, Inv;
    if Mover(step).Some? {
      GoesKeeps(s, t, Mover(step).value);
    } else {
      match step
      case Get(game, r) => JoinAfterKeeps(s, s, t, game, r, None);
      case DeleteRegister(call, r) => JoinAfterKeeps(s, Forget(s, s.deletes[call].game), t, s.deletes[call].game, r, Some(call));
      case LeaveStep(r, _) => LeaveKeeps(s, t, r);
      case _ => QuietKeeps(s, t);
    }
  }

  lemma JoinAfterKeeps(s: State, m: State, t: State, game: GameId, r: RegId, role: Option<DeleteId>)
    requires Inv(s) && JoinsAfter(s, m, t, game, r, role) && DeletesOnce(t)
    ensures Inv(t)
  {
    assert DeletesOnce(m) by { hide Serves, Once; }
    QuietKeeps(s, m);
    JoinKeeps(m, t, game, r, role);
  }
}
