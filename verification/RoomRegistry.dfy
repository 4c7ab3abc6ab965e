/** The registry's map (`RoomRegistry`, `Place`, `Registration`), changed in place:
    each method is one section that holds the map's lock. */
module RoomRegistries {
  import opened Wrappers
  import opened Registry

  class RoomRegistry {
    var rooms: map<GameId, Slot>
    var entries: seq<Entry>
    var registrations: map<RegId, Registration>
    var timers: map<TimerId, Timer>
    var nextTimer: TimerId
    /** The entries a forget or a delete took out of `rooms`. */
    ghost var displaced: set<EntryId>

    /** The registry as a state of the protocol. Storage and the calls under way
        are not the map's. */
    ghost function Value(): State
      reads this
    {
      EMPTY.(slots := rooms, entries := entries, regs := registrations, timers := timers, nextTimer := nextTimer,
             displaced := displaced)
    }

    ghost predicate Valid()
      reads this
    {
      && (forall g | g in rooms :: rooms[g].entry < |entries|)
      && (forall r | r in registrations :: registrations[r].entry < |entries|)
      && (forall t | t in timers :: timers[t].entry < |entries|)
    }

    constructor ()
      ensures Valid() && Value() == EMPTY
    {
      rooms, entries, registrations, timers, nextTimer, displaced := map[], [], map[], map[], 0, {};
    }

    /** Put a slot for a new, unloaded entry in the map. */
    method Insert(game: GameId)
      requires Valid()
      modifies this`rooms, this`entries
      ensures Valid() && Value() == PutUnloaded(old(Value()), game)
    {
      entries := entries + [Entry(game, None, None)];
      rooms := rooms[game := Slot(|entries| - 1, 0, 0, None)];
    }

    /** Abort an idle timer. One that has woken may run all the same. */
    method AbortTimer(timer: TimerId)
      requires Valid()
      modifies this`timers
      ensures Valid() && timers == Abort(old(timers), Some(timer))
      ensures forall t | t in timers :: t in old(timers) && timers[t].entry == old(timers)[t].entry
    {
      if timer in timers {
        if timers[timer].woken {
          timers := timers[timer := timers[timer].(aborted := true)];
        } else {
          timers := timers - {timer};
        }
      }
    }

    /** Count a connection on `game`'s slot and abort its idle timer. */
    method Count(game: GameId, reg: RegId, role: Option<DeleteId>)
      requires Valid() && game in rooms
      modifies this`rooms, this`timers, this`registrations
      ensures Valid() && Value() == CountOn(old(Value()), game, reg, role)
    {
      var slot := rooms[game];
      slot := slot.(connections := slot.connections + 1);
      slot := slot.(generation := slot.generation + 1);
      if slot.timer.Some? {
        AbortTimer(slot.timer.value);
        slot := slot.(timer := None);
      }
      rooms := rooms[game := slot];
      registrations := registrations[reg := Registration(game, slot.entry, role, Waiting)];
    }

    /** Register a get on `game`'s entry, putting one in the map if there is
        none. */
    method RegisterGet(game: GameId, reg: RegId)
      requires Valid()
      modifies this
      ensures Valid() && Value() == Register(old(Value()), game, reg)
    {
      if game !in rooms {
        Insert(game);
      }
      Count(game, reg, None);
    }

    /** Register on a new entry, in place of whatever the map held. */
    method RegisterDelete(game: GameId, reg: RegId, role: DeleteId)
      requires Valid()
      modifies this
      ensures Valid() && Value() == RegisterAfresh(old(Value()), game, reg, Some(role))
    {
      ghost var before := Value();
      var replaced := if game in rooms then rooms[game].timer else None;
      if game in rooms { displaced := displaced + {rooms[game].entry}; }
      Insert(game);
      if replaced.Some? {
        AbortTimer(replaced.value);
      }
      assert Value().slots == PutUnloaded(Forget(before, game), game).slots;
      assert Value() == PutUnloaded(Forget(before, game), game);
      Count(game, reg, Some(role));
    }

    method ForgetRoom(game: GameId)
      requires Valid()
      modifies this
      ensures Valid() && Value() == Forget(old(Value()), game)
    {
      if game in rooms {
        var slot := rooms[game];
        rooms := rooms - {game};
        displaced := displaced + {slot.entry};
        if slot.timer.Some? {
          AbortTimer(slot.timer.value);
        }
      }
    }

    /** Remove `entry` if it is still there. */
    method RemoveIfThere(game: GameId, entry: EntryId)
      requires Valid()
      modifies this`rooms
      ensures Valid() && Value() == RemoveEntry(old(Value()), game, entry)
    {
      if game in rooms && rooms[game].entry == entry {
        rooms := rooms - {game};
      }
    }

    /** A registration drops. `runtime` says whether a timer can still be
        spawned. */
    method DropRegistration(reg: RegId, runtime: bool)
      requires Valid() && reg in registrations
      modifies this
      ensures Valid() && Value() == Leave(old(Value()), reg, runtime)
    {
      var Registration(game, entry, _, _) := registrations[reg];
      registrations := registrations - {reg};
      if game !in rooms || rooms[game].entry != entry { return; }
      var slot := rooms[game];
      slot := slot.(connections := slot.connections - 1);
      rooms := rooms[game := slot];
      if slot.connections > 0 || Failed(entries[entry].cell) { return; }
      if !runtime { return; }
      StartIdleTimer(game);
    }

    /** Start the idle timer of `game`'s slot, in place of any it has. */
    method StartIdleTimer(game: GameId)
      requires Valid() && game in rooms
      modifies this`timers, this`rooms, this`nextTimer
      ensures Valid() && Value() == StartIdle(old(Value()), game)
    {
      var slot := rooms[game];
      if slot.timer.Some? {
        AbortTimer(slot.timer.value);
      }
      timers := timers[nextTimer := Timer(game, slot.entry, slot.generation, false, false)];
      rooms := rooms[game := slot.(timer := Some(nextTimer))];
      nextTimer := nextTimer + 1;
    }

    /** A woken idle timer evicts its entry. */
    method TimerFires(timer: TimerId)
      requires Valid() && timer in timers
      modifies this
      ensures Valid() && Value() == Fire(old(Value()), timer)
    {
      var Timer(game, entry, generation, _, _) := timers[timer];
      timers := timers - {timer};
      if game in rooms && rooms[game].entry == entry {
        if rooms[game].generation == generation && !Failed(entries[entry].cell) {
          rooms := rooms - {game};
        }
      }
    }
  }
}
