# Eldritch: the protocols around the rules engine, verified

Eldritch is a server for a cooperative card game. Its rules engine is one
deterministic function; everything else in this project is what stands around
it and must hold over unbounded runs. Each module models one part of the
program, in the program's own terms and with its own branches and refusals, and
proves what that part is for. The engine itself is an arbitrary function
(`Engine.Registries`), so every theorem holds of every engine.

**The event-sourced game** (`LoggedAnswer`, `Fingerprint`, `LiveGame`, `Store`,
`Session`, `Replay`, `Resuming`). A started game is stored as its creation inputs and a log
of answers, each naming its picks by what they are rather than by their number.
The live game in memory is a cache of replaying that log. `Replay` proves that a
rebuild of what play stored gives back the very game, or fails and names the
first answer it cannot place. `Resuming` takes any stored game, whatever build
stored it and whatever setup and the engine do now: exactly which still resume,
to what, and what stops each of the others.

**The room and the lobby** (`Lobby`, `LobbyRuns`, `LobbyCommands`, `Room`,
`RoomRuns`, `RoomDecisions`). A request
is decided, stored, swapped in and broadcast. `RoomRuns` is a state machine of
requests, failed writes, crashes and a dropped delete between the write and the
swap, loads and connections: exactly when memory equals storage, that a crash
loses nothing stored, and that each connection's first message with the events
after it is always the room's current game. `LobbyCommands` and `RoomDecisions`
say exactly who may ask what, what the store could refuse, and what is told to
whom.

**The room registry** (`Registry`, `RegistryRuns`, `RegistrySafety`,
`RegistryRooms`, `RegistryDeletes`, `RoomRegistry`, `Server`). The map from games to rooms, as a
concurrent protocol: gets, waits on a once-cell, cancelled loads, leaves, idle timers that
may wake after they were aborted, forgets, and deletes that hold an entry's
place. Every section that holds the map's lock is one step. `RoomRegistry` is
the same sections as methods that change the map in place. `Server` puts the
registry and the rooms together.

**The seeded shuffle** (`Rng`, `FisherYates`). The in-place shuffle, equal to a
function of its index choices, which are in one-to-one correspondence with the
orders of its items; each choice is what the stream's next value leaves over, and
how far that is from even is counted.

**The two converters.** `RulesParser`, `RulesParsing`, `RulesReopening`,
`RulesRendering`, `RulesText` and `RulesTreeBuilder` are the repairing HTML tree
builder and the inline renderer. The builder conserves the text and breaks of the
page, and around each piece the blocks and inline tags that a reading of the tags
by themselves keeps open; the shape of its trees keeps one of the renderer's
errors out of reach, and the renderer keeps every letter. `FaqSweep` is the
resumable crawl beside them. `FaqColumns`, `FaqParagraphs`, `FaqPages` and
`FaqGroups` find the columns of a page by its gutters and regroup its lines in
reading order.

## What turned out not to hold

Each of these is a lemma with a concrete input, beside one that says exactly
when the property does hold.

- A prompt that offers two options with the same key strands the game: either
  pick is accepted, recorded and stored, and never replays
  (`LoggedAnswers.AlikeOptionsStrand`; exactly when in `LoggedAnswers.RecordThenReplay`
  and `Replays.RebuildIsPlay`). A log longer than 2^32 - 1 answers does not load
  either, because replay counts positions in 32 bits.
- A Take sent by an account that was just removed from the lobby is accepted, so
  an investigator can be held by an account that is no member
  (`LobbyRuns.RemovedThenTakes`; exactly when in `LobbyRuns.TakeKeepsPickers`).
- Memory does not equal storage after a delete whose request is dropped once its
  rows went: the room keeps the game, and a lobby left so can even be started
  again (`RoomRuns.DroppedDeleteCutsOff`, `RoomRuns.DeletedLobbyStarts`; exactly when in
  `RoomRuns.MemoryEqualsStorage`).
- `delete_with` promises that once it deleted the rows no later get finds the
  game. A second delete that takes the first one's place in the map and is
  refused breaks this: it loads the game from the rows it read first, and every
  later get finds the failure the map keeps
  (`RegistryDeletes.DisplacedDeleteIsNotFinal`; exactly when in
  `RegistryDeletes.LaterGetsExactly`).
- The FAQ crawl, interrupted between two writes of one code, can lose the code:
  the sweep, resumed by refreshes, ends without errors and the code is neither in a file nor on
  the list, or in both (`FaqSweep.InterruptedSweepLosesCode`; exactly when in
  `FaqSweep.InterruptedInside`).
- Text blocks whose extents overlap need not end up in one paragraph, against
  the comment on `paragraphs`: a line can join two groups, which are not merged,
  and two blocks can overlap with no line of one near a line of the other
  (`FaqGroups.OverlappingBlocksSplit`, `FaqGroups.InterleavedBlocksSplit`;
  exactly when in `FaqGroups.RelatedStayTogether` and
  `FaqGroups.BlocksReassembled`).
- Inline rendering is safe from blocks for paragraphs and runs of inline tags,
  not for headings, notes and table cells, which are rendered inline too
  (`RulesRendering.OnlyParagraphsAreSafe`).

## Model

| member | source | states |
|---|---|---|
| `LoggedAnswers.RecordThenReplay` | crates/protocol/src/logged_answer.rs:161-185 | replaying a recorded answer gives the original action, order and multiplicity kept, if and only if each pick's key names one option; otherwise it fails at the first that does not, with the number of matches |
| `LoggedAnswers.DistinctKeysReplay` | crates/protocol/src/logged_answer.rs:255-284 | with distinct keys the inversion is total |
| `LoggedAnswers.ReplayThenRecord` | crates/protocol/src/logged_answer.rs:255-295 | against any prompt of the same identity, replay succeeds if and only if each logged key names one option, and then recording its action gives the same keyed answer |
| `LoggedAnswers.RenumberedPromptReplays` | crates/protocol/src/logged_answer.rs:286-295 | a recorded answer replays against another prompt of its identity if and only if each key picked names one option there, picking the same keyed options; with the options only reordered and renumbered, if and only if it replays where it was recorded |
| `LoggedAnswers.AlikeOptionsStrand` | crates/protocol/src/logged_answer.rs:286-295 | two options alike but for their ids: either pick is recorded and fails to replay with two matches |
| `LoggedAnswers.RecordExactly` | crates/protocol/src/logged_answer.rs:161-185 | a response is recorded if and only if an option is offered under each id it picks: its form, investigator and prompt, and for each id what the first option offered under it is; else it is refused for the first id not offered |
| `LoggedAnswers.ReplayExactly` | crates/protocol/src/logged_answer.rs:255-295 | against any prompt: one of another kind, target or responder has changed; else the logged answer's own action, picking the option each key names, or the first key that names none or several |
| `Fingerprint.ComputeFirstDiffering` | crates/server/src/fingerprint.rs:168-182 | the loop finds the length of the longest common prefix, or nothing if the two are equal |
| `Fingerprint.ComputeFirstDifference` | crates/server/src/fingerprint.rs:110-144 | the comparison loop computes the first differing zone in the order of the zones |
| `Fingerprint.NoDifferenceIsEqual` | crates/server/src/fingerprint.rs:106-144 | no difference is reported if and only if the fingerprints are equal |
| `Fingerprint.DifferenceIsFirst` | crates/server/src/fingerprint.rs:106-144 | a reported zone is the first that differs, at its longest common prefix: the seated, then one investigator after another the hand and the deck, then the encounter deck, then the bag |
| `Fingerprint.TokenNameInjective` | crates/server/src/fingerprint.rs:155-166 | no two chaos tokens share a name, whatever their modifiers |
| `Fingerprint.FingerprintIsFaithful` | crates/server/src/fingerprint.rs:85-104 | two states have one fingerprint if and only if their seated investigators, hands, decks, encounter deck and bag agree |
| `LiveGames.LiveGame.Install` | crates/protocol/src/live.rs:342-356 | committing installs the accepted state and outcome and moves to the next prompt, and changes nothing else |
| `LiveGames.LiveGame.InstallReassignment` | crates/protocol/src/live.rs:411-418 | committing a reassignment changes the holders and nothing else |
| `LiveGames.LiveGame.AddMember` | crates/protocol/src/live.rs:196-203 | joining adds a new member at the end and tells whether it did |
| `LiveGames.ReassignMovesOne` | crates/protocol/src/live.rs:374-406 | an accepted reassignment moves one investigator to a member who did not hold it, decided by the creator or the old holder |
| `LiveGames.SubmitExactly` | crates/protocol/src/live.rs:307-334 | an answer is accepted if and only if it is to the awaited prompt, by the account that holds its investigator, not rejected by the engine, and one the prompt can record; else the first of these that fails is the refusal |
| `LiveGames.ReassignExactly` | crates/protocol/src/live.rs:374-406 | a reassignment is accepted if and only if a prompt waits, the investigator is seated, the creator or its holder asks, and the new holder is a member who does not hold it; else the first of these that fails is the refusal |
| `Store.ToSqlInteger` | crates/server/src/session.rs:682-684 | any 64 unsigned bits fit a signed column and come back |
| `Store.SqlIntegersRoundTrip` | crates/server/src/session.rs:682-689 | every column value is some 64 bits, so both ways round-trip |
| `Store.DenseReadsInOrder` | crates/server/src/session.rs:526-556 | a log with exactly the positions 0 to n-1 reads back in that order |
| `Sessions.GameSession.Apply` | crates/server/src/session.rs:433-454 | decide, store, commit: a refused or unstored answer changes neither memory nor rows, an accepted one changes both by itself; only an acceptable answer is, and a refusal names the first thing it fails |
| `Sessions.GameSession.ReassignInvestigator` | crates/server/src/session.rs:468-484 | the same for a reassignment |
| `Replays.PlayReplays` | crates/server/src/session.rs:618-678 | replaying the log a run stored ends where the run ended, or stops at its first ambiguous answer |
| `Replays.RebuildIsPlay` | crates/server/src/session.rs:559-678 | a rebuild equals the live game in every field if and only if somebody holds an investigator, the log fits its count and no pick was ambiguous; else it fails naming the first such answer |
| `Resuming.RebuildExactly` | crates/server/src/session.rs:559-678 | any stored game rebuilds if and only if it is of this version, somebody holds an investigator, its creator and lead can be read, setup opens it with the very fingerprint stored, the log fits its count, and at each position the engine awaits the logged prompt, each pick names one option, the engine accepts the answer and stands at the logged draws; else the error names the first of these that fails |
| `Resuming.RebuildSession` | crates/server/src/session.rs:559-646 | the replay loop gives a session exactly of a stored game that still resumes, at where its log leads, or the first thing that stops it |
| `Resuming.SetUpExactly` | crates/server/src/session.rs:361-404 | a game starts, with the row that is stored, if and only if its scenario is known, the engine seats it, exactly the seated have holders and its lead fits; else the first of these that fails is the error |
| `Replays.DistinctPromptsReload` | crates/server/src/session.rs:559-678 | under an engine whose prompts keep keys distinct, every played game rebuilds to itself |
| `Replays.SetUpRecords` | crates/server/src/session.rs:361-404 | a new game's rows record its session before any answer, and its assignment covers exactly the seated |
| `Replays.CommitRecords` | crates/server/src/session.rs:433-454 | an answer stored and committed extends the record by itself |
| `Replays.ReassignRecords` | crates/server/src/session.rs:468-484 | a reassignment keeps the record and leaves the log alone: replay does not depend on who holds whom |
| `FisherYates.ShuffledPermutes` | crates/game-core/src/rng.rs:103-120 | a shuffle loses, adds and duplicates nothing |
| `FisherYates.ShuffledInjective` | crates/game-core/src/rng.rs:103-120 | on distinct items two choice vectors never give one order |
| `FisherYates.EveryOrderReachable` | crates/game-core/src/rng.rs:103-120 | every order of the items is reached by some choice vector |
| `FisherYates.ChoiceCount` | crates/game-core/src/rng.rs:103-120 | the choice vectors of n items, no others, number exactly n! |
| `FisherYates.OneChoiceVectorAnOrder` | crates/game-core/src/rng.rs:103-120 | on n distinct items exactly one of the n! choice vectors gives each order, and each gives one |
| `FisherYates.ShuffledRelabels` | crates/game-core/src/rng.rs:103-120 | shuffling commutes with relabelling |
| `Rng.ReconstructionIsStepping` | crates/game-core/src/rng.rs:11-27 | rebuilding the stream at word position 2 * draws reads what stepping there one draw at a time reads |
| `Rng.RngState.NextU64` | crates/game-core/src/rng.rs:75-90 | a draw reads the stream at the current count, rebuilt from the seed, and advances the count by one |
| `Rng.RngState.NextIndex` | crates/game-core/src/rng.rs:85-101 | an index is what dividing by n the value read by stepping through the stream leaves over, and the count advances by one |
| `Rng.IndexIsLeftOver` | crates/game-core/src/rng.rs:92-101 | what dividing the value read by stepping there by n leaves over, and no other number, is the index drawn |
| `Rng.IndexBias` | crates/game-core/src/rng.rs:92-101 | of the 2^64 values the draw can read, exactly floor(2^64/n) give each index, and one more those below 2^64 mod n |
| `Rng.ChoicesAreLeftOver` | crates/game-core/src/rng.rs:103-120 | each step of a shuffle chooses what the stream's next value leaves over when divided by the number of items in play |
| `Rng.RngState.Shuffle` | crates/game-core/src/rng.rs:103-120 | the in-place loop leaves the array as the drawn choices shuffle it, and draws max(0, n-1) times whatever the items are |
| `Lobbies.Lobby.TakePick` | crates/protocol/src/lobby.rs:96-118 | a take is refused for an unknown, taken or fifth investigator, in that order, changing nothing; else the pick goes last, and leads if there was no lead |
| `Lobbies.Lobby.GiveUpPick` | crates/protocol/src/lobby.rs:127-138 | giving up closes the gap, and a given-up lead falls to the first pick |
| `Lobbies.Lobby.ChooseWeakness` | crates/protocol/src/lobby.rs:147-156 | only the pick's own holder changes its weakness choice, and nothing else changes |
| `Lobbies.Lobby.MovePick` | crates/protocol/src/lobby.rs:179-196 | the creator swaps a pick with its neighbour, or is refused with nothing changed |
| `Lobbies.Lobby.ChooseLead` | crates/protocol/src/lobby.rs:207-216 | the creator makes any picked investigator the lead, or is refused with nothing changed |
| `Lobbies.Lobby.Leave` | crates/protocol/src/lobby.rs:227-266 | a departing member's picks go with it, and the lead if it was one of them |
| `Lobbies.Lobby.RemoveMember` | crates/protocol/src/lobby.rs:239-242 | only the creator removes, and removing does what that member's leaving does |
| `LobbyRuns.CommandKeepsValid` | crates/protocol/src/lobby.rs:71-266 | every accepted command keeps picks distinct, in the pool and at most four, the lead a pick exactly when there are picks, and the creator a member |
| `LobbyRuns.StartSeatsPicks` | crates/protocol/src/lobby.rs:299-327 | a valid lobby's Start is refused only without picks; it seats the lead pick at the lead index and assigns exactly investigators 1 to n in seating order |
| `LobbyRuns.EverySeatingReachable` | crates/protocol/src/lobby.rs:179-196 | accepted moves reach every ordering of the picks |
| `LobbyRuns.TakeKeepsPickers` | crates/protocol/src/lobby.rs:96-118 | after a take every picker is a member if and only if the account taking is one |
| `LobbyRuns.OthersKeepPickers` | crates/protocol/src/lobby.rs:127-266 | every other command keeps the pickers members |
| `LobbyRuns.RemovedThenTakes` | crates/protocol/src/lobby.rs:96-118 | a take by a member just removed is accepted |
| `LobbyCommands.CommandExactly` | crates/protocol/src/lobby.rs:96-266 | every command is accepted if and only if it has what it needs, then changes the picks and members as it says, a move to its own side; else the first thing it has not is the refusal |
| `LobbyCommands.WhoLeads` | crates/protocol/src/lobby.rs:96-266 | after every accepted command the lead is the creator's choice, or whoever led as long as that pick stays, and then the first in the seating |
| `LobbyCommands.StartExactly` | crates/protocol/src/lobby.rs:299-327 | a valid lobby starts if and only if it has picks and its creator asks, each pick entered with its own deck and its weakness fixed or to be drawn |
| `Rooms.GameRoom.AttachConnection` | crates/server/src/room.rs:144-176 | attaching stores the member, tells the others, then subscribes; a failed write changes nothing |
| `Rooms.GameRoom.ApplyToLobby` | crates/server/src/room.rs:220-249 | the changed copy is stored, then swapped in and broadcast; a refused or unstored command changes neither rows nor memory |
| `Rooms.GameRoom.Start` | crates/server/src/room.rs:280-301 | Start stores the game and deletes the lobby in one transaction, then swaps and broadcasts |
| `Rooms.GameRoom.Answer` | crates/server/src/room.rs:130-136 | an acceptable answer is applied and then broadcast under the one lock; any other changes and sends nothing |
| `Rooms.GameRoom.Reassignment` | crates/server/src/room.rs:313-337 | a reassignment is stored, committed and broadcast, or changes nothing |
| `Rooms.GameRoom.Delete` | crates/server/src/room.rs:351-369 | the creator deletes, and no other account; the rows go, then the room is gone and everyone is told |
| `RoomRuns.MemoryEqualsStorage` | crates/server/src/room.rs:220-369 | over every run the rows record the game in memory, or the one about to be swapped in, if and only if no delete was dropped between its write and its swap since the room was loaded; or a delete settled since; or Start stored the game again and the members have their rows back; no id has both a lobby and a started game stored |
| `RoomRuns.DroppedDeleteCutsOff` | crates/server/src/room.rs:351-369 | a reachable room that holds a lobby of which no row is left |
| `RoomRuns.DeletedLobbyStarts` | crates/server/src/room.rs:280-301 | a Start accepted in such a room stores the deleted game again |
| `RoomRuns.CrashThenLoad` | crates/server/src/session.rs:507-646 | after any run a crash and a load give the lobby as it was, or the started game as memory had it or advanced by the one change stored and not swapped in, and nothing of a game whose delete was dropped; a started game loads if and only if its log fits and no pick was ambiguous |
| `RoomRuns.DistinctPromptsAlwaysReload` | crates/server/src/session.rs:507-646 | with distinct option keys every reached game loads back |
| `RoomRuns.SnapshotPlusStream` | crates/server/src/room.rs:130-176 | at every point of every run each connection's first message folded with the events since is the current game as its account sees it, each answer counted once, or the connection was closed |
| `RoomRuns.DeliveredThenQueued` | crates/protocol/src/lib.rs:186-202 | the events delivered and then those still queued fold to what all of them do |
| `RoomDecisions.OnlyAllowed` | crates/server/src/room.rs:144-369 | a room decides only what its sender may ask of it; an attach and a delete that are allowed are never refused |
| `RoomDecisions.AnsweredByHolders` | crates/server/src/room.rs:130-136 | over every run each answer of the log was asked at its own position by the account that held its investigator then |
| `RoomDecisions.StoreNeverRefuses` | crates/server/src/room.rs:220-369 | in every run the store's keys refuse nothing a room decided, but in a room whose delete was dropped, and there exactly what refers to the rows that went |
| `RoomDecisions.AnswerTold` | crates/server/src/session.rs:433-454 | the row of an accepted answer and the event broadcast hold one record, at one position, with what the engine made of it |
| `RoomDecisions.RequestTold` | crates/server/src/room.rs:144-369 | what every other request is broadcast as |
| `RoomDecisions.ClosesExactly` | crates/server/src/ws.rs:325-352 | an event closes exactly the connections of the accounts the request put out: all for a deletion, the departed account's for a departure |
| `RoomDecisions.StreamNeverShown` | crates/protocol/src/live.rs:534-544 | no message depends on where the random stream stands |
| `RoomDecisions.ToldWho` | crates/server/src/room.rs:144-176 | a connection's first message is addressed to its account, and tells of a lobby whether it just joined |
| `RegistryRuns.StepKeeps` | crates/server/src/rooms.rs:134-406 | every step of every interleaving keeps the registry's invariant |
| `RegistrySafety.OneRoomPerGame` | crates/server/src/rooms.rs:201-217 | connections to one game that no forget or delete displaced share the room the map holds |
| `RegistrySafety.RoomOutlivesTimers` | crates/server/src/rooms.rs:151-168 | from any reachable state, while a connection lives and its game is not forgotten or deleted, every further run leaves its entry in the map, and every get that entry answers gets its room |
| `RegistrySafety.GetJoinsRoom` | crates/server/src/rooms.rs:201-217 | a get of a game with a live room connects to that room |
| `RegistrySafety.ExactCounting` | crates/server/src/rooms.rs:282-335 | a slot counts exactly its live registrations; with none it holds a permanent failure or has one timer that would evict it, pending; no other failure is in the map |
| `RegistrySafety.LeaveCountsDown` | crates/server/src/rooms.rs:382-389 | the decrement never underflows |
| `RegistrySafety.FireEvictsIdle` | crates/server/src/rooms.rs:395-405 | a woken timer evicts a slot if and only if its generation is current, and never one with a live registration |
| `RegistrySafety.CellSetOnce` | crates/server/src/rooms.rs:63-74 | a filled cell never changes |
| `RegistrySafety.FailureStays` | crates/server/src/rooms.rs:152-160 | only a forget or a delete of its game takes a kept failure out of the map |
| `RegistryRooms.RoomsAreApart` | crates/server/src/rooms.rs:337-349 | in every reachable state two connections have one room if and only if they are on one entry, displaced or not: those of different games never share a room |
| `RegistryRooms.LoadAnswers` | crates/server/src/rooms.rs:201-217 | a get of a game the map does not hold finds a failed read, no game, a room of its own or a failed rebuild, as the load went, and its entry stays for a room and a permanent failure alone |
| `RegistryDeletes.DeleteRunsOnce` | crates/server/src/rooms.rs:232-264 | over every run a delete call takes its delete at most once, and exactly once if it returns, however often it registers again |
| `RegistryDeletes.DeleteIsFinal` | crates/server/src/rooms.rs:219-264 | when a delete finishes on an entry nothing displaced, the gets waiting on it are answered that there is no game, and every later get of the game is answered that, or that its read failed |
| `RegistryDeletes.LaterGetsExactly` | crates/server/src/rooms.rs:219-264 | with a game's rows gone, some later get can be answered a room, or that the game cannot be rebuilt, if and only if the map holds such an answer, or has one coming |
| `RegistryDeletes.LaterGetsFindNoGame` | crates/server/src/rooms.rs:219-264 | and if it does not, every later get that is answered finds that there is no game, or that its read failed |
| `RegistryDeletes.DisplacedDeleteIsNotFinal` | crates/server/src/rooms.rs:232-264 | a reachable state where a delete returned and the next get is answered the kept failure of a second delete's load |
| `Server.OneGameForAll` | crates/server/src/rooms.rs:149-168 | two connections watch one room if and only if they are on one entry, so never of two games, and always of one game if nothing was displaced; there, whatever each was sent and has queued takes both to the room's current game, the same but for who they are, unless an event closed one |
| `RoomRegistries.RoomRegistry.Count` | crates/server/src/rooms.rs:304-320 | counting adds one connection, makes a new generation and aborts the idle timer |
| `RoomRegistries.RoomRegistry.RegisterGet` | crates/server/src/rooms.rs:282-286 | registering counts on the game's entry, a new one if there was none |
| `RoomRegistries.RoomRegistry.RegisterDelete` | crates/server/src/rooms.rs:290-300 | registering afresh puts a new entry in place of any, and aborts the replaced one's timer |
| `RoomRegistries.RoomRegistry.ForgetRoom` | crates/server/src/rooms.rs:272-278 | forgetting takes the entry out and aborts its timer |
| `RoomRegistries.RoomRegistry.RemoveIfThere` | crates/server/src/rooms.rs:136-149 | only the very entry is removed, never one that took its place |
| `RoomRegistries.RoomRegistry.DropRegistration` | crates/server/src/rooms.rs:382-406 | a drop uncounts, and the last one starts the idle timer unless the entry failed or no runtime is left |
| `RoomRegistries.RoomRegistry.TimerFires` | crates/server/src/rooms.rs:398-401 | a woken timer removes its entry if nobody registered since and it holds no failure |
| `RulesParsing.ParseConserves` | scripts/arkhamdb.py:121-165 | the text and the breaks of the tree are the page's, in order, each inside exactly the blocks and inline tags that a reading of the tags by themselves keeps open |
| `RulesParsing.TextConserved` | scripts/arkhamdb.py:121-165 | the tree's text is the concatenation of the page's data |
| `RulesParsing.HandleAllFits` | scripts/arkhamdb.py:121-162 | the stack is always the root, then the blocks, then the inline tags of that reading |
| `RulesParsing.LeftOpenExactly` | scripts/arkhamdb.py:137-139 | an opening block closes exactly the innermost run of open paragraphs, items and notes where one opens, cells where one opens, and cells and rows where a row opens |
| `RulesParsing.StaysOpen` | scripts/arkhamdb.py:121-162 | an open list, table, quote, heading or division, and all it is in, stays open through every tag but its own closing tag or that of a block around it |
| `RulesParsing.EndExactly` | scripts/arkhamdb.py:153-162 | a closing tag closes everything in the innermost open one of its kind, or nothing |
| `RulesReopening.PopUndoes` | scripts/arkhamdb.py:127-136 | popping an inline tag nothing was put in undoes its opening, if and only if no equal empty one before it is followed by something else |
| `RulesReopening.InlineAroundBlock` | scripts/arkhamdb.py:127-148 | opening inline tags and then a block leaves exactly what opening the block and then the inline tags does |
| `RulesParsing.RemoveFirstPieces` | scripts/arkhamdb.py:134-135 | removing an emptied tag, whichever equal node `remove` finds first, removes no text |
| `RulesParsing.ParseFailsExactly` | scripts/arkhamdb.py:121-156 | a parse fails if and only if it meets a tag it does not know |
| `RulesRendering.NeverNested` | scripts/arkhamdb.py:60-97 | no parsed page has a block in an inline tag or a paragraph, an item directly in an item, paragraph or note, a cell in a cell, or a row in a cell or a row |
| `RulesRendering.RunsRender` | scripts/arkhamdb.py:249-277 | inline rendering of any run of text and inline tags of a parsed page, from whichever parents, never meets a block |
| `RulesRendering.BlocksRunsRender` | scripts/arkhamdb.py:295-313 | nor does that of any run `blocks` collects from any list of nodes of the page |
| `RulesRendering.SlicesRender` | scripts/arkhamdb.py:457-505 | nor that of any run it collects from a slice of the flattened page, which every output file and the glossary's lead is |
| `RulesRendering.ParagraphsRender` | scripts/arkhamdb.py:315-320 | nor that of any paragraph, or of an inline tag by itself |
| `RulesRendering.OnlyParagraphsAreSafe` | scripts/arkhamdb.py:249-277 | of the block tags exactly `p` is rendered inline without ever meeting a block |
| `RulesText.CollapseKeepsWords` | scripts/arkhamdb.py:197-198 | collapsing keeps the words and leaves one space in each gap |
| `RulesText.InlineExactly` | scripts/arkhamdb.py:249-292 | inline rendering succeeds if and only if the nodes hold no block but `div` and every link resolves, and gives, white space aside, the text with emphasis around what is not empty and links |
| `RulesText.RenderingKeepsText` | scripts/arkhamdb.py:249-292 | what is rendered is every letter of the nodes' text, in order, and between them only marks |
| `RulesText.RunsBetweenBlocks` | scripts/arkhamdb.py:295-313 | the runs `blocks` collects, with the blocks between them, are the children in order |
| `RulesText.FlattenedKeepsText` | scripts/arkhamdb.py:461-468 | flattening leaves no `div` at the top and loses and moves no text |
| `RulesTreeBuilder.RulesHTMLParser.RemoveChild` | scripts/arkhamdb.py:134-135 | the first child equal to an empty tag leaves the parent's list, found by comparing nodes in the store |
| `RulesTreeBuilder.RulesHTMLParser.PopInlineNodes` | scripts/arkhamdb.py:127-136 | the loop pops the open inline tags, drops the empty ones, and lists them all to be opened again, outermost first |
| `RulesTreeBuilder.RulesHTMLParser.CloseAuto` | scripts/arkhamdb.py:137-139 | the loop pops the open nodes the opening tag closes |
| `RulesTreeBuilder.RulesHTMLParser.Append` | scripts/arkhamdb.py:164-165 | data becomes the last child of the innermost open node |
| `RulesTreeBuilder.RulesHTMLParser.HandleStartTag` | scripts/arkhamdb.py:121-148 | an opening tag changes the open nodes as the frames say, or an unknown one is refused with nothing changed |
| `RulesTreeBuilder.RulesHTMLParser.HandleEndTag` | scripts/arkhamdb.py:153-162 | a closing tag closes down to the innermost match, and is ignored without one |
| `RulesTreeBuilder.RootTree` | scripts/arkhamdb.py:113-165 | the tree under the root node, open nodes and all, is the one the frames stand for |
| `RulesTreeBuilder.ParsePage` | scripts/arkhamdb.py:113-165 | the tree built in the store is the parse of the events, its text and styles those of the page, or the first unknown tag is reported |
| `FaqSweep.FaqStore.VisitCode` | scripts/arkhamdb.py:862-900 | one code is passed over, fetched, emptied or left untouched on an error, with every file, list and stamp change |
| `FaqSweep.FaqStore.FetchFaq` | scripts/arkhamdb.py:842-912 | one run, whole or interrupted, leaves the disk its codes' visits make, and ends the sweep only without errors |
| `FaqSweep.RunExactly` | scripts/arkhamdb.py:842-912 | of the codes it reaches a plain run fetches those without a file or a place on the list, a refresh those not confirmed or dated since the sweep started; each ends in a file of that day, on the list, or reported, and every other is as it was |
| `FaqSweep.StampExactly` | scripts/arkhamdb.py:847-910 | a plain run leaves the stamp alone; a refresh keeps its start and adds the codes it found no rulings of, and ends it if and only if it got through without an error |
| `FaqSweep.RunKeeps` | scripts/arkhamdb.py:819-912 | every run keeps files and list apart, and the stamp's codes on the list and fetched since the sweep started |
| `FaqSweep.SweepCompletes` | scripts/arkhamdb.py:842-912 | after any runs, a refresh without errors leaves each code in exactly one of files and list, fetched on or after the sweep's start |
| `FaqSweep.InterruptedInside` | scripts/arkhamdb.py:883-900 | wherever a code's fetch was cut, and after any number of refreshes that do not complete, the refresh that completes leaves the code in exactly one of files and list if and only if the list was not to change, or had, by the cut, or no stamp had the code yet |
| `FaqSweep.InterruptedSweepLosesCode` | scripts/arkhamdb.py:894-900 | a code stamped but not yet listed is in neither after the sweep resumes and completes |
| `FaqColumns.ColumnEdges` | scripts/ffg-faq.py:334-361 | the edges are the leftmost ink and, in increasing order, exactly the bins where ink follows a gutter's width of empty bins; it fails if and only if a word's bins are no indices of the page's |
| `FaqColumns.ReadingOrderInRange` | scripts/ffg-faq.py:346-352 | lines whose words run from left to right never fail so |
| `FaqColumns.NoWordStraddles` | scripts/ffg-faq.py:334-361 | no word's ink crosses an edge |
| `FaqColumns.SlackMovesNothing` | scripts/ffg-faq.py:368-370 | the half point of slack never changes the column of a line whose first word is not reversed |
| `FaqColumns.Columns` | scripts/ffg-faq.py:364-382 | the columns are the lines by column, sorted, without empty ones; or the error names the first column with a line over its next edge |
| `FaqColumns.SortOrders` | scripts/ffg-faq.py:372 | sorting by a total order leaves the items in order |
| `FaqParagraphs.ColumnsConserve` | scripts/ffg-faq.py:364-382 | every line of the page is in exactly one column |
| `FaqParagraphs.MergeLines` | scripts/ffg-faq.py:412-424 | the loop merges the sorted fragments into the lines they belong to, their words from left to right if the fragments' were |
| `FaqParagraphs.MergeConserves` | scripts/ffg-faq.py:412-424 | merging loses and repeats no word |
| `FaqParagraphs.MergeHouses` | scripts/ffg-faq.py:412-424 | every fragment is in a merged line that starts less than `SAME_LINE_Y` above it, reaches as far down, and holds its words |
| `FaqParagraphs.MergeSpaces` | scripts/ffg-faq.py:412-424 | merged lines go down the page at least `SAME_LINE_Y` apart |
| `FaqParagraphs.MergeMadeOf` | scripts/ffg-faq.py:412-424 | each merged line starts, in its block, where a fragment does and ends where one does |
| `FaqParagraphs.PlaceExactly` | scripts/ffg-faq.py:392-403 | a line goes last in the first group with a line of its block or less than `SAME_LINE_Y` from it, or starts a group after them all |
| `FaqParagraphs.GroupedKeeps` | scripts/ffg-faq.py:392-403 | each line is in exactly one group, and no group is empty |
| `FaqParagraphs.Paragraphs` | scripts/ffg-faq.py:385-409 | the loops group, merge and sort a column into its paragraphs |
| `FaqParagraphs.ParagraphsConserve` | scripts/ffg-faq.py:385-409 | a column's paragraphs hold exactly its words and come out top to bottom, each line's words from left to right if the column's were |
| `FaqPages.ReadPage` | scripts/ffg-faq.py:364-409 | a page reads as its columns from left to right, each going down the page, and in each its paragraphs from top to bottom, holding exactly its words; it fails if and only if a word's bins are no indices or a line reaches over the next edge |
| `FaqGroups.RelatedStayTogether` | scripts/ffg-faq.py:392-403 | any two lines that share a block or start less than `SAME_LINE_Y` apart are in one group if and only if no line joins two groups as it is placed |
| `FaqGroups.BlocksReassembled` | scripts/ffg-faq.py:385-403 | blocks whose extents overlap are in one group if and only if, besides, a chain of such lines leads from each of their lines to each other |
| `FaqGroups.OverlappingBlocksSplit` | scripts/ffg-faq.py:392-403 | four lines of two overlapping and linked blocks, one of which joins two groups, end in two paragraphs |
| `FaqGroups.InterleavedBlocksSplit` | scripts/ffg-faq.py:385-403 | and so do two overlapping blocks, each line of which joins one group, with no chain between them |

## Left out

- RegistrySafety.LeaveCountsDown: generations and counts are unbounded, so a 64-bit generation that wraps is not modelled.
- Rng.RngState.NextIndex: `draws` is unbounded, so the 64-bit count and the word position that wrap after 2^63 draws are not modelled.
- LiveGames.LiveGame.Install: `LogPosition` is unbounded, so its 64-bit overflow is not modelled.
- RoomRuns.SnapshotPlusStream: a subscriber that lags behind the broadcast channel is closed by the program, and is not modelled.
- RegistryDeletes.DeleteRunsOnce: the retry loop of `delete_with` is steps of the state machine, not a method, because other calls run between its turns.
- RulesRendering.RunsRender: white space is the four ASCII characters; the links' relative paths are given, not computed.
- Rooms.GameRoom.Start: the room holds its game as a value rather than as a `GameSession` object; `Sessions.GameSession` models that object by itself.
- The rules engine, card data and decks: an arbitrary deterministic engine stands for them.
- SQL, JSON and their failures: rows are values and a transaction happens whole or not at all. Encoding and decoding are taken as inverse, but for the integer columns.
- Actions other than the one the log holds (`ResolveInput`), summaries and listings, display names of members, and what `view_for` trims beyond the random position.
- A request dropped while its write is under way, other than a delete: the sockets' requests run to their end, or stop with the process.
- Sockets, accounts, HTTP handlers, configuration and shutdown.
- Wall time: an idle timer may wake at any point after it starts.
- Rendering of lists, tables and whole documents, link rewriting, file names, and the checks of `verify`.
- What a card moved between packs leaves behind: FAQ files are keyed by code alone.
- Text of FAQ pages beyond its words: hyphens, dropped glyphs, icons and headings.
- Floating-point rounding of page coordinates, which are exact reals here.
