/** Exactly which lobby commands are accepted, what each makes of the lobby, and
    what Start seats. */
module LobbyCommands {
  import opened Wrappers
  import opened Prompts
  import opened Engine
  import opened LiveGames
  import opened Store
  import opened Sessions
  import opened Lobbies
  import opened LobbyRuns

  // ----- sequences without some of their items -----

  /** `part` is `whole` without the items `keep` refuses, in their order: `at`
      says where each was. */
  ghost predicate KeptAt<T>(whole: seq<T>, part: seq<T>, keep: T -> bool, at: seq<nat>) {
    && |at| == |part|
    && (forall k | 0 <= k < |at| :: at[k] < |whole| && part[k] == whole[at[k]])
    && (forall j, k | 0 <= j < k < |at| :: at[j] < at[k])
    && (forall i | 0 <= i < |whole| :: keep(whole[i]) <==> i in at)
  }

  ghost predicate Kept<T>(whole: seq<T>, part: seq<T>, keep: T -> bool) {
    exists at :: KeptAt(whole, part, keep, at)
  }

  function Shifted(at: seq<nat>): seq<nat> {
    seq(|at|, k requires 0 <= k < |at| => at[k] + 1)
  }

  lemma ShiftedIn(at: seq<nat>, i: nat)
    ensures i in Shifted(at) <==> i > 0 && i - 1 in at
  {
    if i > 0 && i - 1 in at {
      var k :| 0 <= k < |at| && at[k] == i - 1;
      assert Shifted(at)[k] == i;
    }
  }

  /** What is kept of all but the first, by its place in the whole. */
  lemma KeptLater<T>(whole: seq<T>, part: seq<T>, keep: T -> bool, at: seq<nat>)
    requires whole != [] && KeptAt(whole[1..], part, keep, at)
    ensures var later := Shifted(at);
      && |later| == |part|
      && (forall k | 0 <= k < |later| :: 0 < later[k] < |whole| && part[k] == whole[later[k]])
      && (forall j, k | 0 <= j < k < |later| :: later[j] < later[k])
      && (forall i | 0 < i < |whole| :: keep(whole[i]) <==> i in later)
  {
    forall i | 0 < i < |whole| ensures keep(whole[i]) <==> i in Shifted(at) {
      ShiftedIn(at, i);
      assert whole[i] == whole[1..][i - 1];
    }
  }

  lemma KeptFirst<T>(whole: seq<T>, part: seq<T>, keep: T -> bool, later: seq<nat>)
    requires whole != [] && keep(whole[0]) && |later| == |part|
    requires forall k | 0 <= k < |later| :: 0 < later[k] < |whole| && part[k] == whole[later[k]]
    requires forall j, k | 0 <= j < k < |later| :: later[j] < later[k]
    requires forall i | 0 < i < |whole| :: keep(whole[i]) <==> i in later
    ensures KeptAt(whole, [whole[0]] + part, keep, [0] + later)
  {
    FirstPlaces(whole, part, later);
    forall i | 0 <= i < |whole| ensures keep(whole[i]) <==> i in [0] + later {
      FirstIn(later, i);
    }
  }

  lemma FirstIn(later: seq<nat>, i: nat)
    ensures i in [0] + later <==> i == 0 || i in later
  {
  }

  lemma FirstPlaces<T>(whole: seq<T>, part: seq<T>, later: seq<nat>)
    requires whole != [] && |later| == |part|
    requires forall k | 0 <= k < |later| :: 0 < later[k] < |whole| && part[k] == whole[later[k]]
    requires forall j, k | 0 <= j < k < |later| :: later[j] < later[k]
    ensures var all := [0] + later;
      && (forall k | 0 <= k < |all| :: all[k] < |whole| && ([whole[0]] + part)[k] == whole[all[k]])
      && (forall j, k | 0 <= j < k < |all| :: all[j] < all[k])
  {
  }

  lemma DroppedFirst<T>(whole: seq<T>, part: seq<T>, keep: T -> bool, at: seq<nat>)
    requires whole != [] && KeptAt(whole[1..], part, keep, at) && !keep(whole[0])
    ensures KeptAt(whole, part, keep, Shifted(at))
  {
    KeptLater(whole, part, keep, at);
    assert 0 !in Shifted(at);
  }

  lemma KeptFront<T>(whole: seq<T>, part: seq<T>, keep: T -> bool)
    requires whole != [] && Kept(whole[1..], part, keep)
    ensures Kept(whole, (if keep(whole[0]) then [whole[0]] else []) + part, keep)
  {
    var at :| KeptAt(whole[1..], part, keep, at);
    if keep(whole[0]) {
      KeptLater(whole, part, keep, at);
      KeptFirst(whole, part, keep, Shifted(at));
    } else {
      DroppedFirst(whole, part, keep, at);
      assert [] + part == part;
    }
    hide KeptAt;
  }

  lemma {:induction false} WithoutKept(members: seq<AccountId>, account: AccountId)
    ensures Kept(members, Without(members, account), (m: AccountId) => m != account)
  {
    var keep := (m: AccountId) => m != account;
    if members == [] {
      assert KeptAt(members, [], keep, []);
    } else {
      WithoutKept(members[1..], account);
      KeptFront(members, Without(members[1..], account), keep);
      assert Without(members, account)
        == (if keep(members[0]) then [members[0]] else []) + Without(members[1..], account);
    }
  }

  lemma {:induction false} PicksWithoutKept(picks: seq<Pick>, account: AccountId)
    ensures Kept(picks, PicksWithout(picks, account), (pick: Pick) => pick.account != account)
  {
    var keep := (pick: Pick) => pick.account != account;
    if picks == [] {
      assert KeptAt(picks, [], keep, []);
    } else {
      PicksWithoutKept(picks[1..], account);
      KeptFront(picks, PicksWithout(picks[1..], account), keep);
      assert PicksWithout(picks, account)
        == (if keep(picks[0]) then [picks[0]] else []) + PicksWithout(picks[1..], account);
    }
  }

  // ----- where picks sit -----

  /** The first pick of `investigator` sits at `p`. */
  ghost predicate SitsAt(picks: seq<Pick>, investigator: CardCode, p: int) {
    && 0 <= p < |picks| && picks[p].investigator == investigator
    && forall q | 0 <= q < p :: picks[q].investigator != investigator
  }

  /** And so does the first of them that is `account`'s. */
  ghost predicate OwnAt(picks: seq<Pick>, account: AccountId, investigator: CardCode, p: int) {
    && 0 <= p < |picks| && picks[p].investigator == investigator && picks[p].account == account
    && forall q | 0 <= q < p :: !(picks[q].investigator == investigator && picks[q].account == account)
  }

  ghost predicate Owns(picks: seq<Pick>, account: AccountId, investigator: CardCode) {
    exists p :: 0 <= p < |picks| && picks[p].investigator == investigator && picks[p].account == account
  }

  lemma {:induction false} PositionExactly(picks: seq<Pick>, investigator: CardCode)
    ensures match PositionOf(picks, investigator)
            case None => !Picked(picks, investigator)
            case Some(p) => Picked(picks, investigator) && SitsAt(picks, investigator, p)
  {
    if picks != [] && picks[0].investigator != investigator {
      PositionExactly(picks[1..], investigator);
      if Picked(picks, investigator) {
        var p := PositionOf(picks, investigator).value;
        assert forall q | 0 < q < p :: picks[q] == picks[1..][q - 1];
      }
    }
  }

  lemma {:induction false} OwnExactly(picks: seq<Pick>, account: AccountId, investigator: CardCode)
    ensures match OwnPick(picks, account, investigator)
            case None => !Owns(picks, account, investigator)
            case Some(p) => Owns(picks, account, investigator) && OwnAt(picks, account, investigator, p)
  {
    if picks != [] && !(picks[0].investigator == investigator && picks[0].account == account) {
      OwnExactly(picks[1..], account, investigator);
      match OwnPick(picks[1..], account, investigator)
      case None => assert forall q | 0 < q < |picks| :: picks[q] == picks[1..][q - 1];
      case Some(p) => assert forall q | 0 < q <= p + 1 :: picks[q] == picks[1..][q - 1];
    }
  }

  /** `deck` is the first of the pool that is `investigator`'s. */
  ghost predicate DeckIs(pool: Pool, investigator: CardCode, deck: DefaultDeck) {
    exists d | 0 <= d < |pool| ::
      && pool[d] == deck && deck.investigator == investigator
      && forall e | 0 <= e < d :: pool[e].investigator != investigator
  }

  ghost predicate Pooled(pool: Pool, investigator: CardCode) {
    exists d | 0 <= d < |pool| :: pool[d].investigator == investigator
  }

  lemma {:induction false} DeckExactly(pool: Pool, investigator: CardCode)
    ensures match DefaultDeckOf(pool, investigator)
            case None => !Pooled(pool, investigator)
            case Some(deck) => Pooled(pool, investigator) && DeckIs(pool, investigator, deck)
  {
    if pool != [] && pool[0].investigator != investigator {
      var rest := pool[1..];
      DeckExactly(rest, investigator);
      assert forall d | 0 < d < |pool| :: pool[d] == rest[d - 1];
      match DefaultDeckOf(rest, investigator)
      case None =>
      case Some(deck) =>
        var d :| 0 <= d < |rest| && rest[d] == deck && forall e | 0 <= e < d :: rest[e].investigator != investigator;
        assert pool[d + 1] == deck;
    }
  }

  // ----- which commands are accepted -----

  /** Where a move in `direction` takes the pick at `p`. */
  function Beside(p: int, direction: Direction): int {
    match direction
    case Earlier => p - 1
    case Later => p + 1
  }

  /** What each command needs: an investigator of the pool, not taken yet, and a
      seat for it; a pick of one's own; the creator's standing, for moves with a
      neighbour on that side; or a member to go who is not the creator. */
  ghost predicate Accepts(pool: Pool, lobby: LobbyView, command: LobbyCommand) {
    match command
    case TakeCommand(_, i) => Pooled(pool, i) && !Picked(lobby.picks, i) && |lobby.picks| < 4
    case GiveUpCommand(a, i) => Owns(lobby.picks, a, i)
    case SetWeaknessCommand(a, i, _) => Owns(lobby.picks, a, i)
    case MoveCommand(a, i, direction) =>
      a == lobby.creator && exists p :: SitsAt(lobby.picks, i, p) && 0 <= Beside(p, direction) < |lobby.picks|
    case SetLeadCommand(a, i) => a == lobby.creator && Picked(lobby.picks, i)
    case LeaveCommand(a) => a != lobby.creator && a in lobby.members
    case RemoveCommand(a, member) => a == lobby.creator && member != lobby.creator && member in lobby.members
  }

  /** `why` is the first thing the command needs and has not. */
  ghost predicate Refuses(pool: Pool, lobby: LobbyView, command: LobbyCommand, why: LobbyRefusal) {
    match command
    case TakeCommand(_, i) =>
      if !Pooled(pool, i) then why == NotInPool(i)
      else if Picked(lobby.picks, i) then
        exists p :: SitsAt(lobby.picks, i, p) && why == Taken(i, lobby.picks[p].account)
      else |lobby.picks| >= 4 && why == LobbyFull
    case GiveUpCommand(a, i) => why == NotYourPick(i)
    case SetWeaknessCommand(a, i, _) => why == NotYourPick(i)
    case MoveCommand(a, i, _) =>
      why == (if a != lobby.creator then NotCreator
              else if !Picked(lobby.picks, i) then NotPicked(i)
              else NoNeighbour(i))
    case SetLeadCommand(a, i) => why == if a != lobby.creator then NotCreator else NotPicked(i)
    case LeaveCommand(a) => why == if a == lobby.creator then CreatorStays else NotALobbyMember
    case RemoveCommand(a, member) =>
      why == (if a != lobby.creator then NotCreator
              else if member == lobby.creator then CreatorStays
              else NotALobbyMember)
  }

  /** What a command makes of the picks: one more at the end; one less, the
      others closing up; one with another weakness; two neighbours swapped, the
      moved one on the side it went; or those of a departed account gone. */
  ghost predicate PicksBecome(before: seq<Pick>, command: LobbyCommand, after: seq<Pick>) {
    match command
    case TakeCommand(a, i) => after == before + [Pick(i, a, Fixed)]
    case GiveUpCommand(a, i) => exists p :: OwnAt(before, a, i, p) && after == before[..p] + before[p + 1..]
    case SetWeaknessCommand(a, i, choice) =>
      exists p ::
        && OwnAt(before, a, i, p) && |after| == |before|
        && after[p] == Pick(i, a, choice)
        && forall q | 0 <= q < |before| && q != p :: after[q] == before[q]
    case MoveCommand(_, i, direction) =>
      exists p ::
        && SitsAt(before, i, p) && |after| == |before| && 0 <= Beside(p, direction) < |before|
        && after[Beside(p, direction)] == before[p] && after[p] == before[Beside(p, direction)]
        && forall q | 0 <= q < |before| && q != p && q != Beside(p, direction) :: after[q] == before[q]
    case SetLeadCommand(_, _) => after == before
    case LeaveCommand(a) => Kept(before, after, (pick: Pick) => pick.account != a)
    case RemoveCommand(_, member) => Kept(before, after, (pick: Pick) => pick.account != member)
  }

  ghost predicate MembersBecome(before: seq<AccountId>, command: LobbyCommand, after: seq<AccountId>) {
    match command
    case LeaveCommand(a) => Kept(before, after, (m: AccountId) => m != a)
    case RemoveCommand(_, member) => Kept(before, after, (m: AccountId) => m != member)
    case _ => after == before
  }

  ghost predicate Does(pool: Pool, lobby: LobbyView, command: LobbyCommand, result: Result<LobbyView, LobbyRefusal>) {
    match result
    case Success(changed) =>
      && Accepts(pool, lobby, command)
      && changed.scenarioId == lobby.scenarioId && changed.creator == lobby.creator
      && PicksBecome(lobby.picks, command, changed.picks)
      && MembersBecome(lobby.members, command, changed.members)
    case Failure(why) => !Accepts(pool, lobby, command) && Refuses(pool, lobby, command, why)
  }

  /** **What every command does.** It is accepted exactly when it has what it
      needs, and then changes the picks and members as it says; otherwise the
      first thing it has not refuses it. */
  lemma CommandExactly(pool: Pool, lobby: LobbyView, command: LobbyCommand)
    ensures Does(pool, lobby, command, Command(pool, lobby, command))
  {
    match command
    case TakeCommand(_, i) =>
      DeckExactly(pool, i);
      PositionExactly(lobby.picks, i);
      hide Pooled, DeckIs, DefaultDeckOf, Picked;
    case GiveUpCommand(a, i) => OwnExactly(lobby.picks, a, i); hide Owns, OwnAt;
    case SetWeaknessCommand(a, i, choice) => WeaknessExactly(pool, lobby, a, i, choice); hide Does;
    case MoveCommand(a, i, direction) => MoveExactly(pool, lobby, a, i, direction); hide Does;
    case SetLeadCommand(_, i) => PositionExactly(lobby.picks, i); hide Picked;
    case LeaveCommand(a) => DepartExactly(lobby, a); hide Kept;
    case RemoveCommand(_, member) => DepartExactly(lobby, member); hide Kept;
  }

  lemma WeaknessExactly(pool: Pool, lobby: LobbyView, account: AccountId, i: CardCode, choice: WeaknessChoice)
    ensures Does(pool, lobby, SetWeaknessCommand(account, i, choice), SetWeakness(lobby, account, i, choice))
  {
    OwnExactly(lobby.picks, account, i);
    hide Owns, OwnPick;
  }

  lemma MoveExactly(pool: Pool, lobby: LobbyView, account: AccountId, i: CardCode, direction: Direction)
    ensures Does(pool, lobby, MoveCommand(account, i, direction), MoveInSeating(lobby, account, i, direction))
  {
    PositionExactly(lobby.picks, i);
    hide PositionOf, Picked;
    if PositionOf(lobby.picks, i).Some? {
      var p := PositionOf(lobby.picks, i).value;
      assert forall q :: SitsAt(lobby.picks, i, q) ==> q == p;
    }
  }

  lemma DepartExactly(lobby: LobbyView, account: AccountId)
    ensures match Depart(lobby, account)
            case Success(changed) =>
              && account != lobby.creator && account in lobby.members
              && changed.scenarioId == lobby.scenarioId && changed.creator == lobby.creator
              && Kept(lobby.picks, changed.picks, (pick: Pick) => pick.account != account)
              && Kept(lobby.members, changed.members, (m: AccountId) => m != account)
            case Failure(CreatorStays) => account == lobby.creator
            case Failure(NotALobbyMember) => account != lobby.creator && account !in lobby.members
            case Failure(_) => false
  {
    PicksWithoutKept(lobby.picks, account);
    WithoutKept(lobby.members, account);
    hide Kept;
  }

  /** **Who leads.** The creator's choice; otherwise whoever led, as long as
      that pick stays, and then the first in the seating. */
  lemma WhoLeads(pool: Pool, lobby: LobbyView, command: LobbyCommand)
    requires ValidLobby(pool, lobby) && Command(pool, lobby, command).Success?
    ensures var after := Command(pool, lobby, command).value;
            after.lead == if command.SetLeadCommand? then Some(command.investigator)
                          else if lobby.lead.Some? && Picked(after.picks, lobby.lead.value) then lobby.lead
                          else if after.picks == [] then None
                          else Some(after.picks[0].investigator)
  {
    var after := Command(pool, lobby, command).value;
    match command
    case TakeCommand(_, i) => TakeLeads(lobby.picks, after.picks[|lobby.picks|]);
    case GiveUpCommand(a, i) => GiveUpLeads(pool, lobby, a, i); hide ValidLobby;
    case SetWeaknessCommand(a, i, choice) => WeaknessKeepsValid(pool, lobby, a, i, choice);
    case MoveCommand(a, i, direction) => SwapKeepsValid(pool, lobby, a, i, direction);
    case SetLeadCommand(_, _) =>
    case LeaveCommand(a) => DepartLeads(pool, lobby, a); hide ValidLobby;
    case RemoveCommand(_, member) => DepartLeads(pool, lobby, member); hide ValidLobby;
  }

  lemma TakeLeads(picks: seq<Pick>, pick: Pick)
    ensures forall i :: Picked(picks, i) ==> Picked(picks + [pick], i)
  {
    forall i | Picked(picks, i) ensures Picked(picks + [pick], i) {
      var p :| 0 <= p < |picks| && picks[p].investigator == i;
      assert (picks + [pick])[p] == picks[p];
    }
  }

  lemma GiveUpLeads(pool: Pool, lobby: LobbyView, account: AccountId, i: CardCode)
    requires ValidLobby(pool, lobby) && GiveUp(lobby, account, i).Success?
    ensures var after := GiveUp(lobby, account, i).value;
            after.lead == if lobby.lead.Some? && Picked(after.picks, lobby.lead.value) then lobby.lead
                          else FirstInvestigator(after.picks)
  {
    var p := OwnPick(lobby.picks, account, i).value;
    var after := GiveUp(lobby, account, i).value;
    assert forall k | 0 <= k < |after.picks| :: after.picks[k] == lobby.picks[if k < p then k else k + 1];
    if lobby.lead.Some? && lobby.lead != Some(i) { GapKeepsPicked(lobby.picks, p, lobby.lead.value); }
    hide OwnPick, DefaultDeckOf;
  }

  lemma DepartLeads(pool: Pool, lobby: LobbyView, account: AccountId)
    requires ValidLobby(pool, lobby) && Depart(lobby, account).Success?
    ensures var after := Depart(lobby, account).value;
            after.lead == if lobby.lead.Some? && Picked(after.picks, lobby.lead.value) then lobby.lead
                          else FirstInvestigator(after.picks)
  {
    var after := Depart(lobby, account).value;
    PicksWithoutAre(lobby.picks, account);
    DepartKeepsValid(pool, lobby, account);
    if HasLead(lobby.picks, account, lobby.lead) {
      var i :| 0 <= i < |lobby.picks| && lobby.picks[i].account == account && lobby.lead == Some(lobby.picks[i].investigator);
      forall k | 0 <= k < |after.picks| ensures after.picks[k].investigator != lobby.picks[i].investigator {
        assert after.picks[k] in after.picks;
        OnePickEach(lobby.picks, lobby.picks[i], after.picks[k]);
      }
    }
  }

  lemma OnePickEach(picks: seq<Pick>, a: Pick, b: Pick)
    requires DistinctInvestigators(picks) && a in picks && b in picks && a != b
    ensures a.investigator != b.investigator
  {
  }

  // ----- Start -----

  /** A pick's roster entry: its own default deck, the first of the pool's, with
      the deck's weakness or one to be drawn. */
  ghost predicate Enters(pool: Pool, pick: Pick, entry: RosterEntry) {
    exists deck: DefaultDeck ::
      && DeckIs(pool, pick.investigator, deck)
      && entry.investigator == pick.investigator
      && match pick.weakness
         case Fixed => entry.deck == deck.cards + deck.signatures + [deck.weakness] && entry.randomBasicWeaknesses == 0
         case Random => entry.deck == deck.cards + deck.signatures && entry.randomBasicWeaknesses == 1
  }

  lemma {:induction false} RosterExactly(pool: Pool, picks: seq<Pick>)
    ensures match RosterOf(pool, picks)
            case Success(roster) => |roster| == |picks| && forall i | 0 <= i < |picks| :: Enters(pool, picks[i], roster[i])
            case Failure(why) => exists i | 0 <= i < |picks| :: !Pooled(pool, picks[i].investigator)
  {
    if picks != [] {
      DeckExactly(pool, picks[0].investigator);
      hide DefaultDeckOf, DeckIs, Pooled;
      RosterExactly(pool, picks[1..]);
      assert forall i | 0 < i < |picks| :: picks[i] == picks[1..][i - 1];
      match DefaultDeckOf(pool, picks[0].investigator)
      case None => assert !Pooled(pool, picks[0].investigator);
      case Some(deck) => assert Enters(pool, picks[0], RosterEntryOf(deck, picks[0].weakness));
    }
  }

  /** **Which lobbies start**: a valid lobby with picks, and only at its
      creator's word; then each pick's deck is dealt as it was chosen. */
  lemma StartExactly(pool: Pool, lobby: LobbyView, account: AccountId)
    requires ValidLobby(pool, lobby)
    ensures match StartLobby(pool, lobby, account)
            case Success(start) =>
              && account == lobby.creator && lobby.picks != []
              && start.scenarioId == lobby.scenarioId
              && |start.roster| == |lobby.picks|
              && forall i | 0 <= i < |lobby.picks| :: Enters(pool, lobby.picks[i], start.roster[i])
            case Failure(NotCreator) => account != lobby.creator
            case Failure(NoPicks) => account == lobby.creator && lobby.picks == []
            case Failure(_) => false
  {
    RosterExactly(pool, lobby.picks);
    RosterFollowsPicks(pool, lobby.picks);
    hide Enters, RosterOf;
  }
}
