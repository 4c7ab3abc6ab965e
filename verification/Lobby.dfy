/** The lobby (`protocol::lobby`): who has joined a game and picked whom, and
    each command a member sends it, accepted or refused. */
module Lobbies {
  import opened Wrappers
  import opened Prompts
  import opened Engine
  import opened LiveGames
  import opened Store
  import opened Sessions

  const MAX_PICKS: nat := 4

  /** A default deck (`cards::decks`), and the pool of them. */
  datatype DefaultDeck = DefaultDeck(
    investigator: CardCode, cards: seq<CardCode>, signatures: seq<CardCode>, weakness: CardCode)

  type Pool = seq<DefaultDeck>

  /** The whole lobby: its members in the order they joined, its picks in
      seating order. */
  datatype LobbyView = LobbyView(
    scenarioId: ScenarioId,
    creator: AccountId,
    members: seq<AccountId>,
    picks: seq<Pick>,
    lead: Option<CardCode>)

  datatype Direction = Earlier | Later

  datatype LobbyRefusal =
    | Taken(investigator: CardCode, holder: AccountId)
    | LobbyFull
    | NotInPool(investigator: CardCode)
    | NotYourPick(investigator: CardCode)
    | NotCreator
    | CreatorStays
    | NotALobbyMember
    | NotPicked(investigator: CardCode)
    | NoNeighbour(investigator: CardCode)
    | Started
    | NoPicks
    | SeatingRefused(reason: string)
    | Failed

  datatype LobbyCommand =
    | TakeCommand(account: AccountId, investigator: CardCode)
    | GiveUpCommand(account: AccountId, investigator: CardCode)
    | SetWeaknessCommand(account: AccountId, investigator: CardCode, choice: WeaknessChoice)
    | MoveCommand(account: AccountId, investigator: CardCode, direction: Direction)
    | SetLeadCommand(account: AccountId, investigator: CardCode)
    | LeaveCommand(account: AccountId)
    | RemoveCommand(account: AccountId, member: AccountId)

  // ----- lookups -----

  function DefaultDeckOf(pool: Pool, code: CardCode): Option<DefaultDeck> {
    if pool == [] then None
    else if pool[0].investigator == code then Some(pool[0])
    else DefaultDeckOf(pool[1..], code)
  }

  function RosterEntryOf(deck: DefaultDeck, choice: WeaknessChoice): RosterEntry {
    match choice
    case Fixed => RosterEntry(deck.investigator, deck.cards + deck.signatures + [deck.weakness], 0)
    case Random => RosterEntry(deck.investigator, deck.cards + deck.signatures, 1)
  }

  /** Where `investigator` sits in the seating, counting from 0. */
  function PositionOf(picks: seq<Pick>, investigator: CardCode): (position: Option<nat>)
    ensures position.Some? ==> position.value < |picks| && picks[position.value].investigator == investigator
    ensures position.None? ==> forall i | 0 <= i < |picks| :: picks[i].investigator != investigator
  {
    if picks == [] then None
    else if picks[0].investigator == investigator then Some(0)
    else match PositionOf(picks[1..], investigator)
      case None => None
      case Some(p) => Some(p + 1)
  }

  /** Where `account`'s own pick of `investigator` sits. */
  function OwnPick(picks: seq<Pick>, account: AccountId, investigator: CardCode): (position: Option<nat>)
    ensures position.Some? ==>
              && position.value < |picks|
              && picks[position.value].investigator == investigator && picks[position.value].account == account
  {
    if picks == [] then None
    else if picks[0].investigator == investigator && picks[0].account == account then Some(0)
    else match OwnPick(picks[1..], account, investigator)
      case None => None
      case Some(p) => Some(p + 1)
  }

  function FirstInvestigator(picks: seq<Pick>): Option<CardCode> {
    if picks == [] then None else Some(picks[0].investigator)
  }

  function PicksWithout(picks: seq<Pick>, account: AccountId): seq<Pick> {
    if picks == [] then []
    else (if picks[0].account == account then [] else [picks[0]]) + PicksWithout(picks[1..], account)
  }

  predicate HasLead(picks: seq<Pick>, account: AccountId, lead: Option<CardCode>) {
    exists i | 0 <= i < |picks| :: picks[i].account == account && lead == Some(picks[i].investigator)
  }

  // ----- commands -----

  function JoinLobby(lobby: LobbyView, member: AccountId): LobbyView {
    if member in lobby.members then lobby else lobby.(members := lobby.members + [member])
  }

  function Take(pool: Pool, lobby: LobbyView, account: AccountId, investigator: CardCode)
    : Result<LobbyView, LobbyRefusal>
  {
    if DefaultDeckOf(pool, investigator).None? then Failure(NotInPool(investigator))
    else match PositionOf(lobby.picks, investigator)
      case Some(p) => Failure(Taken(investigator, lobby.picks[p].account))
      case None =>
        if |lobby.picks| >= MAX_PICKS then Failure(LobbyFull)
        else Success(lobby.(
          lead := if lobby.lead.None? then Some(investigator) else lobby.lead,
          picks := lobby.picks + [Pick(investigator, account, Fixed)]))
  }

  function GiveUp(lobby: LobbyView, account: AccountId, investigator: CardCode): Result<LobbyView, LobbyRefusal> {
    match OwnPick(lobby.picks, account, investigator)
    case None => Failure(NotYourPick(investigator))
    case Some(p) =>
      var picks := lobby.picks[..p] + lobby.picks[p + 1..];
      Success(lobby.(
        picks := picks,
        lead := if lobby.lead == Some(investigator) then FirstInvestigator(picks) else lobby.lead))
  }

  function SetWeakness(lobby: LobbyView, account: AccountId, investigator: CardCode, choice: WeaknessChoice)
    : Result<LobbyView, LobbyRefusal>
  {
    match OwnPick(lobby.picks, account, investigator)
    case None => Failure(NotYourPick(investigator))
    case Some(p) => Success(lobby.(picks := lobby.picks[p := lobby.picks[p].(weakness := choice)]))
  }

  function MoveInSeating(lobby: LobbyView, account: AccountId, investigator: CardCode, direction: Direction)
    : Result<LobbyView, LobbyRefusal>
  {
    if account != lobby.creator then Failure(NotCreator)
    else match PositionOf(lobby.picks, investigator)
      case None => Failure(NotPicked(investigator))
      case Some(p) =>
        var neighbour := if direction == Earlier then p - 1 else p + 1;
        if neighbour < 0 || neighbour >= |lobby.picks| then Failure(NoNeighbour(investigator))
        else Success(lobby.(picks := lobby.picks[p := lobby.picks[neighbour]][neighbour := lobby.picks[p]]))
  }

  function SetLead(lobby: LobbyView, account: AccountId, investigator: CardCode): Result<LobbyView, LobbyRefusal> {
    if account != lobby.creator then Failure(NotCreator)
    else if PositionOf(lobby.picks, investigator).None? then Failure(NotPicked(investigator))
    else Success(lobby.(lead := Some(investigator)))
  }

  function Depart(lobby: LobbyView, account: AccountId): Result<LobbyView, LobbyRefusal> {
    if account == lobby.creator then Failure(CreatorStays)
    else if account !in lobby.members then Failure(NotALobbyMember)
    else
      var picks := PicksWithout(lobby.picks, account);
      Success(lobby.(
        members := Without(lobby.members, account),
        picks := picks,
        lead := if HasLead(lobby.picks, account, lobby.lead) then FirstInvestigator(picks) else lobby.lead))
  }

  function Remove(lobby: LobbyView, asker: AccountId, member: AccountId): Result<LobbyView, LobbyRefusal> {
    if asker != lobby.creator then Failure(NotCreator) else Depart(lobby, member)
  }

  function Command(pool: Pool, lobby: LobbyView, command: LobbyCommand): Result<LobbyView, LobbyRefusal> {
    match command
    case TakeCommand(account, investigator) => Take(pool, lobby, account, investigator)
    case GiveUpCommand(account, investigator) => GiveUp(lobby, account, investigator)
    case SetWeaknessCommand(account, investigator, choice) => SetWeakness(lobby, account, investigator, choice)
    case MoveCommand(account, investigator, direction) => MoveInSeating(lobby, account, investigator, direction)
    case SetLeadCommand(account, investigator) => SetLead(lobby, account, investigator)
    case LeaveCommand(account) => Depart(lobby, account)
    case RemoveCommand(account, member) => Remove(lobby, account, member)
  }

  /** The account a command makes no longer a member. */
  function Departing(command: LobbyCommand): Option<AccountId> {
    match command
    case LeaveCommand(account) => Some(account)
    case RemoveCommand(_, member) => Some(member)
    case _ => None
  }

  function RosterOf(pool: Pool, picks: seq<Pick>): Result<seq<RosterEntry>, LobbyRefusal> {
    if picks == [] then Success([])
    else match DefaultDeckOf(pool, picks[0].investigator)
      case None => Failure(NotInPool(picks[0].investigator))
      case Some(deck) =>
        var rest :- RosterOf(pool, picks[1..]);
        Success([RosterEntryOf(deck, picks[0].weakness)] + rest)
  }

  function SeatIds(n: nat): (ids: set<InvestigatorId>)
    ensures forall id :: id in ids <==> 1 <= id <= n
  {
    if n == 0 then {} else SeatIds(n - 1) + {n}
  }

  /** Each roster entry's account, as the holder of the investigator seating
      numbers one more than its index. */
  function InSeatingOrder(picks: seq<Pick>): Assignment {
    map id | id in SeatIds(|picks|) :: picks[id - 1].account
  }

  /** Where the lead pick sits, or 0 if the lead is no pick. */
  function LeadIndex(picks: seq<Pick>, lead: Option<CardCode>): nat {
    match lead
    case None => 0
    case Some(investigator) =>
      match PositionOf(picks, investigator)
      case None => 0
      case Some(p) => p
  }

  function StartLobby(pool: Pool, lobby: LobbyView, account: AccountId): Result<Start, LobbyRefusal> {
    if account != lobby.creator then Failure(NotCreator)
    else if lobby.picks == [] then Failure(NoPicks)
    else
      var roster :- RosterOf(pool, lobby.picks);
      Success(Start(lobby.scenarioId, roster, LeadIndex(lobby.picks, lobby.lead), InSeatingOrder(lobby.picks)))
  }

  /** What a command leaves: its result, or the lobby untouched. */
  ghost predicate Answered(
    before: LobbyView, result: Result<LobbyView, LobbyRefusal>, after: LobbyView, refusal: Option<LobbyRefusal>)
  {
    match result
    case Success(changed) => refusal == None && after == changed
    case Failure(why) => refusal == Some(why) && after == before
  }

  /** The lobby as the room holds it. */
  class Lobby {
    const pool: Pool
    const scenarioId: ScenarioId
    const creator: AccountId
    var members: seq<AccountId>
    var picks: seq<Pick>
    var lead: Option<CardCode>

    function View(): LobbyView
      reads this
    {
      LobbyView(scenarioId, creator, members, picks, lead)
    }

    constructor (pool: Pool, view: LobbyView)
      ensures View() == view && this.pool == pool
    {
      this.pool := pool;
      scenarioId, creator := view.scenarioId, view.creator;
      members, picks, lead := view.members, view.picks, view.lead;
    }

    method AddMember(member: AccountId) returns (added: bool)
      modifies this
      ensures added <==> member !in old(members)
      ensures View() == JoinLobby(old(View()), member)
    {
      added := member !in members;
      if added {
        members := members + [member];
      }
    }

    method TakePick(account: AccountId, investigator: CardCode) returns (refusal: Option<LobbyRefusal>)
      modifies this
      ensures Answered(old(View()), Take(pool, old(View()), account, investigator), View(), refusal)
    {
      if DefaultDeckOf(pool, investigator).None? {
        return Some(NotInPool(investigator));
      }
      match PositionOf(picks, investigator) {
        case Some(p) => return Some(Taken(investigator, picks[p].account));
        case None =>
      }
      if |picks| >= MAX_PICKS {
        return Some(LobbyFull);
      }
      if lead.None? {
        lead := Some(investigator);
      }
      picks := picks + [Pick(investigator, account, Fixed)];
      return None;
    }

    method GiveUpPick(account: AccountId, investigator: CardCode) returns (refusal: Option<LobbyRefusal>)
      modifies this
      ensures Answered(old(View()), GiveUp(old(View()), account, investigator), View(), refusal)
    {
      match OwnPick(picks, account, investigator) {
        case None => return Some(NotYourPick(investigator));
        case Some(p) =>
          picks := picks[..p] + picks[p + 1..];
          if lead == Some(investigator) {
            lead := FirstInvestigator(picks);
          }
          return None;
      }
    }

    method ChooseWeakness(account: AccountId, investigator: CardCode, choice: WeaknessChoice)
      returns (refusal: Option<LobbyRefusal>)
      modifies this
      ensures Answered(old(View()), SetWeakness(old(View()), account, investigator, choice), View(), refusal)
    {
      match OwnPick(picks, account, investigator) {
        case None => return Some(NotYourPick(investigator));
        case Some(p) =>
          picks := picks[p := picks[p].(weakness := choice)];
          return None;
      }
    }

    method MovePick(account: AccountId, investigator: CardCode, direction: Direction)
      returns (refusal: Option<LobbyRefusal>)
      modifies this
      ensures Answered(old(View()), MoveInSeating(old(View()), account, investigator, direction), View(), refusal)
    {
      if account != creator {
        return Some(NotCreator);
      }
      match PositionOf(picks, investigator) {
        case None => return Some(NotPicked(investigator));
        case Some(p) =>
          var neighbour := if direction == Earlier then p - 1 else p + 1;
          if neighbour < 0 || neighbour >= |picks| {
            return Some(NoNeighbour(investigator));
          }
          picks := picks[p := picks[neighbour]][neighbour := picks[p]];
          return None;
      }
    }

    method ChooseLead(account: AccountId, investigator: CardCode) returns (refusal: Option<LobbyRefusal>)
      modifies this
      ensures Answered(old(View()), SetLead(old(View()), account, investigator), View(), refusal)
    {
      if account != creator {
        return Some(NotCreator);
      }
      if PositionOf(picks, investigator).None? {
        return Some(NotPicked(investigator));
      }
      lead := Some(investigator);
      return None;
    }

    method Leave(account: AccountId) returns (refusal: Option<LobbyRefusal>)
      modifies this
      ensures Answered(old(View()), Depart(old(View()), account), View(), refusal)
    {
      if account == creator {
        return Some(CreatorStays);
      }
      if account !in members {
        return Some(NotALobbyMember);
      }
      members := Without(members, account);
      var leadDeparts := HasLead(picks, account, lead);
      picks := PicksWithout(picks, account);
      if leadDeparts {
        lead := FirstInvestigator(picks);
      }
      return None;
    }

    method RemoveMember(asker: AccountId, member: AccountId) returns (refusal: Option<LobbyRefusal>)
      modifies this
      ensures Answered(old(View()), Remove(old(View()), asker, member), View(), refusal)
    {
      if asker != creator {
        return Some(NotCreator);
      }
      refusal := Leave(member);
    }
  }
}
