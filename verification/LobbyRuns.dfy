/** What holds of a lobby over every run of commands. */
module LobbyRuns {
  import opened Wrappers
  import opened Prompts
  import opened Engine
  import opened LiveGames
  import opened Store
  import opened Sessions
  import opened Lobbies
  import FisherYates

  ghost predicate DistinctInvestigators(picks: seq<Pick>) {
    forall i, j | 0 <= i < j < |picks| :: picks[i].investigator != picks[j].investigator
  }

  predicate Picked(picks: seq<Pick>, investigator: CardCode) {
    exists i | 0 <= i < |picks| :: picks[i].investigator == investigator
  }

  /** The lobby's invariant: at most four picks, all different and in the pool;
      a lead exactly when there are picks, and one of them; and a creator who
      is a member. */
  ghost predicate ValidLobby(pool: Pool, lobby: LobbyView) {
    && |lobby.picks| <= MAX_PICKS
    && DistinctInvestigators(lobby.picks)
    && (forall i | 0 <= i < |lobby.picks| :: DefaultDeckOf(pool, lobby.picks[i].investigator).Some?)
    && (lobby.lead.None? <==> lobby.picks == [])
    && (lobby.lead.Some? ==> Picked(lobby.picks, lobby.lead.value))
    && lobby.creator in lobby.members
    && (forall i, j | 0 <= i < j < |lobby.members| :: lobby.members[i] != lobby.members[j])
  }

  lemma {:induction false} WithoutKeepsOthers(members: seq<AccountId>, account: AccountId)
    ensures forall m :: m in Without(members, account) <==> m in members && m != account
    ensures (forall i, j | 0 <= i < j < |members| :: members[i] != members[j]) ==>
              forall i, j | 0 <= i < j < |Without(members, account)| ::
                Without(members, account)[i] != Without(members, account)[j]
  {
    if members != [] {
      WithoutKeepsOthers(members[1..], account);
      var rest := Without(members[1..], account);
      if (forall i, j | 0 <= i < j < |members| :: members[i] != members[j]) {
        assert forall i, j | 0 <= i < j < |members[1..]| :: members[1..][i] != members[1..][j];
        assert members[0] !in members[1..];
        assert members[0] !in rest;
      }
    }
  }

  lemma {:induction false} PicksWithoutAre(picks: seq<Pick>, account: AccountId)
    ensures |PicksWithout(picks, account)| <= |picks|
    ensures forall pick :: pick in PicksWithout(picks, account) <==> pick in picks && pick.account != account
    ensures DistinctInvestigators(picks) ==> DistinctInvestigators(PicksWithout(picks, account))
  {
    if picks != [] {
      PicksWithoutAre(picks[1..], account);
      var rest := PicksWithout(picks[1..], account);
      if DistinctInvestigators(picks) {
        assert DistinctInvestigators(picks[1..]);
        forall k | 0 <= k < |rest| ensures rest[k].investigator != picks[0].investigator {
          assert rest[k] in picks[1..];
        }
      }
    }
  }

  lemma TakeKeepsValid(pool: Pool, lobby: LobbyView, account: AccountId, investigator: CardCode)
    requires ValidLobby(pool, lobby) && Take(pool, lobby, account, investigator).Success?
    ensures ValidLobby(pool, Take(pool, lobby, account, investigator).value)
  {
    var after := Take(pool, lobby, account, investigator).value;
    assert after.picks[|lobby.picks|].investigator == investigator;
    if lobby.lead.Some? {
      var i :| 0 <= i < |lobby.picks| && lobby.picks[i].investigator == lobby.lead.value;
      assert after.picks[i] == lobby.picks[i];
    }
  }

  lemma GiveUpKeepsValid(pool: Pool, lobby: LobbyView, account: AccountId, investigator: CardCode)
    requires ValidLobby(pool, lobby) && GiveUp(lobby, account, investigator).Success?
    ensures ValidLobby(pool, GiveUp(lobby, account, investigator).value)
  {
    var p := OwnPick(lobby.picks, account, investigator).value;
    GapKeepsPicks(pool, lobby.picks, p);
    if lobby.lead.Some? && lobby.lead != Some(investigator) { GapKeepsPicked(lobby.picks, p, lobby.lead.value); }
    hide OwnPick, DistinctInvestigators, DefaultDeckOf;
  }

  /** The picks with the gap at `p` closed stay different, and in the pool. */
  lemma GapKeepsPicks(pool: Pool, picks: seq<Pick>, p: nat)
    requires p < |picks| && DistinctInvestigators(picks)
    requires forall i | 0 <= i < |picks| :: DefaultDeckOf(pool, picks[i].investigator).Some?
    ensures var after := picks[..p] + picks[p + 1..];
      && DistinctInvestigators(after)
      && forall i | 0 <= i < |after| :: DefaultDeckOf(pool, after[i].investigator).Some?
  {
    hide DefaultDeckOf;
    var after := picks[..p] + picks[p + 1..];
    assert forall i | 0 <= i < |after| :: after[i] == picks[if i < p then i else i + 1];
  }

  lemma GapKeepsPicked(picks: seq<Pick>, p: nat, investigator: CardCode)
    requires p < |picks| && Picked(picks, investigator) && picks[p].investigator != investigator
    ensures Picked(picks[..p] + picks[p + 1..], investigator)
  {
    var i :| 0 <= i < |picks| && picks[i].investigator == investigator;
    assert (picks[..p] + picks[p + 1..])[if i < p then i else i - 1] == picks[i];
  }

  lemma DepartKeepsValid(pool: Pool, lobby: LobbyView, account: AccountId)
    requires ValidLobby(pool, lobby) && Depart(lobby, account).Success?
    ensures ValidLobby(pool, Depart(lobby, account).value)
    ensures account !in Depart(lobby, account).value.members
    ensures forall i | 0 <= i < |Depart(lobby, account).value.picks| ::
              Depart(lobby, account).value.picks[i].account != account
  {
    var after := Depart(lobby, account).value;
    WithoutKeepsOthers(lobby.members, account);
    PicksWithoutAre(lobby.picks, account);
    forall i | 0 <= i < |after.picks| ensures after.picks[i] in lobby.picks && after.picks[i].account != account {
      assert after.picks[i] in after.picks;
    }
    if lobby.lead.Some? && !HasLead(lobby.picks, account, lobby.lead) {
      var i :| 0 <= i < |lobby.picks| && lobby.picks[i].investigator == lobby.lead.value;
      assert lobby.picks[i] in after.picks;
    }
  }

  /** Swapping two picks keeps them different, in the pool, and holding
      whatever they held. */
  lemma SwapKeepsPicks(pool: Pool, picks: seq<Pick>, p: nat, n: nat)
    requires p < |picks| && n < |picks| && DistinctInvestigators(picks)
    requires forall i | 0 <= i < |picks| :: DefaultDeckOf(pool, picks[i].investigator).Some?
    ensures var after := picks[p := picks[n]][n := picks[p]];
            && DistinctInvestigators(after)
            && (forall i | 0 <= i < |after| :: DefaultDeckOf(pool, after[i].investigator).Some?)
            && (forall investigator :: Picked(picks, investigator) ==> Picked(after, investigator))
  {
    var after := picks[p := picks[n]][n := picks[p]];
    assert forall i | 0 <= i < |after| :: after[i] == picks[if i == p then n else if i == n then p else i];
    forall investigator | Picked(picks, investigator) ensures Picked(after, investigator) {
      var i :| 0 <= i < |picks| && picks[i].investigator == investigator;
      assert after[if i == p then n else if i == n then p else i] == picks[i];
    }
  }

  lemma SwapKeepsValid(pool: Pool, lobby: LobbyView, account: AccountId, investigator: CardCode, direction: Direction)
    requires ValidLobby(pool, lobby) && MoveInSeating(lobby, account, investigator, direction).Success?
    ensures ValidLobby(pool, MoveInSeating(lobby, account, investigator, direction).value)
  {
    hide DistinctInvestigators, Picked;
    var p := PositionOf(lobby.picks, investigator).value;
    var n := if direction == Earlier then p - 1 else p + 1;
    SwapKeepsPicks(pool, lobby.picks, p, n);
  }

  lemma WeaknessKeepsValid(
    pool: Pool, lobby: LobbyView, account: AccountId, investigator: CardCode, choice: WeaknessChoice)
    requires ValidLobby(pool, lobby) && SetWeakness(lobby, account, investigator, choice).Success?
    ensures ValidLobby(pool, SetWeakness(lobby, account, investigator, choice).value)
  {
    var after := SetWeakness(lobby, account, investigator, choice).value;
    assert forall i | 0 <= i < |after.picks| :: after.picks[i].investigator == lobby.picks[i].investigator;
    var i :| 0 <= i < |lobby.picks| && lobby.picks[i].investigator == lobby.lead.value;
    assert after.picks[i].investigator == lobby.lead.value;
  }

  /** **Every command keeps the lobby valid.** */
  lemma CommandKeepsValid(pool: Pool, lobby: LobbyView, command: LobbyCommand)
    requires ValidLobby(pool, lobby) && Command(pool, lobby, command).Success?
    ensures ValidLobby(pool, Command(pool, lobby, command).value)
  {
    hide ValidLobby;
    match command
    case TakeCommand(account, investigator) => TakeKeepsValid(pool, lobby, account, investigator);
    case GiveUpCommand(account, investigator) => GiveUpKeepsValid(pool, lobby, account, investigator);
    case SetWeaknessCommand(account, investigator, choice) =>
      WeaknessKeepsValid(pool, lobby, account, investigator, choice);
    case MoveCommand(account, investigator, direction) =>
      SwapKeepsValid(pool, lobby, account, investigator, direction);
    case SetLeadCommand(account, investigator) => LeadKeepsValid(pool, lobby, account, investigator);
    case LeaveCommand(account) => DepartKeepsValid(pool, lobby, account);
    case RemoveCommand(_, member) => DepartKeepsValid(pool, lobby, member);
  }

  lemma LeadKeepsValid(pool: Pool, lobby: LobbyView, account: AccountId, investigator: CardCode)
    requires ValidLobby(pool, lobby) && SetLead(lobby, account, investigator).Success?
    ensures ValidLobby(pool, SetLead(lobby, account, investigator).value)
  {
  }

  lemma JoinKeepsValid(pool: Pool, lobby: LobbyView, member: AccountId)
    requires ValidLobby(pool, lobby)
    ensures ValidLobby(pool, JoinLobby(lobby, member))
  {
  }

  // ----- Start -----

  lemma {:induction false} RosterFollowsPicks(pool: Pool, picks: seq<Pick>)
    requires forall i | 0 <= i < |picks| :: DefaultDeckOf(pool, picks[i].investigator).Some?
    ensures RosterOf(pool, picks).Success?
    ensures |RosterOf(pool, picks).value| == |picks|
    ensures forall i | 0 <= i < |picks| ::
              && RosterOf(pool, picks).value[i].investigator == picks[i].investigator
              && RosterOf(pool, picks).value[i].randomBasicWeaknesses == (if picks[i].weakness == Random then 1 else 0)
  {
    if picks != [] {
      DeckIsItsOwn(pool, picks[0].investigator);
      assert forall i | 0 <= i < |picks[1..]| :: picks[1..][i] == picks[i + 1];
      RosterFollowsPicks(pool, picks[1..]);
      var rest := RosterOf(pool, picks[1..]).value;
      assert forall i | 1 <= i < |picks| :: RosterOf(pool, picks).value[i] == rest[i - 1];
    }
  }

  lemma {:induction false} DeckIsItsOwn(pool: Pool, code: CardCode)
    ensures DefaultDeckOf(pool, code).Some? ==> DefaultDeckOf(pool, code).value.investigator == code
  {
    if pool != [] && pool[0].investigator != code {
      DeckIsItsOwn(pool[1..], code);
    }
  }

  /** **Start seats what the lobby shows.** The creator's Start of a valid lobby
      is refused only while nobody is picked. It seats each pick in order, its
      lead index is the lead pick's own seat, never the fallback, and exactly
      the investigators numbered 1 to n are held, each by whoever picked them. */
  lemma StartSeatsPicks(pool: Pool, lobby: LobbyView)
    requires ValidLobby(pool, lobby)
    ensures StartLobby(pool, lobby, lobby.creator).Success? <==> lobby.picks != []
    ensures StartLobby(pool, lobby, lobby.creator).Success? ==>
              var start := StartLobby(pool, lobby, lobby.creator).value;
              && |start.roster| == |lobby.picks|
              && start.lead < |start.roster|
              && Some(start.roster[start.lead].investigator) == lobby.lead
              && (forall i | 0 <= i < |lobby.picks| :: start.roster[i].investigator == lobby.picks[i].investigator)
              && (forall id :: id in start.assignment <==> 1 <= id <= |lobby.picks|)
              && (forall i | 0 <= i < |lobby.picks| :: start.assignment[i + 1] == lobby.picks[i].account)
              && start.assignment != map[]
  {
    RosterFollowsPicks(pool, lobby.picks);
    if lobby.picks != [] {
      var i :| 0 <= i < |lobby.picks| && lobby.picks[i].investigator == lobby.lead.value;
      assert 1 in InSeatingOrder(lobby.picks);
    }
  }

  // ----- who holds the picks -----

  predicate PickersAreMembers(lobby: LobbyView) {
    forall i | 0 <= i < |lobby.picks| :: lobby.picks[i].account in lobby.members
  }

  /** A Take checks no membership: whoever's pick it adds is a member exactly
      when the account taking is one. */
  lemma TakeKeepsPickers(pool: Pool, lobby: LobbyView, account: AccountId, investigator: CardCode)
    requires PickersAreMembers(lobby) && Take(pool, lobby, account, investigator).Success?
    ensures PickersAreMembers(Take(pool, lobby, account, investigator).value) <==> account in lobby.members
  {
    var after := Take(pool, lobby, account, investigator).value;
    assert after.picks[|lobby.picks|].account == account;
  }

  /** Every other command keeps the picks with members: a departing account's
      picks go with it. */
  lemma OthersKeepPickers(pool: Pool, lobby: LobbyView, command: LobbyCommand)
    requires PickersAreMembers(lobby) && !command.TakeCommand?
    requires Command(pool, lobby, command).Success?
    ensures PickersAreMembers(Command(pool, lobby, command).value)
  {
    match command
    case GiveUpCommand(account, investigator) => GiveUpKeepsPickers(lobby, account, investigator);
    case SetWeaknessCommand(_, _, _) =>
      var after := Command(pool, lobby, command).value;
      assert forall i | 0 <= i < |after.picks| :: after.picks[i].account == lobby.picks[i].account;
    case MoveCommand(_, _, _) =>
    case SetLeadCommand(_, _) =>
    case LeaveCommand(account) => DepartKeepsPickers(lobby, account);
    case RemoveCommand(_, member) => DepartKeepsPickers(lobby, member);
  }

  lemma GiveUpKeepsPickers(lobby: LobbyView, account: AccountId, investigator: CardCode)
    requires PickersAreMembers(lobby) && GiveUp(lobby, account, investigator).Success?
    ensures PickersAreMembers(GiveUp(lobby, account, investigator).value)
  {
    var p := OwnPick(lobby.picks, account, investigator).value;
    var after := GiveUp(lobby, account, investigator).value;
    assert forall i | 0 <= i < |after.picks| :: after.picks[i] == lobby.picks[if i < p then i else i + 1];
  }

  lemma DepartKeepsPickers(lobby: LobbyView, account: AccountId)
    requires PickersAreMembers(lobby) && Depart(lobby, account).Success?
    ensures PickersAreMembers(Depart(lobby, account).value)
  {
    var after := Depart(lobby, account).value;
    PicksWithoutAre(lobby.picks, account);
    WithoutKeepsOthers(lobby.members, account);
    forall i | 0 <= i < |after.picks| ensures after.picks[i].account in after.members {
      assert after.picks[i] in after.picks;
    }
  }

  /** A Take queued behind its sender's own removal is accepted, and leaves a
      pick nobody in the lobby holds: Start would then give that investigator
      to an account that is no member. */
  lemma RemovedThenTakes(pool: Pool, lobby: LobbyView, member: AccountId, investigator: CardCode)
    requires ValidLobby(pool, lobby) && PickersAreMembers(lobby)
    requires member in lobby.members && member != lobby.creator
    requires DefaultDeckOf(pool, investigator).Some? && lobby.picks == []
    ensures var removed := Remove(lobby, lobby.creator, member);
            && removed.Success?
            && var taken := Take(pool, removed.value, member, investigator);
               taken.Success? && !PickersAreMembers(taken.value)
  {
    WithoutKeepsOthers(lobby.members, member);
    var removed := Remove(lobby, lobby.creator, member).value;
    TakeKeepsPickers(pool, removed, member, investigator);
  }

  // ----- every seating is reachable -----

  /** The lobby after a run of commands, if every one of them was accepted. */
  function Accepted(pool: Pool, lobby: LobbyView, commands: seq<LobbyCommand>): Option<LobbyView>
    decreases |commands|
  {
    if commands == [] then Some(lobby)
    else match Command(pool, lobby, commands[0])
      case Failure(_) => None
      case Success(after) => Accepted(pool, after, commands[1..])
  }

  lemma {:induction false} AcceptedConcat(
    pool: Pool, lobby: LobbyView, first: seq<LobbyCommand>, second: seq<LobbyCommand>)
    requires Accepted(pool, lobby, first).Some?
    ensures Accepted(pool, lobby, first + second) == Accepted(pool, Accepted(pool, lobby, first).value, second)
    decreases |first|
  {
    if first == [] {
      assert first + second == second;
    } else {
      assert (first + second)[1..] == first[1..] + second;
      AcceptedConcat(pool, Command(pool, lobby, first[0]).value, first[1..], second);
    }
  }

  lemma AcceptedFirst(
    pool: Pool, lobby: LobbyView, command: LobbyCommand, after: LobbyView, rest: seq<LobbyCommand>)
    requires Command(pool, lobby, command) == Success(after)
    ensures Accepted(pool, lobby, [command] + rest) == Accepted(pool, after, rest)
  {
    assert ([command] + rest)[1..] == rest;
  }

  ghost predicate OnlyMoves(commands: seq<LobbyCommand>, creator: AccountId) {
    forall k | 0 <= k < |commands| :: commands[k].MoveCommand? && commands[k].account == creator
  }

  lemma {:induction false} PositionIsOnly(picks: seq<Pick>, p: nat)
    requires p < |picks| && DistinctInvestigators(picks)
    ensures PositionOf(picks, picks[p].investigator) == Some(p)
  {
    var q := PositionOf(picks, picks[p].investigator);
    assert q.Some?;
    assert q.value == p;
  }

  /** The seating with the pick at `from` brought forward to `to`. */
  function BroughtForward(picks: seq<Pick>, from: nat, to: nat): (r: seq<Pick>)
    requires to <= from < |picks|
    ensures |r| == |picks|
  {
    picks[..to] + [picks[from]] + picks[to..from] + picks[from + 1..]
  }

  /** Moving one pick Earlier, one step at a time, brings it forward past the
      picks between. */
  lemma {:induction false} MoveForward(pool: Pool, lobby: LobbyView, from: nat, to: nat)
    returns (commands: seq<LobbyCommand>)
    requires to <= from < |lobby.picks| && DistinctInvestigators(lobby.picks)
    ensures OnlyMoves(commands, lobby.creator)
    ensures Accepted(pool, lobby, commands) == Some(lobby.(picks := BroughtForward(lobby.picks, from, to)))
    decreases from - to
  {
    hide BroughtForward, DistinctInvestigators, Command, SwappedDown, Accepted, OnlyMoves;
    if from == to {
      commands := [];
      NoMoves(pool, lobby, from);
    } else {
      var move, after := MoveOne(pool, lobby, from);
      BroughtStep(lobby.picks, from, to);
      var rest := MoveForward(pool, after, from - 1, to);
      commands := [move] + rest;
      AcceptedFirst(pool, lobby, move, after, rest);
      OnlyMovesConcat([move], rest, lobby.creator);
    }
  }

  lemma NoMoves(pool: Pool, lobby: LobbyView, from: nat)
    requires from < |lobby.picks|
    ensures BroughtForward(lobby.picks, from, from) == lobby.picks
    ensures Accepted(pool, lobby, []) == Some(lobby)
    ensures OnlyMoves([], lobby.creator)
  {
  }

  lemma OnlyMovesConcat(first: seq<LobbyCommand>, second: seq<LobbyCommand>, creator: AccountId)
    requires OnlyMoves(first, creator) && OnlyMoves(second, creator)
    ensures OnlyMoves(first + second, creator)
  {
  }

  /** One step Earlier of the pick at `from`. */
  lemma MoveOne(pool: Pool, lobby: LobbyView, from: nat) returns (move: LobbyCommand, after: LobbyView)
    requires 0 < from < |lobby.picks| && DistinctInvestigators(lobby.picks)
    ensures OnlyMoves([move], lobby.creator)
    ensures Command(pool, lobby, move) == Success(after)
    ensures after == lobby.(picks := SwappedDown(lobby.picks, from))
    ensures DistinctInvestigators(after.picks)
  {
    move := MoveCommand(lobby.creator, lobby.picks[from].investigator, Earlier);
    PositionIsOnly(lobby.picks, from);
    SwappedDistinct(lobby.picks, from);
    after := lobby.(picks := SwappedDown(lobby.picks, from));
  }

  function SwappedDown(picks: seq<Pick>, from: nat): (r: seq<Pick>)
    requires 0 < from < |picks|
    ensures |r| == |picks|
  {
    picks[from := picks[from - 1]][from - 1 := picks[from]]
  }

  lemma BroughtStep(picks: seq<Pick>, from: nat, to: nat)
    requires to < from < |picks|
    ensures BroughtForward(SwappedDown(picks, from), from - 1, to) == BroughtForward(picks, from, to)
  {
  }

  lemma SwappedDistinct(picks: seq<Pick>, from: nat)
    requires 0 < from < |picks| && DistinctInvestigators(picks)
    ensures DistinctInvestigators(SwappedDown(picks, from))
  {
    var swapped := SwappedDown(picks, from);
    assert forall i | 0 <= i < |picks| ::
      swapped[i] == picks[if i == from then from - 1 else if i == from - 1 then from else i];
  }

  lemma BroughtForwardDistinct(picks: seq<Pick>, from: nat, to: nat)
    requires to <= from < |picks| && DistinctInvestigators(picks)
    ensures DistinctInvestigators(BroughtForward(picks, from, to))
  {
    var r := BroughtForward(picks, from, to);
    assert forall i | 0 <= i < |picks| ::
      r[i] == picks[if i < to then i else if i == to then from else if i <= from then i - 1 else i];
  }

  lemma BroughtForwardPermutes(picks: seq<Pick>, from: nat, to: nat)
    requires to <= from < |picks|
    ensures multiset(BroughtForward(picks, from, to)) == multiset(picks)
  {
    assert picks == picks[..to] + picks[to..from] + [picks[from]] + picks[from + 1..];
  }

  /** A pick still to seat sits at or after the seat it is wanted in. */
  lemma WantedSitsLater(picks: seq<Pick>, target: seq<Pick>, seated: nat) returns (from: nat)
    requires multiset(picks) == multiset(target) && seated < |target| == |picks|
    requires picks[..seated] == target[..seated]
    ensures seated <= from < |picks| && picks[from] == target[seated]
  {
    assert picks == picks[..seated] + picks[seated..] && target == target[..seated] + target[seated..];
    assert multiset(picks[seated..]) + multiset(picks[..seated]) == multiset(picks);
    assert multiset(target[seated..]) + multiset(target[..seated]) == multiset(target);
    FisherYates.Cancel(multiset(picks[seated..]), multiset(target[seated..]), multiset(picks[..seated]));
    assert target[seated..][0] in multiset(picks[seated..]);
    var k :| 0 <= k < |picks[seated..]| && picks[seated..][k] == target[seated];
    from := seated + k;
  }

  /** **Every seating is reachable.** From any lobby of distinct picks, some run
      of the creator's moves, each accepted, leaves the picks in any order
      wanted and changes nothing else. */
  lemma {:induction false} EverySeatingReachable(pool: Pool, lobby: LobbyView, target: seq<Pick>, seated: nat)
    returns (commands: seq<LobbyCommand>)
    requires DistinctInvestigators(lobby.picks)
    requires multiset(lobby.picks) == multiset(target)
    requires seated <= |target| == |lobby.picks| && lobby.picks[..seated] == target[..seated]
    ensures OnlyMoves(commands, lobby.creator)
    ensures Accepted(pool, lobby, commands) == Some(lobby.(picks := target))
    decreases |target| - seated
  {
    if seated == |target| {
      commands := [];
      assert lobby.picks == lobby.picks[..seated] && target == target[..seated];
    } else {
      var from := WantedSitsLater(lobby.picks, target, seated);
      hide DistinctInvestigators, Accepted, OnlyMoves;
      var first := MoveForward(pool, lobby, from, seated);
      var after := lobby.(picks := BroughtForward(lobby.picks, from, seated));
      BroughtForwardDistinct(lobby.picks, from, seated);
      BroughtForwardPermutes(lobby.picks, from, seated);
      assert after.picks[..seated + 1] == lobby.picks[..seated] + [target[seated]];
      assert target[..seated + 1] == target[..seated] + [target[seated]];
      hide BroughtForward;
      var rest := EverySeatingReachable(pool, after, target, seated + 1);
      commands := first + rest;
      AcceptedConcat(pool, lobby, first, rest);
      OnlyMovesConcat(first, rest, lobby.creator);
    }
  }
}
