/** The rows stored under one game's id (`server::store`, `server::lobby`), and
    the writes the server makes of them. A write is one transaction: it happens
    whole, or it fails and changes nothing. */
module Store {
  import opened Wrappers
  import opened Prompts
  import opened Rng
  import opened Engine
  import opened LoggedAnswers
  import opened Fingerprint
  import opened LiveGames

  const FORMAT_VERSION: int := 3

  datatype WeaknessChoice = Fixed | Random

  datatype Pick = Pick(investigator: CardCode, account: AccountId, weakness: WeaknessChoice)

  datatype LobbyRow = LobbyRow(scenarioId: ScenarioId, creator: AccountId, lead: Option<CardCode>)

  datatype GameRow = GameRow(
    formatVersion: int,
    creator: Option<AccountId>,
    scenarioId: ScenarioId,
    roster: seq<RosterEntry>,
    lead: int,
    rngSeed: int,
    interactiveAcknowledge: bool,
    setupFingerprint: SetupFingerprint)

  datatype ActionRow = ActionRow(answer: LoggedAnswer, draws: int)

  /** One game id's rows. `members` are in rowid order, `picks` in position
      order; `actions` are keyed by `seq`. */
  datatype Rows = Rows(
    lobby: Option<LobbyRow>,
    picks: seq<Pick>,
    members: seq<AccountId>,
    game: Option<GameRow>,
    assignment: Assignment,
    actions: map<int, ActionRow>)

  const NO_ROWS: Rows := Rows(None, [], [], None, map[], map[])

  // ----- integer columns -----

  const I64_MAX: int := 0x7FFF_FFFF_FFFF_FFFF

  /** A `u64`'s bits as the signed 64-bit integer of a column: the two agree
      modulo 2^64, and the column gives them back. */
  function ToSqlInteger(bits: Uint64): (integer: int)
    ensures -I64_MAX - 1 <= integer <= I64_MAX
    ensures integer == bits || integer == bits - U64
    ensures FromSqlInteger(integer) == bits
  {
    if bits <= I64_MAX then bits else bits - U64
  }

  function FromSqlInteger(integer: int): Uint64
    requires -I64_MAX - 1 <= integer <= I64_MAX
  {
    if integer >= 0 then integer else integer + U64
  }

  /** No column value is ambiguous: the conversion is onto, so both ways
      round-trip. */
  lemma SqlIntegersRoundTrip(integer: int)
    requires -I64_MAX - 1 <= integer <= I64_MAX
    ensures ToSqlInteger(FromSqlInteger(integer)) == integer
  {
  }

  // ----- writes -----

  function AddMemberRow(rows: Rows, account: AccountId): Rows {
    if account in rows.members then rows else rows.(members := rows.members + [account])
  }

  function Without(members: seq<AccountId>, account: AccountId): seq<AccountId> {
    if members == [] then []
    else (if members[0] == account then [] else [members[0]]) + Without(members[1..], account)
  }

  function RemoveMemberRow(rows: Rows, account: AccountId): Rows {
    rows.(members := Without(rows.members, account))
  }

  /** Insert an action at `position`. The foreign key refuses it with no game
      stored, the primary key if one is stored there. */
  function InsertAction(rows: Rows, position: int, row: ActionRow): Option<Rows> {
    if rows.game.None? || position in rows.actions then None else Some(rows.(actions := rows.actions[position := row]))
  }

  /** Update an investigator's holder, which fails if it has no row. */
  function UpdateHolder(rows: Rows, investigator: InvestigatorId, account: AccountId): Option<Rows> {
    if investigator !in rows.assignment then None
    else Some(rows.(assignment := rows.assignment[investigator := account]))
  }

  // ----- the action log, in `seq` order -----

  /** The rows at positions `0..n`: what a dense log of `n` answers reads back
      as, `ORDER BY seq`. */
  function Dense(actions: map<int, ActionRow>, n: nat): seq<ActionRow>
    requires forall k | 0 <= k < n :: k in actions
  {
    seq(n, k requires 0 <= k < n => actions[k])
  }

  ghost predicate DenseLog(actions: map<int, ActionRow>, n: nat) {
    forall k :: k in actions <==> 0 <= k < n
  }

  ghost predicate LeastPosition(actions: map<int, ActionRow>, least: int) {
    least in actions && forall k | k in actions :: least <= k
  }

  lemma {:induction false} LeastExists(actions: map<int, ActionRow>, some: int)
    requires some in actions
    ensures exists least :: LeastPosition(actions, least)
    decreases |actions|
  {
    if !LeastPosition(actions, some) {
      var lower :| lower in actions && lower < some;
      var fewer := map k | k in actions && k < some :: actions[k];
      assert some !in fewer && fewer.Keys <= actions.Keys - {some};
      KeysShrink(fewer.Keys, actions.Keys - {some});
      assert |fewer.Keys| == |fewer| && |actions.Keys| == |actions|;
      LeastExists(fewer, lower);
      var least :| LeastPosition(fewer, least);
      assert least in actions;
      forall k | k in actions ensures least <= k {
        assert k < some ==> k in fewer;
      }
      assert LeastPosition(actions, least);
    }
  }

  lemma LeastOfNonempty(actions: map<int, ActionRow>)
    requires actions != map[]
    ensures exists least :: LeastPosition(actions, least)
  {
    var some := Member(actions.Keys);
    LeastExists(actions, some);
  }

  lemma Member<T>(items: set<T>) returns (item: T)
    requires items != {}
    ensures item in items
  {
    item :| item in items;
  }

  lemma {:induction false} KeysShrink(small: set<int>, large: set<int>)
    requires small <= large
    ensures |small| <= |large|
  {
    assert large == small + (large - small);
    assert |large| == |small| + |large - small|;
  }

  /** The rows in `seq` order, whatever positions they sit at. */
  ghost function InOrder(actions: map<int, ActionRow>): seq<ActionRow>
    decreases |actions|
  {
    if actions == map[] then []
    else
      LeastOfNonempty(actions);
      var least :| LeastPosition(actions, least);
      [actions[least]] + InOrder(actions - {least})
  }

  /** A dense log reads back in position order. */
  lemma {:induction false} DenseReadsInOrder(actions: map<int, ActionRow>, from: nat, n: nat)
    requires from <= n
    requires forall k :: k in actions <==> from <= k < n
    ensures InOrder(actions) == seq(n - from, k requires 0 <= k < n - from => actions[from + k])
    decreases n - from
  {
    var listed := seq(n - from, k requires 0 <= k < n - from => actions[from + k]);
    if from == n {
      assert actions == map[];
    } else {
      assert from in actions;
      assert forall least :: LeastPosition(actions, least) ==> least == from;
      var rest := actions - {from};
      DenseReadsInOrder(rest, from + 1, n);
      assert listed == [actions[from]] + seq(n - from - 1, k requires 0 <= k < n - from - 1 => rest[from + 1 + k]);
    }
  }

  /** The store, as the server writes to it. Each write may fail to reach it
      (`works`), leaving it unchanged. */
  class Database {
    var rows: Rows

    constructor (rows: Rows)
      ensures this.rows == rows
    {
      this.rows := rows;
    }

    method StoreAction(position: int, row: ActionRow, works: bool) returns (ok: bool)
      modifies this
      ensures ok <==> works && InsertAction(old(rows), position, row).Some?
      ensures rows == if ok then InsertAction(old(rows), position, row).value else old(rows)
    {
      ok := works && rows.game.Some? && position !in rows.actions;
      if ok {
        rows := rows.(actions := rows.actions[position := row]);
      }
    }

    method StoreHolder(investigator: InvestigatorId, account: AccountId, works: bool) returns (ok: bool)
      modifies this
      ensures ok <==> works && UpdateHolder(old(rows), investigator, account).Some?
      ensures rows == if ok then UpdateHolder(old(rows), investigator, account).value else old(rows)
    {
      ok := works && investigator in rows.assignment;
      if ok {
        rows := rows.(assignment := rows.assignment[investigator := account]);
      }
    }

    method StoreMember(account: AccountId, works: bool) returns (ok: bool, inserted: bool)
      modifies this
      ensures ok <==> works
      ensures inserted <==> works && account !in old(rows).members
      ensures rows == if ok then AddMemberRow(old(rows), account) else old(rows)
    {
      ok, inserted := works, works && account !in rows.members;
      if inserted {
        rows := rows.(members := rows.members + [account]);
      }
    }

    /** Any other transaction: the rows it leaves. */
    method Transact(after: Rows, works: bool)
      modifies this
      ensures rows == if works then after else old(rows)
    {
      if works {
        rows := after;
      }
    }
  }
}
