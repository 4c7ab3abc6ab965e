/** The logged answer (`protocol::logged_answer`): recording the options a
    response picked by what they are, and finding them again on replay. */
module LoggedAnswers {
  import opened Wrappers
  import opened Prompts

  /** What tells a prompt's options apart across builds. */
  datatype OptionKey = OptionKey(
    labelText: string,
    target: Option<OptionTarget>,
    investigator: Option<InvestigatorId>)

  datatype LoggedOption = LoggedOption(id: OptionId, key: OptionKey)

  datatype LoggedResponse =
    | LoggedConfirm
    | LoggedSkip
    | LoggedPickSingle(option: LoggedOption)
    | LoggedPickMultiple(options: seq<LoggedOption>)

  datatype PromptIdentity = PromptIdentity(
    kind: InputKind,
    target: Option<OptionTarget>,
    responder: Responder)

  datatype LoggedAnswer = LoggedAnswer(
    investigator: InvestigatorId,
    response: LoggedResponse,
    prompt: PromptIdentity)

  /** Why an accepted response can't be logged. */
  datatype Unrecordable = NoPrompt | NotOffered(id: OptionId)

  /** Why a logged answer no longer replays. */
  datatype ReplayFailure =
    | PromptChanged(recorded: PromptIdentity, now: Option<PromptIdentity>)
    | OptionNotFound(option: LoggedOption, matches: nat)
    | EngineRejected(reason: string)
    | Draws(recordedDraws: nat, nowDraws: nat)

  function KeyOf(option: ChoiceOption): OptionKey {
    OptionKey(option.labelText, option.target, option.investigator)
  }

  function LoggedOf(option: ChoiceOption): LoggedOption {
    LoggedOption(option.id, KeyOf(option))
  }

  function IdentityOf(request: InputRequest): PromptIdentity {
    PromptIdentity(request.kind, request.target, request.responder)
  }

  // ----- recording -----

  /** The first of `options` offered under `id`. */
  function Offered(options: seq<ChoiceOption>, id: OptionId): Option<ChoiceOption> {
    if options == [] then None
    else if options[0].id == id then Some(options[0])
    else Offered(options[1..], id)
  }

  function OfferedAll(options: seq<ChoiceOption>, ids: seq<OptionId>): Result<seq<ChoiceOption>, Unrecordable> {
    if ids == [] then Success([])
    else match Offered(options, ids[0])
      case None => Failure(NotOffered(ids[0]))
      case Some(option) =>
        var rest :- OfferedAll(options, ids[1..]);
        Success([option] + rest)
  }

  function PickedIds(response: InputResponse): seq<OptionId> {
    match response
    case Confirm => []
    case Skip => []
    case PickSingle(id) => [id]
    case PickMultiple(selected) => selected
  }

  function AnsweredOptions(request: InputRequest, response: InputResponse): Result<seq<ChoiceOption>, Unrecordable> {
    OfferedAll(request.options, PickedIds(response))
  }

  function LoggedAll(options: seq<ChoiceOption>): seq<LoggedOption> {
    seq(|options|, i requires 0 <= i < |options| => LoggedOf(options[i]))
  }

  function Record(request: InputRequest, investigator: InvestigatorId, response: InputResponse)
    : Result<LoggedAnswer, Unrecordable>
  {
    var picked :- AnsweredOptions(request, response);
    var logged := match response
      case Confirm => Success(LoggedConfirm)
      case Skip => Success(LoggedSkip)
      case PickSingle(id) =>
        if picked == [] then Failure(NotOffered(id)) else Success(LoggedPickSingle(LoggedOf(picked[0])))
      case PickMultiple(_) => Success(LoggedPickMultiple(LoggedAll(picked)));
    var loggedResponse :- logged;
    Success(LoggedAnswer(investigator, loggedResponse, IdentityOf(request)))
  }

  // ----- replaying -----

  /** The options `logged` names by its key. */
  function Matching(options: seq<ChoiceOption>, key: OptionKey): seq<ChoiceOption> {
    if options == [] then []
    else (if KeyOf(options[0]) == key then [options[0]] else []) + Matching(options[1..], key)
  }

  function Find(options: seq<ChoiceOption>, logged: LoggedOption): Result<OptionId, ReplayFailure> {
    var matching := Matching(options, logged.key);
    if |matching| == 1 then Success(matching[0].id)
    else Failure(OptionNotFound(logged, |matching|))
  }

  function FindAll(options: seq<ChoiceOption>, logged: seq<LoggedOption>): Result<seq<OptionId>, ReplayFailure> {
    if logged == [] then Success([])
    else
      var id :- Find(options, logged[0]);
      var rest :- FindAll(options, logged[1..]);
      Success([id] + rest)
  }

  function Replay(request: InputRequest, answer: LoggedAnswer): Result<PlayerAction, ReplayFailure> {
    var now := IdentityOf(request);
    if now != answer.prompt then Failure(PromptChanged(answer.prompt, Some(now)))
    else
      var found := match answer.response
        case LoggedConfirm => Success(Confirm)
        case LoggedSkip => Success(Skip)
        case LoggedPickSingle(option) =>
          (var id :- Find(request.options, option); Success(PickSingle(id)))
        case LoggedPickMultiple(options) =>
          (var ids :- FindAll(request.options, options); Success(PickMultiple(ids)));
      var response :- found;
      Success(ResolveInput(answer.investigator, response))
  }

  // ----- what the two are for -----

  /** The options an answer's record names, in the order it names them. */
  function LoggedPicks(response: LoggedResponse): seq<LoggedOption> {
    match response
    case LoggedConfirm => []
    case LoggedSkip => []
    case LoggedPickSingle(option) => [option]
    case LoggedPickMultiple(options) => options
  }

  function KeysOf(options: seq<ChoiceOption>): seq<OptionKey> {
    seq(|options|, i requires 0 <= i < |options| => KeyOf(options[i]))
  }

  function IdsOf(options: seq<ChoiceOption>): seq<OptionId> {
    seq(|options|, i requires 0 <= i < |options| => options[i].id)
  }

  /** Exactly one of `options` has `key`. */
  predicate Names(options: seq<ChoiceOption>, key: OptionKey) {
    multiset(KeysOf(options))[key] == 1
  }

  /** Each logged pick's key names exactly one option of `request`. */
  predicate NamesAll(request: InputRequest, picks: seq<LoggedOption>) {
    forall i | 0 <= i < |picks| :: Names(request.options, picks[i].key)
  }

  predicate DistinctKeys(request: InputRequest) {
    forall i, j | 0 <= i < j < |request.options| :: KeyOf(request.options[i]) != KeyOf(request.options[j])
  }

  predicate DistinctIds(request: InputRequest) {
    forall i, j | 0 <= i < j < |request.options| :: request.options[i].id != request.options[j].id
  }

  /** `failure` says that the first of `picks` that no longer names exactly one
      option of `request` is ambiguous there, or gone. */
  ghost predicate FirstUnnamed(request: InputRequest, picks: seq<LoggedOption>, failure: ReplayFailure) {
    exists k | 0 <= k < |picks| ::
      && !Names(request.options, picks[k].key)
      && NamesAll(request, picks[..k])
      && failure == OptionNotFound(picks[k], multiset(KeysOf(request.options))[picks[k].key])
  }

  lemma {:induction false} MatchingCounts(options: seq<ChoiceOption>, key: OptionKey)
    ensures |Matching(options, key)| == multiset(KeysOf(options))[key]
    ensures forall m | m in Matching(options, key) :: m in options && KeyOf(m) == key
  {
    if options == [] {
      assert KeysOf(options) == [];
    } else {
      MatchingCounts(options[1..], key);
      hide KeyOf;
      assert KeysOf(options) == [KeyOf(options[0])] + KeysOf(options[1..]);
      assert multiset(KeysOf(options))[key]
        == (if KeyOf(options[0]) == key then 1 else 0) + multiset(KeysOf(options[1..]))[key];
    }
  }

  /** An option sitting among `options` is found by its key exactly when that
      key names one option. */
  lemma {:induction false} OwnKeyMatches(options: seq<ChoiceOption>, option: ChoiceOption)
    requires option in options
    ensures option in Matching(options, KeyOf(option))
  {
    if options[0] != option {
      OwnKeyMatches(options[1..], option);
    }
  }

  lemma {:induction false} OfferedIsOffered(options: seq<ChoiceOption>, id: OptionId)
    ensures Offered(options, id).Some? ==>
              Offered(options, id).value in options && Offered(options, id).value.id == id
  {
    if options != [] && options[0].id != id {
      OfferedIsOffered(options[1..], id);
    }
  }

  lemma {:induction false} OfferedAllAt(options: seq<ChoiceOption>, ids: seq<OptionId>)
    requires OfferedAll(options, ids).Success?
    ensures |OfferedAll(options, ids).value| == |ids|
    ensures forall i | 0 <= i < |ids| ::
              OfferedAll(options, ids).value[i] in options && OfferedAll(options, ids).value[i].id == ids[i]
  {
    if ids != [] {
      OfferedIsOffered(options, ids[0]);
      OfferedAllAt(options, ids[1..]);
    }
  }

  lemma FindOwn(options: seq<ChoiceOption>, option: ChoiceOption)
    requires option in options
    ensures Names(options, KeyOf(option)) ==> Find(options, LoggedOf(option)) == Success(option.id)
    ensures !Names(options, KeyOf(option)) ==>
              && multiset(KeysOf(options))[KeyOf(option)] >= 2
              && Find(options, LoggedOf(option))
                 == Failure(OptionNotFound(LoggedOf(option), multiset(KeysOf(options))[KeyOf(option)]))
  {
    var matching := Matching(options, KeyOf(option));
    MatchingCounts(options, KeyOf(option));
    OwnKeyMatches(options, option);
    if |matching| == 1 {
      assert matching == [option];
    }
  }

  /** `FindAll` over any picks: the ids of the options they name, or the first
      pick that names none or several. */
  lemma {:induction false} FindAllOwn(request: InputRequest, picked: seq<ChoiceOption>)
    requires forall option | option in picked :: option in request.options
    ensures NamesAll(request, LoggedAll(picked)) ==>
              FindAll(request.options, LoggedAll(picked))
              == Success(IdsOf(picked))
    ensures !NamesAll(request, LoggedAll(picked)) ==>
              && FindAll(request.options, LoggedAll(picked)).Failure?
              && FirstUnnamed(request, LoggedAll(picked), FindAll(request.options, LoggedAll(picked)).error)
  {
    var logged := LoggedAll(picked);
    if picked == [] {
      assert IdsOf(picked) == [];
    } else {
      assert IdsOf(picked) == [picked[0].id] + IdsOf(picked[1..]);
      FindOwn(request.options, picked[0]);
      FindAllOwn(request, picked[1..]);
      assert logged[1..] == LoggedAll(picked[1..]);
      if Names(request.options, logged[0].key) {
        if NamesAll(request, logged[1..]) {
          assert forall i | 1 <= i < |logged| :: logged[i] == logged[1..][i - 1];
        } else {
          ShiftFirstUnnamed(request, logged, FindAll(request.options, logged[1..]).error);
        }
      } else {
        assert logged[..0] == [];
      }
    }
  }

  lemma ShiftFirstUnnamed(request: InputRequest, picks: seq<LoggedOption>, failure: ReplayFailure)
    requires |picks| > 0 && Names(request.options, picks[0].key)
    requires FirstUnnamed(request, picks[1..], failure)
    ensures FirstUnnamed(request, picks, failure)
    ensures !NamesAll(request, picks)
  {
    var k :| 0 <= k < |picks[1..]|
      && !Names(request.options, picks[1..][k].key)
      && NamesAll(request, picks[1..][..k])
      && failure == OptionNotFound(picks[1..][k], multiset(KeysOf(request.options))[picks[1..][k].key]);
    assert picks[..k + 1] == [picks[0]] + picks[1..][..k];
    assert picks[k + 1] == picks[1..][k];
  }

  /** **Record/replay inversion.** Replaying a recorded answer against the
      prompt it was recorded for gives back the very action, selection order
      and multiplicity kept, exactly when each picked option's key is its
      prompt's only such key. Otherwise it fails at the first pick whose key
      several options share: it never answers with a different option. */
  lemma RecordThenReplay(request: InputRequest, investigator: InvestigatorId, response: InputResponse)
    requires Record(request, investigator, response).Success?
    ensures var answer := Record(request, investigator, response).value;
            var picks := LoggedPicks(answer.response);
            && (Replay(request, answer) == Success(ResolveInput(investigator, response))
                <==> NamesAll(request, picks))
            && (!NamesAll(request, picks) ==>
                  Replay(request, answer).Failure? && FirstUnnamed(request, picks, Replay(request, answer).error))
  {
    var picked := AnsweredOptions(request, response).value;
    OfferedAllAt(request.options, PickedIds(response));
    match response {
      case Confirm =>
      case Skip =>
      case PickSingle(id) =>
        RecordSingle(request, investigator, id, picked);
      case PickMultiple(selected) =>
        FindAllOwn(request, picked);
        assert IdsOf(picked) == selected;
        hide FindAll, OfferedAll, NamesAll, FirstUnnamed;
    }
  }

  lemma RecordSingle(request: InputRequest, investigator: InvestigatorId, id: OptionId, picked: seq<ChoiceOption>)
    requires |picked| == 1 && picked[0] in request.options && picked[0].id == id
    requires Record(request, investigator, PickSingle(id))
             == Success(LoggedAnswer(investigator, LoggedPickSingle(LoggedOf(picked[0])), IdentityOf(request)))
    ensures var answer := Record(request, investigator, PickSingle(id)).value;
            var picks := LoggedPicks(answer.response);
            && (Replay(request, answer) == Success(ResolveInput(investigator, PickSingle(id)))
                <==> NamesAll(request, picks))
            && (!NamesAll(request, picks) ==>
                  Replay(request, answer).Failure? && FirstUnnamed(request, picks, Replay(request, answer).error))
  {
    FindOwn(request.options, picked[0]);
    var picks := [LoggedOf(picked[0])];
    assert picks[..0] == [];
    assert NamesAll(request, picks) <==> Names(request.options, picks[0].key);
    hide Find, Record;
  }

  lemma DistinctKeysName(request: InputRequest, option: ChoiceOption)
    requires DistinctKeys(request) && option in request.options
    ensures Names(request.options, KeyOf(option))
  {
    var keys := KeysOf(request.options);
    var i :| 0 <= i < |request.options| && request.options[i] == option;
    assert keys == keys[..i] + [keys[i]] + keys[i + 1..];
    assert keys[i] !in keys[..i] && keys[i] !in keys[i + 1..];
  }

  /** With distinct option keys the inversion is total. */
  lemma DistinctKeysReplay(request: InputRequest, investigator: InvestigatorId, response: InputResponse)
    requires DistinctKeys(request)
    requires Record(request, investigator, response).Success?
    ensures Replay(request, Record(request, investigator, response).value)
            == Success(ResolveInput(investigator, response))
    ensures NamesAll(request, LoggedPicks(Record(request, investigator, response).value.response))
  {
    var picked := AnsweredOptions(request, response).value;
    OfferedAllAt(request.options, PickedIds(response));
    forall i | 0 <= i < |picked| ensures Names(request.options, KeyOf(picked[i])) {
      DistinctKeysName(request, picked[i]);
    }
    RecordThenReplay(request, investigator, response);
  }

  // ----- replaying against another prompt -----

  lemma {:induction false} OfferedUnderOwnId(options: seq<ChoiceOption>, k: nat)
    requires k < |options|
    requires forall i, j | 0 <= i < j < |options| :: options[i].id != options[j].id
    ensures Offered(options, options[k].id) == Some(options[k])
  {
    if k > 0 {
      assert options[0].id != options[k].id;
      OfferedUnderOwnId(options[1..], k - 1);
    }
  }

  lemma FindThenOffered(request: InputRequest, logged: LoggedOption)
    requires DistinctIds(request)
    ensures Find(request.options, logged).Success? <==> Names(request.options, logged.key)
    ensures Find(request.options, logged).Success? ==>
              var option := Offered(request.options, Find(request.options, logged).value);
              option.Some? && KeyOf(option.value) == logged.key
  {
    MatchingCounts(request.options, logged.key);
    if Find(request.options, logged).Success? {
      var option := Matching(request.options, logged.key)[0];
      assert option in Matching(request.options, logged.key);
      var k :| 0 <= k < |request.options| && request.options[k] == option;
      OfferedUnderOwnId(request.options, k);
    }
  }

  lemma {:induction false} FindAllThenOffered(request: InputRequest, logged: seq<LoggedOption>)
    requires DistinctIds(request)
    ensures FindAll(request.options, logged).Success? <==> NamesAll(request, logged)
    ensures FindAll(request.options, logged).Success? ==>
              var options := OfferedAll(request.options, FindAll(request.options, logged).value);
              && options.Success?
              && |options.value| == |logged|
              && forall i | 0 <= i < |logged| :: KeyOf(options.value[i]) == logged[i].key
  {
    if logged != [] {
      FindThenOffered(request, logged[0]);
      FindAllThenOffered(request, logged[1..]);
      if NamesAll(request, logged) {
        assert forall i | 0 <= i < |logged[1..]| :: logged[1..][i] == logged[i + 1];
      } else if Names(request.options, logged[0].key) {
        var i :| 0 <= i < |logged| && !Names(request.options, logged[i].key);
        assert logged[1..][i - 1] == logged[i];
      }
    }
  }

  function PickKeys(picks: seq<LoggedOption>): seq<OptionKey> {
    seq(|picks|, i requires 0 <= i < |picks| => picks[i].key)
  }

  /** The record of an answer with the positions its options sat at left out:
      what survives a prompt whose options are reordered and renumbered. */
  function Keyed(answer: LoggedAnswer): (InvestigatorId, nat, seq<OptionKey>, PromptIdentity) {
    var picks := LoggedPicks(answer.response);
    var shape := match answer.response
      case LoggedConfirm => 0
      case LoggedSkip => 1
      case LoggedPickSingle(_) => 2
      case LoggedPickMultiple(_) => 3;
    (answer.investigator, shape, PickKeys(picks), answer.prompt)
  }

  /** **Replay against any prompt of the same identity** whose ids are
      distinct, as the engine numbers them: it succeeds exactly when each
      logged key names one of its options, and then it picks those options:
      recording the action it gives yields the same keyed answer. */
  lemma ReplayThenRecord(request: InputRequest, answer: LoggedAnswer)
    requires DistinctIds(request)
    requires answer.prompt == IdentityOf(request)
    ensures Replay(request, answer).Success? <==> NamesAll(request, LoggedPicks(answer.response))
    ensures Replay(request, answer).Success? ==>
              var action := Replay(request, answer).value;
              var again := Record(request, action.investigator, action.response);
              again.Success? && Keyed(again.value) == Keyed(answer)
  {
    match answer.response {
      case LoggedConfirm =>
      case LoggedSkip =>
      case LoggedPickSingle(_) => ReplaySingleThenRecord(request, answer);
      case LoggedPickMultiple(_) => ReplayMultipleThenRecord(request, answer);
    }
  }

  lemma ReplaySingleThenRecord(request: InputRequest, answer: LoggedAnswer)
    requires DistinctIds(request)
    requires answer.prompt == IdentityOf(request) && answer.response.LoggedPickSingle?
    ensures Replay(request, answer).Success? <==> NamesAll(request, [answer.response.option])
    ensures Replay(request, answer).Success? ==>
              var action := Replay(request, answer).value;
              var again := Record(request, action.investigator, action.response);
              again.Success? && Keyed(again.value) == Keyed(answer)
  {
    var option := answer.response.option;
    FindThenOffered(request, option);
    assert [option][0] == option;
    if Replay(request, answer).Success? {
      var id := Find(request.options, option).value;
      var found := Offered(request.options, id).value;
      assert OfferedAll(request.options, [id][1..]) == Success([]);
      assert OfferedAll(request.options, [id]) == Success([found] + []);
      assert PickKeys([LoggedOf(found)]) == [option.key] == PickKeys([option]);
    }
  }

  lemma ReplayMultipleThenRecord(request: InputRequest, answer: LoggedAnswer)
    requires DistinctIds(request)
    requires answer.prompt == IdentityOf(request) && answer.response.LoggedPickMultiple?
    ensures Replay(request, answer).Success? <==> NamesAll(request, answer.response.options)
    ensures Replay(request, answer).Success? ==>
              var action := Replay(request, answer).value;
              var again := Record(request, action.investigator, action.response);
              again.Success? && Keyed(again.value) == Keyed(answer)
  {
    var options := answer.response.options;
    FindAllThenOffered(request, options);
    if Replay(request, answer).Success? {
      var picked := OfferedAll(request.options, FindAll(request.options, options).value).value;
      assert PickKeys(LoggedAll(picked)) == PickKeys(options);
    }
  }

  /** A prompt of the same identity, its options reordered, renumbered, added or
      gone, replays an answer another one recorded exactly when each key picked
      still names one option; and then it picks the same keyed options. With the
      options the same but for order and numbers, that is when the prompt it was
      recorded for replays it. */
  lemma RenumberedPromptReplays(
    request: InputRequest, later: InputRequest, investigator: InvestigatorId, response: InputResponse)
    requires DistinctIds(later) && IdentityOf(later) == IdentityOf(request)
    requires Record(request, investigator, response).Success?
    ensures var answer := Record(request, investigator, response).value;
            && (Replay(later, answer).Success? <==> NamesAll(later, LoggedPicks(answer.response)))
            && (Replay(later, answer).Success? ==>
                  var again := Record(later, investigator, Replay(later, answer).value.response);
                  again.Success? && Keyed(again.value) == Keyed(answer))
    ensures multiset(KeysOf(later.options)) == multiset(KeysOf(request.options)) ==>
              var answer := Record(request, investigator, response).value;
              Replay(later, answer).Success? <==> Replay(request, answer).Success?
  {
    var answer := Record(request, investigator, response).value;
    ReplayThenRecord(later, answer);
    RecordThenReplay(request, investigator, response);
    hide Record, Keyed, FirstUnnamed, DistinctIds;
  }

  // ----- exactly what recording and replaying answer -----

  /** `identity` is what identifies `request` across builds. */
  predicate SamePrompt(request: InputRequest, identity: PromptIdentity) {
    && request.kind == identity.kind
    && request.target == identity.target
    && request.responder == identity.responder
  }

  /** `option` is what `key` says of it. */
  predicate Bears(option: ChoiceOption, key: OptionKey) {
    && option.labelText == key.labelText
    && option.target == key.target
    && option.investigator == key.investigator
  }

  /** A response of the form of the logged one. */
  predicate SameForm(response: InputResponse, logged: LoggedResponse) {
    match logged
    case LoggedConfirm => response.Confirm?
    case LoggedSkip => response.Skip?
    case LoggedPickSingle(_) => response.PickSingle?
    case LoggedPickMultiple(_) => response.PickMultiple?
  }

  predicate Offers(options: seq<ChoiceOption>, id: OptionId) {
    exists k | 0 <= k < |options| :: options[k].id == id
  }

  /** `logged` is the first option offered under `id`. */
  predicate Logs(options: seq<ChoiceOption>, id: OptionId, logged: LoggedOption) {
    exists k | 0 <= k < |options| ::
      && options[k].id == id && logged.id == id && Bears(options[k], logged.key)
      && forall j | 0 <= j < k :: options[j].id != id
  }

  lemma {:induction false} OfferedExactly(options: seq<ChoiceOption>, id: OptionId)
    ensures Offered(options, id).Some? <==> Offers(options, id)
    ensures Offered(options, id).Some? ==> Logs(options, id, LoggedOf(Offered(options, id).value))
  {
    if options != [] && options[0].id != id {
      var rest := options[1..];
      OfferedExactly(rest, id);
      assert forall k | 0 < k < |options| :: options[k] == rest[k - 1];
      assert forall k | 0 <= k < |rest| :: options[k + 1] == rest[k];
    }
  }

  lemma {:induction false} OfferedAllExactly(options: seq<ChoiceOption>, ids: seq<OptionId>)
    ensures match OfferedAll(options, ids)
            case Success(picked) =>
              && |picked| == |ids|
              && forall i | 0 <= i < |ids| :: Offers(options, ids[i]) && Logs(options, ids[i], LoggedOf(picked[i]))
            case Failure(why) => FirstNotOffered(options, ids, why)
  {
    if ids != [] {
      hide Logs, Offers, LoggedOf;
      OfferedExactly(options, ids[0]);
      OfferedAllExactly(options, ids[1..]);
      if Offers(options, ids[0]) {
        assert forall i | 0 < i < |ids| :: ids[i] == ids[1..][i - 1];
        if OfferedAll(options, ids).Failure? {
          NotOfferedLater(options, ids, OfferedAll(options, ids).error);
        }
      } else {
        assert ids[0] == ids[0];
      }
    }
  }

  /** `why` names the first of `ids` that no option is offered under. */
  ghost predicate FirstNotOffered(options: seq<ChoiceOption>, ids: seq<OptionId>, why: Unrecordable) {
    exists k | 0 <= k < |ids| ::
      && !Offers(options, ids[k]) && why == NotOffered(ids[k])
      && forall i | 0 <= i < k :: Offers(options, ids[i])
  }

  lemma NotOfferedLater(options: seq<ChoiceOption>, ids: seq<OptionId>, why: Unrecordable)
    requires ids != [] && Offers(options, ids[0])
    requires FirstNotOffered(options, ids[1..], why)
    ensures FirstNotOffered(options, ids, why)
  {
    hide Offers;
    var k :| 0 <= k < |ids[1..]|
      && !Offers(options, ids[1..][k]) && why == NotOffered(ids[1..][k])
      && forall i | 0 <= i < k :: Offers(options, ids[1..][i]);
    assert ids[k + 1] == ids[1..][k];
    assert forall i | 0 < i < k + 1 :: ids[i] == ids[1..][i - 1];
  }

  /** `answer` is the log's of `response`: of its form, by the same
      investigator, to this prompt, and for each id picked the first option
      offered under it. */
  ghost predicate Recorded(
    request: InputRequest, investigator: InvestigatorId, response: InputResponse, answer: LoggedAnswer)
  {
    var ids, logged := PickedIds(response), LoggedPicks(answer.response);
    && answer.investigator == investigator
    && SamePrompt(request, answer.prompt)
    && SameForm(response, answer.response)
    && |logged| == |ids|
    && forall i | 0 <= i < |ids| :: Logs(request.options, ids[i], logged[i])
  }

  /** Some option is offered under each id the response picks. */
  predicate AllOffered(request: InputRequest, response: InputResponse) {
    forall i | 0 <= i < |PickedIds(response)| :: Offers(request.options, PickedIds(response)[i])
  }

  /** **What is recorded.** A response is recorded exactly when an option is
      offered under each id it picks. Otherwise it is refused for the first id
      that is not offered. */
  lemma RecordExactly(request: InputRequest, investigator: InvestigatorId, response: InputResponse)
    ensures match Record(request, investigator, response)
            case Success(answer) => AllOffered(request, response) && Recorded(request, investigator, response, answer)
            case Failure(why) => FirstNotOffered(request.options, PickedIds(response), why)
  {
    OfferedAllExactly(request.options, PickedIds(response));
    hide Logs, Offers, OfferedAll, LoggedOf;
  }

  /** `id` is one of the options' with `key`. */
  predicate Carries(options: seq<ChoiceOption>, key: OptionKey, id: OptionId) {
    exists k | 0 <= k < |options| :: Bears(options[k], key) && options[k].id == id
  }

  /** `action` is the logged answer's, its picks the options the keys name. */
  ghost predicate Answers(request: InputRequest, answer: LoggedAnswer, action: PlayerAction) {
    var ids, logged := PickedIds(action.response), LoggedPicks(answer.response);
    && action.investigator == answer.investigator
    && SameForm(action.response, answer.response)
    && |ids| == |logged|
    && forall i | 0 <= i < |logged| :: Carries(request.options, logged[i].key, ids[i])
  }

  lemma CountsTwice(keys: seq<OptionKey>, key: OptionKey, i: nat, j: nat)
    requires i < j < |keys| && keys[i] == keys[j] == key
    ensures multiset(keys)[key] >= 2
  {
    var first, rest := keys[..j], keys[j..];
    assert keys == first + rest;
    assert first[i] == key && rest[0] == key;
    assert key in multiset(first) && key in multiset(rest);
    assert multiset(keys) == multiset(first) + multiset(rest);
  }

  lemma CarriesOnce(options: seq<ChoiceOption>, key: OptionKey, a: OptionId, b: OptionId)
    requires Names(options, key) && Carries(options, key, a) && Carries(options, key, b)
    ensures a == b
  {
    var i :| 0 <= i < |options| && Bears(options[i], key) && options[i].id == a;
    var j :| 0 <= j < |options| && Bears(options[j], key) && options[j].id == b;
    var keys := KeysOf(options);
    assert keys[i] == key && keys[j] == key;
    if i < j { CountsTwice(keys, key, i, j); }
    if j < i { CountsTwice(keys, key, j, i); }
  }

  /** With each key naming one option, one action alone answers. */
  lemma AnswersOnce(request: InputRequest, answer: LoggedAnswer, a: PlayerAction, b: PlayerAction)
    requires NamesAll(request, LoggedPicks(answer.response))
    requires Answers(request, answer, a) && Answers(request, answer, b)
    ensures a == b
  {
    var logged := LoggedPicks(answer.response);
    var ids, others := PickedIds(a.response), PickedIds(b.response);
    forall i | 0 <= i < |logged| ensures ids[i] == others[i] {
      CarriesOnce(request.options, logged[i].key, ids[i], others[i]);
    }
    hide Carries, NamesAll;
    assert ids == others;
  }

  lemma FindExactly(options: seq<ChoiceOption>, logged: LoggedOption)
    ensures Names(options, logged.key) ==>
              Find(options, logged).Success? && Carries(options, logged.key, Find(options, logged).value)
    ensures !Names(options, logged.key) ==>
              Find(options, logged) == Failure(OptionNotFound(logged, multiset(KeysOf(options))[logged.key]))
  {
    var matching := Matching(options, logged.key);
    MatchingCounts(options, logged.key);
    if |matching| == 1 {
      assert matching[0] in matching;
      var k :| 0 <= k < |options| && options[k] == matching[0];
    }
  }

  lemma {:induction false} FindAllExactly(request: InputRequest, logged: seq<LoggedOption>)
    ensures match FindAll(request.options, logged)
            case Success(ids) =>
              && NamesAll(request, logged) && |ids| == |logged|
              && forall i | 0 <= i < |logged| :: Carries(request.options, logged[i].key, ids[i])
            case Failure(why) => !NamesAll(request, logged) && FirstUnnamed(request, logged, why)
  {
    if logged != [] {
      hide Carries, Names;
      FindExactly(request.options, logged[0]);
      FindAllExactly(request, logged[1..]);
      assert forall i | 0 < i < |logged| :: logged[i] == logged[1..][i - 1];
      if Names(request.options, logged[0].key) {
        if FindAll(request.options, logged).Failure? {
          ShiftFirstUnnamed(request, logged, FindAll(request.options, logged).error);
        }
      } else {
        assert logged[..0] == [];
      }
    }
  }

  /** **What a replay answers**, over any prompt and any logged answer. A prompt
      of another kind, target or responder has changed; else the answer is the
      logged one, by the same investigator, picking the option each key names;
      or the first key that names none or several is reported. */
  lemma ReplayExactly(request: InputRequest, answer: LoggedAnswer)
    ensures var replayed, logged := Replay(request, answer), LoggedPicks(answer.response);
            if !SamePrompt(request, answer.prompt) then
              replayed == Failure(PromptChanged(answer.prompt,
                Some(PromptIdentity(request.kind, request.target, request.responder))))
            else if NamesAll(request, logged) then
              replayed.Success? && Answers(request, answer, replayed.value)
            else replayed.Failure? && FirstUnnamed(request, logged, replayed.error)
  {
    FindAllExactly(request, LoggedPicks(answer.response));
    if answer.response.LoggedPickSingle? {
      var option := answer.response.option;
      FindExactly(request.options, option);
      assert [option][0] == option && [option][..0] == [];
      hide Carries, Names, Find;
    } else {
      hide Carries, NamesAll, FindAll, FirstUnnamed;
    }
  }

  // ----- two options alike -----

  /** Two copies of one card to choose from: told apart by their ids alone. */
  function TwoAlike(labelText: string): InputRequest {
    InputRequest(
      "", [ChoiceOption(0, labelText, None, None), ChoiceOption(1, labelText, None, None)],
      PickSingleKind, false, None, Lead(1))
  }

  /** An answer that picks either is accepted and recorded, and never replays. */
  lemma AlikeOptionsStrand(labelText: string, investigator: InvestigatorId, id: OptionId)
    requires id <= 1
    ensures Record(TwoAlike(labelText), investigator, PickSingle(id)).Success?
    ensures var answer := Record(TwoAlike(labelText), investigator, PickSingle(id)).value;
      Replay(TwoAlike(labelText), answer) == Failure(OptionNotFound(answer.response.option, 2))
  {
    var request := TwoAlike(labelText);
    var options := request.options;
    var key := KeyOf(options[0]);
    assert options[1..] == [options[1]];
    assert [id][1..] == [];
    assert Offered(options, id) == Some(options[id]);
    assert OfferedAll(options, [id]) == Success([options[id]] + []);
    assert Matching(options[1..], key) == [options[1]];
    assert Matching(options, key) == [options[0], options[1]];
  }
}
