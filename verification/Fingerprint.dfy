/** The setup fingerprint (`server::fingerprint`): what setup decided, by name,
    and where two of them first differ. */
module Fingerprint {
  import opened Wrappers
  import opened Prompts
  import opened Engine

  datatype InvestigatorZones = InvestigatorZones(investigator: InvestigatorId, hand: seq<string>, deck: seq<string>)

  datatype SetupFingerprint = SetupFingerprint(
    investigators: seq<InvestigatorZones>,
    encounterDeck: seq<string>,
    chaosBag: seq<string>)

  datatype Zone =
    | Investigators
    | Hand(id: InvestigatorId)
    | Deck(id: InvestigatorId)
    | EncounterDeck
    | ChaosBag

  datatype FingerprintMismatch = FingerprintMismatch(zone: Zone, position: nat)

  // ----- naming what setup decided -----

  function Digits(n: nat): string {
    if n < 10 then [Digit(n)] else Digits(n / 10) + [Digit(n % 10)]
  }

  function Digit(n: nat): char
    requires n < 10
  {
    "0123456789"[n]
  }

  function TokenName(token: ChaosToken): string {
    match token
    case Numeric(n) =>
      if n == 0 then "0" else if n > 0 then "+" + Digits(n as int) else "-" + Digits(-(n as int))
    case Skull => "Skull"
    case Cultist => "Cultist"
    case Tablet => "Tablet"
    case ElderThing => "ElderThing"
    case AutoFail => "AutoFail"
    case ElderSign => "ElderSign"
  }

  function ZonesOf(card: InvestigatorCard): InvestigatorZones {
    InvestigatorZones(card.id, card.hand, card.deck)
  }

  function Of(state: GameState): SetupFingerprint {
    SetupFingerprint(
      seq(|state.investigators|, i requires 0 <= i < |state.investigators| => ZonesOf(state.investigators[i])),
      state.encounterDeck,
      seq(|state.chaosBag|, i requires 0 <= i < |state.chaosBag| => TokenName(state.chaosBag[i])))
  }

  lemma {:induction false} DigitsInjective(m: nat, n: nat)
    requires Digits(m) == Digits(n)
    ensures m == n
    decreases m
  {
    DigitInjective();
    var d, e := Digits(m), Digits(n);
    if m < 10 || n < 10 {
      DigitsNonempty(m / 10);
      DigitsNonempty(n / 10);
    } else {
      assert d[..|d| - 1] == Digits(m / 10) && e[..|e| - 1] == Digits(n / 10);
      assert d[|d| - 1] == Digit(m % 10) && e[|e| - 1] == Digit(n % 10);
      DigitsInjective(m / 10, n / 10);
    }
  }

  lemma {:induction false} DigitsNonempty(n: nat)
    ensures |Digits(n)| >= 1
  {
  }

  lemma DigitInjective()
    ensures forall m: nat, n: nat | m < 10 && n < 10 && Digit(m) == Digit(n) :: m == n
  {
  }

  lemma NumericNameInjective(m: int8, n: int8)
    requires TokenName(Numeric(m)) == TokenName(Numeric(n))
    ensures m == n
  {
    if m != 0 && n != 0 {
      var d, e := TokenName(Numeric(m)), TokenName(Numeric(n));
      assert d[0] == (if m > 0 then '+' else '-') && e[0] == (if n > 0 then '+' else '-');
      assert d[1..] == Digits(if m > 0 then m as int else -(m as int));
      assert e[1..] == Digits(if n > 0 then n as int else -(n as int));
      DigitsInjective(if m > 0 then m as int else -(m as int), if n > 0 then n as int else -(n as int));
    }
  }

  /** A first letter, or the sixth for the two names that share theirs, tells
      the symbol tokens apart, and no numeric token's name starts with one. */
  lemma TokenNameInjective(s: ChaosToken, t: ChaosToken)
    requires TokenName(s) == TokenName(t)
    ensures s == t
  {
    if s.Numeric? && t.Numeric? {
      NumericNameInjective(s.modifier, t.modifier);
    } else {
      NameInitial(s);
      NameInitial(t);
    }
  }

  function Initial(token: ChaosToken): char {
    match token
    case Numeric(n) => if n == 0 then '0' else if n > 0 then '+' else '-'
    case Skull => 'S'
    case Cultist => 'C'
    case Tablet => 'T'
    case ElderThing => 'E'
    case AutoFail => 'A'
    case ElderSign => 'E'
  }

  lemma NameInitial(token: ChaosToken)
    ensures |TokenName(token)| > 0 && TokenName(token)[0] == Initial(token)
    ensures token == ElderThing ==> |TokenName(token)| == 10
    ensures token == ElderSign ==> |TokenName(token)| == 9
  {
  }

  /** The fingerprint forgets nothing of the zones it records: two states have
      the same one exactly when setup decided the same hands, decks and bag. */
  lemma FingerprintIsFaithful(a: GameState, b: GameState)
    ensures Of(a) == Of(b) <==>
              a.investigators == b.investigators && a.encounterDeck == b.encounterDeck && a.chaosBag == b.chaosBag
  {
    if Of(a) == Of(b) {
      assert |Of(a).investigators| == |Of(b).investigators| && |Of(a).chaosBag| == |Of(b).chaosBag|;
      forall i | 0 <= i < |a.investigators| ensures a.investigators[i] == b.investigators[i] {
        assert Of(a).investigators[i] == Of(b).investigators[i];
      }
      forall i | 0 <= i < |a.chaosBag| ensures a.chaosBag[i] == b.chaosBag[i] {
        assert Of(a).chaosBag[i] == Of(b).chaosBag[i];
        TokenNameInjective(a.chaosBag[i], b.chaosBag[i]);
      }
    }
  }

  // ----- comparing -----

  /** `p` is where `stored` and `current` stop agreeing: the length of their
      longest common prefix, and not the end of both. */
  predicate DiffersAt<T(==)>(stored: seq<T>, current: seq<T>, p: nat) {
    && p <= |stored| && p <= |current|
    && stored[..p] == current[..p]
    && (p < |stored| && p < |current| ==> stored[p] != current[p])
    && (p < |stored| || p < |current|)
  }

  function FirstDiffering<T(==)>(stored: seq<T>, current: seq<T>): (position: Option<nat>)
    ensures position.None? <==> stored == current
    ensures position.Some? ==> DiffersAt(stored, current, position.value)
  {
    if stored == [] && current == [] then None
    else if stored != [] && current != [] && stored[0] == current[0] then
      match FirstDiffering(stored[1..], current[1..])
      case None =>
        assert stored == [stored[0]] + stored[1..] && current == [current[0]] + current[1..];
        None
      case Some(p) =>
        assert stored[..p + 1] == [stored[0]] + stored[1..][..p];
        assert current[..p + 1] == [current[0]] + current[1..][..p];
        Some(p + 1)
    else Some(0)
  }

  lemma DiffersOnce<T>(stored: seq<T>, current: seq<T>, p: nat, q: nat)
    requires DiffersAt(stored, current, p) && DiffersAt(stored, current, q)
    ensures p == q
  {
    PrefixAgrees(stored, current, p);
    PrefixAgrees(stored, current, q);
  }

  lemma PrefixAgrees<T>(stored: seq<T>, current: seq<T>, p: nat)
    requires p <= |stored| && p <= |current| && stored[..p] == current[..p]
    ensures forall k | 0 <= k < p :: stored[k] == current[k]
  {
    assert forall k | 0 <= k < p :: stored[k] == stored[..p][k] && current[k] == current[..p][k];
  }

  /** The loop over the two sequences, one position at a time. */
  method ComputeFirstDiffering<T(==)>(stored: seq<T>, current: seq<T>) returns (found: Option<nat>)
    ensures found == FirstDiffering(stored, current)
  {
    var position := 0;
    while true
      invariant position <= |stored| && position <= |current|
      invariant stored[..position] == current[..position]
      decreases |stored| - position
    {
      if position == |stored| && position == |current| {
        assert stored == stored[..position] && current == current[..position];
        return None;
      } else if position < |stored| && position < |current| && stored[position] == current[position] {
        assert stored[..position + 1] == stored[..position] + [stored[position]];
        assert current[..position + 1] == current[..position] + [current[position]];
        position := position + 1;
      } else {
        assert DiffersAt(stored, current, position);
        if FirstDiffering(stored, current).Some? {
          DiffersOnce(stored, current, position, FirstDiffering(stored, current).value);
        }
        return Some(position);
      }
    }
  }

  /** A zone of both fingerprints, side by side. */
  datatype ZonePair = ZonePair(zone: Zone, stored: seq<string>, current: seq<string>)

  function Ids(investigators: seq<InvestigatorZones>): seq<InvestigatorId> {
    seq(|investigators|, i requires 0 <= i < |investigators| => investigators[i].investigator)
  }

  function InvestigatorPairs(stored: seq<InvestigatorZones>, current: seq<InvestigatorZones>): (pairs: seq<ZonePair>)
    requires |stored| == |current|
  {
    if stored == [] then []
    else
      [ZonePair(Hand(stored[0].investigator), stored[0].hand, current[0].hand),
       ZonePair(Deck(stored[0].investigator), stored[0].deck, current[0].deck)]
      + InvestigatorPairs(stored[1..], current[1..])
  }

  /** The zones compared once the same investigators are seated, in order. */
  function Pairs(stored: SetupFingerprint, current: SetupFingerprint): seq<ZonePair>
    requires |stored.investigators| == |current.investigators|
  {
    InvestigatorPairs(stored.investigators, current.investigators)
    + [ZonePair(EncounterDeck, stored.encounterDeck, current.encounterDeck),
       ZonePair(ChaosBag, stored.chaosBag, current.chaosBag)]
  }

  function FirstOfPairs(pairs: seq<ZonePair>): Option<FingerprintMismatch> {
    if pairs == [] then None
    else match FirstDiffering(pairs[0].stored, pairs[0].current)
      case Some(p) => Some(FingerprintMismatch(pairs[0].zone, p))
      case None => FirstOfPairs(pairs[1..])
  }

  function FirstDifference(stored: SetupFingerprint, current: SetupFingerprint): Option<FingerprintMismatch> {
    match FirstDiffering(Ids(stored.investigators), Ids(current.investigators))
    case Some(p) => Some(FingerprintMismatch(Investigators, p))
    case None =>
      assert |Ids(stored.investigators)| == |Ids(current.investigators)|;
      FirstOfPairs(Pairs(stored, current))
  }

  predicate Agree(pairs: seq<ZonePair>) {
    forall k | 0 <= k < |pairs| :: pairs[k].stored == pairs[k].current
  }

  lemma AgreeSplits(first: seq<ZonePair>, rest: seq<ZonePair>)
    ensures Agree(first + rest) <==> Agree(first) && Agree(rest)
  {
    assert forall k | 0 <= k < |first| :: (first + rest)[k] == first[k];
    assert forall k | 0 <= k < |rest| :: (first + rest)[|first| + k] == rest[k];
  }

  lemma {:induction false} FirstOfPairsExact(pairs: seq<ZonePair>)
    ensures FirstOfPairs(pairs).None? <==> Agree(pairs)
    ensures FirstOfPairs(pairs).Some? ==>
              exists k | 0 <= k < |pairs| ::
                && FirstOfPairs(pairs).value.zone == pairs[k].zone
                && DiffersAt(pairs[k].stored, pairs[k].current, FirstOfPairs(pairs).value.position)
                && Agree(pairs[..k])
  {
    if pairs != [] {
      var first, rest := pairs[0], pairs[1..];
      assert pairs == [first] + rest;
      AgreeSplits([first], rest);
      match FirstDiffering(first.stored, first.current)
      case Some(p) =>
        assert pairs[..0] == [];
      case None =>
        FirstOfPairsExact(rest);
        if FirstOfPairs(rest).Some? {
          var k :| 0 <= k < |rest|
            && FirstOfPairs(rest).value.zone == rest[k].zone
            && DiffersAt(rest[k].stored, rest[k].current, FirstOfPairs(rest).value.position)
            && Agree(rest[..k]);
          assert pairs[k + 1] == rest[k];
          assert pairs[..k + 1] == [first] + rest[..k];
          AgreeSplits([first], rest[..k]);
        }
    }
  }

  lemma {:induction false} InvestigatorPairsEqual(stored: seq<InvestigatorZones>, current: seq<InvestigatorZones>)
    requires |stored| == |current| && Ids(stored) == Ids(current)
    ensures Agree(InvestigatorPairs(stored, current)) <==> stored == current
  {
    if stored != [] {
      var s, c := stored[1..], current[1..];
      assert Ids(s) == Ids(stored)[1..] && Ids(c) == Ids(current)[1..];
      InvestigatorPairsEqual(s, c);
      var own := [ZonePair(Hand(stored[0].investigator), stored[0].hand, current[0].hand),
                  ZonePair(Deck(stored[0].investigator), stored[0].deck, current[0].deck)];
      AgreeSplits(own, InvestigatorPairs(s, c));
      assert Agree(own) <==> own[0].stored == own[0].current && own[1].stored == own[1].current;
      assert Ids(stored)[0] == Ids(current)[0];
      assert stored == [stored[0]] + s && current == [current[0]] + c;
    }
  }

  /** **Comparison is exact**: no difference exactly when the fingerprints are
      equal. */
  lemma NoDifferenceIsEqual(stored: SetupFingerprint, current: SetupFingerprint)
    ensures FirstDifference(stored, current).None? <==> stored == current
  {
    if Ids(stored.investigators) == Ids(current.investigators) {
      assert |Ids(stored.investigators)| == |Ids(current.investigators)|;
      var shared := [ZonePair(EncounterDeck, stored.encounterDeck, current.encounterDeck),
                     ZonePair(ChaosBag, stored.chaosBag, current.chaosBag)];
      FirstOfPairsExact(Pairs(stored, current));
      InvestigatorPairsEqual(stored.investigators, current.investigators);
      AgreeSplits(InvestigatorPairs(stored.investigators, current.investigators), shared);
      assert Agree(shared) <==> shared[0].stored == shared[0].current && shared[1].stored == shared[1].current;
    }
  }

  lemma NextInvestigator(s: seq<InvestigatorZones>, c: seq<InvestigatorZones>, shared: seq<ZonePair>)
    requires |s| == |c| > 0
    ensures FirstOfPairs(InvestigatorPairs(s, c) + shared)
            == match FirstDiffering(s[0].hand, c[0].hand)
               case Some(p) => Some(FingerprintMismatch(Hand(s[0].investigator), p))
               case None =>
                 match FirstDiffering(s[0].deck, c[0].deck)
                 case Some(p) => Some(FingerprintMismatch(Deck(s[0].investigator), p))
                 case None => FirstOfPairs(InvestigatorPairs(s[1..], c[1..]) + shared)
  {
    var pairs := InvestigatorPairs(s, c) + shared;
    assert pairs[1..] == [pairs[1]] + (InvestigatorPairs(s[1..], c[1..]) + shared);
    assert pairs[1..][1..] == InvestigatorPairs(s[1..], c[1..]) + shared;
  }

  lemma LastZones(first: ZonePair, second: ZonePair)
    ensures FirstOfPairs([first, second])
            == match FirstDiffering(first.stored, first.current)
               case Some(p) => Some(FingerprintMismatch(first.zone, p))
               case None =>
                 match FirstDiffering(second.stored, second.current)
                 case Some(p) => Some(FingerprintMismatch(second.zone, p))
                 case None => None
  {
    var both, last := [first, second], [second];
    assert both[1..] == last;
    assert FirstOfPairs(last[1..]) == None;
    assert FirstOfPairs(last) == match FirstDiffering(last[0].stored, last[0].current)
      case Some(p) => Some(FingerprintMismatch(last[0].zone, p))
      case None => FirstOfPairs(last[1..]);
  }

  /** Two lists of the same investigators first differ, one after the other and
      each one's hand before its deck, at `position` of `zone`. */
  ghost predicate DealtDiffers(s: seq<InvestigatorZones>, c: seq<InvestigatorZones>, zone: Zone, position: nat)
    requires |s| == |c|
  {
    exists i | 0 <= i < |s| ::
      && s[..i] == c[..i]
      && match zone
         case Hand(id) => id == s[i].investigator && DiffersAt(s[i].hand, c[i].hand, position)
         case Deck(id) =>
           id == s[i].investigator && s[i].hand == c[i].hand && DiffersAt(s[i].deck, c[i].deck, position)
         case _ => false
  }

  lemma {:induction false} DealtFirst(s: seq<InvestigatorZones>, c: seq<InvestigatorZones>, shared: seq<ZonePair>)
    requires |s| == |c| && Ids(s) == Ids(c)
    ensures var found := FirstOfPairs(InvestigatorPairs(s, c) + shared);
            if s == c then found == FirstOfPairs(shared)
            else found.Some? && DealtDiffers(s, c, found.value.zone, found.value.position)
  {
    if s == [] {
      assert InvestigatorPairs(s, c) + shared == shared;
    } else {
      assert Ids(s)[0] == Ids(c)[0] && Ids(s[1..]) == Ids(s)[1..] && Ids(c[1..]) == Ids(c)[1..];
      assert s == [s[0]] + s[1..] && c == [c[0]] + c[1..];
      NextInvestigator(s, c, shared);
      DealtFirst(s[1..], c[1..], shared);
      if s[0] == c[0] {
        if s != c {
          var found := FirstOfPairs(InvestigatorPairs(s[1..], c[1..]) + shared).value;
          DealtLater(s, c, found.zone, found.position);
        }
      } else {
        assert s[..0] == c[..0];
      }
    }
  }

  lemma DealtLater(s: seq<InvestigatorZones>, c: seq<InvestigatorZones>, zone: Zone, position: nat)
    requires |s| == |c| > 0 && s[0] == c[0]
    requires DealtDiffers(s[1..], c[1..], zone, position)
    ensures DealtDiffers(s, c, zone, position)
  {
    var i :| 0 <= i < |s[1..]|
      && s[1..][..i] == c[1..][..i]
      && match zone
         case Hand(id) => id == s[1..][i].investigator && DiffersAt(s[1..][i].hand, c[1..][i].hand, position)
         case Deck(id) =>
           id == s[1..][i].investigator && s[1..][i].hand == c[1..][i].hand && DiffersAt(s[1..][i].deck, c[1..][i].deck, position)
         case _ => false;
    assert s[..i + 1] == [s[0]] + s[1..][..i] && c[..i + 1] == [c[0]] + c[1..][..i];
    assert s[i + 1] == s[1..][i] && c[i + 1] == c[1..][i];
  }

  /** `mismatch` is where two fingerprints first differ, at the length of the
      longest common prefix of the zone it names: the seated investigators, then
      one investigator after the other the hand and the deck, then the encounter
      deck, then the chaos bag. */
  ghost predicate IsFirstDifference(stored: SetupFingerprint, current: SetupFingerprint, mismatch: FingerprintMismatch) {
    match mismatch.zone
    case Investigators => DiffersAt(Ids(stored.investigators), Ids(current.investigators), mismatch.position)
    case EncounterDeck =>
      && stored.investigators == current.investigators
      && DiffersAt(stored.encounterDeck, current.encounterDeck, mismatch.position)
    case ChaosBag =>
      && stored.investigators == current.investigators && stored.encounterDeck == current.encounterDeck
      && DiffersAt(stored.chaosBag, current.chaosBag, mismatch.position)
    case _ =>
      && |stored.investigators| == |current.investigators|
      && Ids(stored.investigators) == Ids(current.investigators)
      && DealtDiffers(stored.investigators, current.investigators, mismatch.zone, mismatch.position)
  }

  /** A reported difference is the first. */
  lemma DifferenceIsFirst(stored: SetupFingerprint, current: SetupFingerprint)
    requires FirstDifference(stored, current).Some?
    ensures IsFirstDifference(stored, current, FirstDifference(stored, current).value)
  {
    if Ids(stored.investigators) == Ids(current.investigators) {
      assert |Ids(stored.investigators)| == |Ids(current.investigators)|;
      var shared := [ZonePair(EncounterDeck, stored.encounterDeck, current.encounterDeck),
                     ZonePair(ChaosBag, stored.chaosBag, current.chaosBag)];
      DealtFirst(stored.investigators, current.investigators, shared);
      LastZones(shared[0], shared[1]);
    }
  }

  /** The investigators' zones, in a loop with an early return. */
  method ComputeInvestigatorDifference(
    s: seq<InvestigatorZones>, c: seq<InvestigatorZones>, ghost shared: seq<ZonePair>)
    returns (found: Option<FingerprintMismatch>)
    requires |s| == |c|
    ensures found.Some? ==> found == FirstOfPairs(InvestigatorPairs(s, c) + shared)
    ensures found.None? ==> FirstOfPairs(shared) == FirstOfPairs(InvestigatorPairs(s, c) + shared)
  {
    var i := 0;
    assert s[0..] == s && c[0..] == c;
    while i < |s|
      invariant 0 <= i <= |s|
      invariant FirstOfPairs(InvestigatorPairs(s, c) + shared)
                == FirstOfPairs(InvestigatorPairs(s[i..], c[i..]) + shared)
    {
      NextInvestigator(s[i..], c[i..], shared);
      assert s[i..][1..] == s[i + 1..] && c[i..][1..] == c[i + 1..];
      var hand := ComputeFirstDiffering(s[i].hand, c[i].hand);
      if hand.Some? {
        return Some(FingerprintMismatch(Hand(s[i].investigator), hand.value));
      }
      var deck := ComputeFirstDiffering(s[i].deck, c[i].deck);
      if deck.Some? {
        return Some(FingerprintMismatch(Deck(s[i].investigator), deck.value));
      }
      i := i + 1;
    }
    assert InvestigatorPairs(s[i..], c[i..]) + shared == shared;
    return None;
  }

  /** The comparison as the source runs it: the seated ids, then each
      investigator's hand and deck, then the shared zones. */
  method ComputeFirstDifference(stored: SetupFingerprint, current: SetupFingerprint)
    returns (found: Option<FingerprintMismatch>)
    ensures found == FirstDifference(stored, current)
  {
    var seated := ComputeFirstDiffering(Ids(stored.investigators), Ids(current.investigators));
    if seated.Some? {
      return Some(FingerprintMismatch(Investigators, seated.value));
    }
    assert |Ids(stored.investigators)| == |Ids(current.investigators)|;
    ghost var shared := [ZonePair(EncounterDeck, stored.encounterDeck, current.encounterDeck),
                         ZonePair(ChaosBag, stored.chaosBag, current.chaosBag)];
    LastZones(shared[0], shared[1]);
    var dealt := ComputeInvestigatorDifference(stored.investigators, current.investigators, shared);
    if dealt.Some? {
      return dealt;
    }
    var encounter := ComputeFirstDiffering(stored.encounterDeck, current.encounterDeck);
    if encounter.Some? {
      return Some(FingerprintMismatch(EncounterDeck, encounter.value));
    }
    var bag := ComputeFirstDiffering(stored.chaosBag, current.chaosBag);
    if bag.Some? {
      return Some(FingerprintMismatch(ChaosBag, bag.value));
    }
    return None;
  }
}
