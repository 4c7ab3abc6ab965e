/** The resumable crawl of the per-card FAQ (`cmd_fetch_faq`): what is on disk,
    one run over the snapshot's codes, and sweeps of many runs. */
module FaqSweep {
  import opened Wrappers

  type Code = string

  /** A day. ISO dates compare as the days they name. */
  type Date = nat

  /** The day a sweep started, and the codes it has confirmed without rulings. */
  datatype Stamp = Stamp(started: Date, confirmed: set<Code>)

  /** The card files with the fetch date each records, the list of codes without
      rulings, and the stamp of a refresh under way. `checked` is the last day
      each code's entries were fetched; it is on no disk. */
  datatype Disk = Disk(
    files: map<Code, Option<Date>>,
    noRulings: set<Code>,
    stamp: Option<Stamp>,
    checked: map<Code, Date>)

  datatype Answer = Errored | Entries | NoEntries

  /** One run of the command: its date, its answers, and, if it is interrupted,
      before how many codes. */
  datatype Run = Run(today: Date, refresh: bool, answers: map<Code, Answer>, stop: Option<nat>)

  function AnswerTo(run: Run, code: Code): Answer {
    if code in run.answers then run.answers[code] else Errored
  }

  /** The stamp a refresh goes on from, or starts with. */
  function StampOf(d: Disk, run: Run): Stamp {
    if d.stamp.Some? then d.stamp.value else Stamp(run.today, {})
  }

  function Begin(d: Disk, run: Run): Disk {
    if run.refresh then d.(stamp := Some(StampOf(d, run))) else d
  }

  predicate Skips(d: Disk, run: Run, code: Code) {
    if run.refresh then
      var stamp := StampOf(d, run);
      || code in stamp.confirmed
      || (code in d.files && d.files[code].Some? && d.files[code].value >= stamp.started)
    else code in d.files || code in d.noRulings
  }

  function Confirm(d: Disk, run: Run, code: Code): Disk {
    if !run.refresh then d
    else
      var stamp := StampOf(d, run);
      d.(stamp := Some(stamp.(confirmed := stamp.confirmed + {code})))
  }

  /** A code is fetched: the disk after all its writes. */
  function Fetched(d: Disk, run: Run, code: Code): Disk {
    match AnswerTo(run, code)
    case Errored => d
    case Entries =>
      d.(files := d.files[code := Some(run.today)], noRulings := d.noRulings - {code},
         checked := d.checked[code := run.today])
    case NoEntries =>
      Confirm(
        d.(files := d.files - {code}, noRulings := d.noRulings + {code}, checked := d.checked[code := run.today]),
        run, code)
  }

  function Visit(d: Disk, run: Run, code: Code): Disk {
    if Skips(d, run, code) then d else Fetched(d, run, code)
  }

  predicate Errs(d: Disk, run: Run, code: Code) {
    !Skips(d, run, code) && AnswerTo(run, code).Errored?
  }

  function VisitAll(d: Disk, run: Run, codes: seq<Code>): Disk
    decreases |codes|
  {
    if codes == [] then d else VisitAll(Visit(d, run, codes[0]), run, codes[1..])
  }

  function ErrorsIn(d: Disk, run: Run, codes: seq<Code>): seq<Code>
    decreases |codes|
  {
    if codes == [] then []
    else (if Errs(d, run, codes[0]) then [codes[0]] else []) + ErrorsIn(Visit(d, run, codes[0]), run, codes[1..])
  }

  /** Whether a run gets through `codes` without being interrupted. */
  predicate Finishes(run: Run, codes: seq<Code>) {
    run.stop.None? || run.stop.value >= |codes|
  }

  function Reached(run: Run, codes: seq<Code>): (reached: seq<Code>)
    ensures Finishes(run, codes) ==> reached == codes
  {
    if Finishes(run, codes) then codes else codes[..run.stop.value]
  }

  /** The disk after a run over `codes`. */
  function AfterRun(d: Disk, run: Run, codes: seq<Code>): Disk {
    var swept := VisitAll(Begin(d, run), run, Reached(run, codes));
    if run.refresh && Completes(d, run, codes) then swept.(stamp := None) else swept
  }

  /** The run ends, and ends without errors. */
  predicate Completes(d: Disk, run: Run, codes: seq<Code>) {
    Finishes(run, codes) && ErrorsIn(Begin(d, run), run, codes) == []
  }

  lemma SweepUnfolds(d: Disk, run: Run, codes: seq<Code>, i: nat, errors: seq<Code>)
    requires i < |codes|
    ensures VisitAll(d, run, codes[i..]) == VisitAll(Visit(d, run, codes[i]), run, codes[i + 1..])
    ensures errors + ErrorsIn(d, run, codes[i..])
            == (if Errs(d, run, codes[i]) then errors + [codes[i]] else errors)
               + ErrorsIn(Visit(d, run, codes[i]), run, codes[i + 1..])
  {
    hide Visit, Errs;
    assert codes[i..] == [codes[i]] + codes[i + 1..];
  }

  // ----- the command -----

  class FaqStore {
    var files: map<Code, Option<Date>>
    var noRulings: set<Code>
    var stamp: Option<Stamp>
    ghost var checked: map<Code, Date>

    ghost function Value(): Disk
      reads this
    {
      Disk(files, noRulings, stamp, checked)
    }

    constructor ()
      ensures Value() == Disk(map[], {}, None, map[])
    {
      files, noRulings, stamp, checked := map[], {}, None, map[];
    }

    /** Fetch one code, unless the run passes it over; whether it errored. */
    method VisitCode(run: Run, code: Code) returns (errored: bool)
      requires run.refresh ==> stamp.Some?
      modifies this
      ensures Value() == Visit(old(Value()), run, code)
      ensures errored == Errs(old(Value()), run, code)
      ensures run.refresh ==> stamp.Some?
    {
      errored := false;
      if run.refresh {
        if code in stamp.value.confirmed { return; }
        if code in files && files[code].Some? && files[code].value >= stamp.value.started { return; }
      } else {
        if code in files || code in noRulings { return; }
      }
      match AnswerTo(run, code) {
        case Errored =>
          errored := true;
        case Entries =>
          files := files[code := Some(run.today)];
          noRulings := noRulings - {code};
          checked := checked[code := run.today];
        case NoEntries =>
          if code in files { files := files - {code}; }
          noRulings := noRulings + {code};
          if run.refresh {
            stamp := Some(stamp.value.(confirmed := stamp.value.confirmed + {code}));
          }
          checked := checked[code := run.today];
      }
    }

    /** One run of the command over the snapshot's codes, in order. */
    method FetchFaq(run: Run, codes: seq<Code>) returns (errors: seq<Code>)
      modifies this
      ensures Value() == AfterRun(old(Value()), run, codes)
      ensures errors == ErrorsIn(Begin(old(Value()), run), run, Reached(run, codes))
    {
      if run.refresh && stamp.None? {
        stamp := Some(Stamp(run.today, {}));
      }
      ghost var begun := Value();
      var reached := Reached(run, codes);
      errors := [];
      for i := 0 to |reached|
        invariant run.refresh ==> stamp.Some?
        invariant VisitAll(Value(), run, reached[i..]) == VisitAll(begun, run, reached)
        invariant errors + ErrorsIn(Value(), run, reached[i..]) == ErrorsIn(begun, run, reached)
      {
        hide Visit, Errs, Begin, Reached, AfterRun, VisitAll, ErrorsIn;
        SweepUnfolds(Value(), run, reached, i, errors);
        var errored := VisitCode(run, reached[i]);
        if errored { errors := errors + [reached[i]]; }
      }
      if Finishes(run, codes) && errors == [] && run.refresh {
        stamp := None;
      }
    }
  }

  // ----- what a run keeps -----

  /** No code is both in a file and on the list; what a sweep confirmed is on the
      list, fetched since the sweep started; and no file is dated after its last
      fetch. */
  ghost predicate Consistent(d: Disk) {
    && (forall c | c in d.files :: c !in d.noRulings)
    && (d.stamp.Some? ==>
          && d.stamp.value.confirmed <= d.noRulings
          && forall c | c in d.stamp.value.confirmed :: c in d.checked && d.checked[c] >= d.stamp.value.started)
    && (forall c | c in d.files && d.files[c].Some? :: c in d.checked && d.checked[c] >= d.files[c].value)
  }

  /** The clock has not gone back since the sweep under way, and the last fetch. */
  ghost predicate InOrder(d: Disk, today: Date) {
    && (d.stamp.Some? ==> d.stamp.value.started <= today)
    && (forall c | c in d.checked :: d.checked[c] <= today)
  }

  lemma VisitKeeps(d: Disk, run: Run, code: Code)
    requires Consistent(d) && InOrder(d, run.today) && (run.refresh ==> d.stamp.Some?)
    ensures var v := Visit(d, run, code);
      && Consistent(v) && InOrder(v, run.today)
      && (v.stamp.Some? <==> d.stamp.Some?) && (v.stamp.Some? ==> v.stamp.value.started == d.stamp.value.started)
  {
  }

  lemma {:induction false} VisitAllKeeps(d: Disk, run: Run, codes: seq<Code>)
    requires Consistent(d) && InOrder(d, run.today) && (run.refresh ==> d.stamp.Some?)
    ensures var v := VisitAll(d, run, codes);
      && Consistent(v) && InOrder(v, run.today)
      && (v.stamp.Some? <==> d.stamp.Some?) && (v.stamp.Some? ==> v.stamp.value.started == d.stamp.value.started)
    decreases |codes|
  {
    if codes != [] {
      VisitKeeps(d, run, codes[0]);
      VisitAllKeeps(Visit(d, run, codes[0]), run, codes[1..]);
    }
  }

  /** A run, refresh or not, whole or interrupted between codes, keeps files and
      list apart and the stamp within the list. */
  lemma RunKeeps(d: Disk, run: Run, codes: seq<Code>)
    requires Consistent(d) && InOrder(d, run.today)
    ensures Consistent(AfterRun(d, run, codes)) && InOrder(AfterRun(d, run, codes), run.today)
  {
    VisitAllKeeps(Begin(d, run), run, Reached(run, codes));
  }

  /** Code `c` is done with: in a file or on the list, not both, and fetched on
      or after `started`. */
  ghost predicate Settled(d: Disk, c: Code, started: Date) {
    && (c in d.files <==> c !in d.noRulings)
    && c in d.checked && d.checked[c] >= started
    && (if c in d.files then d.files[c].Some? && d.files[c].value >= started
        else d.stamp.Some? && c in d.stamp.value.confirmed)
  }

  lemma VisitSettles(d: Disk, run: Run, code: Code)
    requires Consistent(d) && InOrder(d, run.today) && run.refresh && d.stamp.Some?
    requires !Errs(d, run, code)
    ensures Settled(Visit(d, run, code), code, d.stamp.value.started)
  {
  }

  lemma VisitKeepsSettled(d: Disk, run: Run, code: Code, c: Code)
    requires Consistent(d) && InOrder(d, run.today) && run.refresh && d.stamp.Some?
    requires Settled(d, c, d.stamp.value.started)
    ensures Settled(Visit(d, run, code), c, d.stamp.value.started)
  {
  }

  lemma {:induction false} VisitAllKeepsSettled(d: Disk, run: Run, codes: seq<Code>, c: Code)
    requires Consistent(d) && InOrder(d, run.today) && run.refresh && d.stamp.Some?
    requires Settled(d, c, d.stamp.value.started)
    ensures Settled(VisitAll(d, run, codes), c, d.stamp.value.started)
    decreases |codes|
  {
    if codes != [] {
      VisitKeeps(d, run, codes[0]);
      VisitKeepsSettled(d, run, codes[0], c);
      VisitAllKeepsSettled(Visit(d, run, codes[0]), run, codes[1..], c);
    }
  }

  lemma {:induction false} VisitAllSettles(d: Disk, run: Run, codes: seq<Code>, c: Code)
    requires Consistent(d) && InOrder(d, run.today) && run.refresh && d.stamp.Some?
    requires ErrorsIn(d, run, codes) == [] && c in codes
    ensures Settled(VisitAll(d, run, codes), c, d.stamp.value.started)
    decreases |codes|
  {
    VisitKeeps(d, run, codes[0]);
    if c == codes[0] {
      VisitSettles(d, run, c);
      VisitAllKeepsSettled(Visit(d, run, c), run, codes[1..], c);
    } else {
      VisitAllSettles(Visit(d, run, codes[0]), run, codes[1..], c);
    }
  }

  // ----- what a run fetches -----

  /** What is known of one code: its file's date, whether it is listed, when it
      was last fetched, and whether the sweep under way confirmed it. */
  datatype Known = Known(file: Option<Option<Date>>, listed: bool, fetched: Option<Date>, confirmed: bool)

  function Lookup<T>(of: map<Code, T>, c: Code): Option<T> {
    if c in of then Some(of[c]) else None
  }

  function KnownOf(d: Disk, c: Code): Known {
    Known(Lookup(d.files, c), c in d.noRulings, Lookup(d.checked, c), d.stamp.Some? && c in d.stamp.value.confirmed)
  }

  predicate SameSweep(d: Disk, v: Disk) {
    && (d.stamp.Some? <==> v.stamp.Some?)
    && (d.stamp.Some? ==> v.stamp.value.started == d.stamp.value.started)
  }

  /** A visit touches its own code alone, and does the same if made again. */
  lemma VisitTouches(d: Disk, run: Run, x: Code, c: Code)
    requires run.refresh ==> d.stamp.Some?
    ensures var v := Visit(d, run, x);
      && SameSweep(d, v)
      && (x != c ==> KnownOf(v, c) == KnownOf(d, c))
      && (x == c ==> KnownOf(Visit(v, run, c), c) == KnownOf(v, c) && (Errs(v, run, c) <==> Errs(d, run, c)))
  {
  }

  lemma VisitDepends(d: Disk, v: Disk, run: Run, c: Code)
    requires (run.refresh ==> d.stamp.Some?) && SameSweep(d, v) && KnownOf(v, c) == KnownOf(d, c)
    ensures KnownOf(Visit(v, run, c), c) == KnownOf(Visit(d, run, c), c)
    ensures Errs(v, run, c) <==> Errs(d, run, c)
  {
  }

  lemma {:induction false} VisitAllTouches(d: Disk, run: Run, codes: seq<Code>, c: Code)
    requires run.refresh ==> d.stamp.Some?
    ensures var v := VisitAll(d, run, codes);
      && SameSweep(d, v)
      && KnownOf(v, c) == (if c in codes then KnownOf(Visit(d, run, c), c) else KnownOf(d, c))
    ensures c in ErrorsIn(d, run, codes) <==> c in codes && Errs(d, run, c)
    decreases |codes|
  {
    if codes != [] {
      var v := Visit(d, run, codes[0]);
      VisitTouches(d, run, codes[0], c);
      VisitAllTouches(v, run, codes[1..], c);
      if codes[0] != c { VisitDepends(d, v, run, c); }
      hide Visit, Errs, KnownOf;
    }
  }

  /** **What a run fetches**: of the codes it reaches, a plain run those with
      neither a file nor a place on the list, a refresh those the sweep under way
      has neither confirmed nor dated a file of since it started. What it fetches
      without an error ends in a file of that day or on the list; it reports the
      rest of them, and leaves every other code as it was. */
  lemma RunExactly(d: Disk, run: Run, codes: seq<Code>, c: Code)
    ensures var v := AfterRun(d, run, codes);
      var since := if d.stamp.Some? then d.stamp.value.started else run.today;
      var reached := if run.stop.Some? && run.stop.value < |codes| then codes[..run.stop.value] else codes;
      var due := c in reached
        && if run.refresh then
             && !(d.stamp.Some? && c in d.stamp.value.confirmed)
             && !(c in d.files && d.files[c].Some? && d.files[c].value >= since)
           else c !in d.files && c !in d.noRulings;
      && (c in ErrorsIn(Begin(d, run), run, Reached(run, codes)) <==> due && AnswerTo(run, c).Errored?)
      && if due && AnswerTo(run, c).Entries? then
           c in v.files && v.files[c] == Some(run.today) && c !in v.noRulings && Lookup(v.checked, c) == Some(run.today)
         else if due && AnswerTo(run, c).NoEntries? then
           c !in v.files && c in v.noRulings && Lookup(v.checked, c) == Some(run.today)
         else
           && Lookup(v.files, c) == Lookup(d.files, c)
           && (c in v.noRulings <==> c in d.noRulings)
           && Lookup(v.checked, c) == Lookup(d.checked, c)
  {
    var begun := Begin(d, run);
    VisitAllTouches(begun, run, Reached(run, codes), c);
    hide VisitAll, ErrorsIn;
    assert KnownOf(AfterRun(d, run, codes), c).(confirmed := false)
        == KnownOf(VisitAll(begun, run, Reached(run, codes)), c).(confirmed := false);
  }

  lemma {:induction false} PlainKeepsStamp(d: Disk, run: Run, codes: seq<Code>)
    requires !run.refresh
    ensures VisitAll(d, run, codes).stamp == d.stamp
    decreases |codes|
  {
    if codes != [] { PlainKeepsStamp(Visit(d, run, codes[0]), run, codes[1..]); }
  }

  /** **What a run leaves of the sweep**: a plain run all of it; a refresh its
      start and what it confirmed, with the codes it found no rulings of, until it
      gets through them all without an error. */
  lemma StampExactly(d: Disk, run: Run, codes: seq<Code>, c: Code)
    ensures var v := AfterRun(d, run, codes);
      var due := c in Reached(run, codes) && !Skips(Begin(d, run), run, c);
      if !run.refresh then v.stamp == d.stamp
      else
        && (v.stamp.None? <==> Finishes(run, codes) && ErrorsIn(Begin(d, run), run, codes) == [])
        && (v.stamp.Some? ==>
              && v.stamp.value.started == (if d.stamp.Some? then d.stamp.value.started else run.today)
              && (c in v.stamp.value.confirmed <==>
                    (d.stamp.Some? && c in d.stamp.value.confirmed) || (due && AnswerTo(run, c).NoEntries?)))
  {
    var begun := Begin(d, run);
    if !run.refresh {
      PlainKeepsStamp(begun, run, Reached(run, codes));
    } else {
      VisitAllTouches(begun, run, Reached(run, codes), c);
      hide VisitAll, ErrorsIn, Reached;
      assert KnownOf(Visit(begun, run, c), c).confirmed
        == (KnownOf(begun, c).confirmed || (!Skips(begun, run, c) && AnswerTo(run, c).NoEntries?));
    }
  }

  // ----- sweeps of many runs -----

  function AfterRuns(d: Disk, runs: seq<Run>, codes: seq<Code>): Disk
    decreases |runs|
  {
    if runs == [] then d else AfterRuns(AfterRun(d, runs[0], codes), runs[1..], codes)
  }

  /** The clock does not go back from run to run. */
  ghost predicate Dated(d: Disk, runs: seq<Run>) {
    && (runs != [] ==> InOrder(d, runs[0].today))
    && forall i, j | 0 <= i < j < |runs| :: runs[i].today <= runs[j].today
  }

  lemma {:induction false} RunsKeep(d: Disk, runs: seq<Run>, codes: seq<Code>)
    requires Consistent(d) && Dated(d, runs)
    ensures Consistent(AfterRuns(d, runs, codes))
    ensures runs != [] ==> InOrder(AfterRuns(d, runs, codes), runs[|runs| - 1].today)
    decreases |runs|
  {
    if runs != [] {
      RunKeeps(d, runs[0], codes);
      hide Consistent, AfterRun;
      RunsKeep(AfterRun(d, runs[0], codes), runs[1..], codes);
    }
  }

  /** Whatever runs came before, interrupted between codes or ended with errors,
      a refresh that ends without errors leaves every code of the snapshot in a
      file or on the list, not both, fetched since the sweep started; and it
      ends the sweep. */
  lemma SweepCompletes(d: Disk, runs: seq<Run>, run: Run, codes: seq<Code>, c: Code)
    requires Consistent(d) && Dated(d, runs + [run])
    requires run.refresh && Completes(AfterRuns(d, runs, codes), run, codes) && c in codes
    ensures var before := AfterRuns(d, runs, codes);
      var after := AfterRun(before, run, codes);
      var started := StampOf(before, run).started;
      && after.stamp.None? && started <= run.today
      && (c in after.files <==> c !in after.noRulings)
      && c in after.checked && started <= after.checked[c] <= run.today
  {
    assert forall i | 0 <= i < |runs| :: (runs + [run])[i] == runs[i];
    assert (runs + [run])[|runs|] == run;
    RunsKeep(d, runs, codes);
    var before := AfterRuns(d, runs, codes);
    LastInOrder(d, runs, run, codes);
    VisitAllKeeps(Begin(before, run), run, codes);
    VisitAllSettles(Begin(before, run), run, codes, c);
  }

  lemma LastInOrder(d: Disk, runs: seq<Run>, run: Run, codes: seq<Code>)
    requires Consistent(d) && Dated(d, runs + [run]) && Dated(d, runs)
    requires runs != [] ==> InOrder(AfterRuns(d, runs, codes), runs[|runs| - 1].today)
    ensures InOrder(AfterRuns(d, runs, codes), run.today)
  {
    assert (runs + [run])[|runs|] == run;
    if runs != [] { assert (runs + [run])[|runs| - 1] == runs[|runs| - 1]; }
  }

  // ----- interrupted inside a code -----

  /** The disk after each write of fetching one code, in the order of the writes:
      the card's file; the stamp, if the code has no rulings; then the list. The
      last leaves the disk as an uninterrupted visit does. */
  function Writes(d: Disk, run: Run, code: Code): (writes: seq<Disk>)
    ensures writes == [] <==> AnswerTo(run, code).Errored?
    ensures writes != [] && !Skips(d, run, code) ==> writes[|writes| - 1] == Visit(d, run, code)
  {
    match AnswerTo(run, code)
    case Errored => []
    case Entries =>
      var filed := d.(files := d.files[code := Some(run.today)], checked := d.checked[code := run.today]);
      [filed, filed.(noRulings := d.noRulings - {code})]
    case NoEntries =>
      var unlinked := d.(files := d.files - {code}, checked := d.checked[code := run.today]);
      var stamped := Confirm(unlinked, run, code);
      [unlinked, stamped, stamped.(noRulings := d.noRulings + {code})]
  }

  /** Whether the list is not to change, or has, by the `k`th write: of a code
      with rulings, that it was not on it; of one without, that it was, or that
      no stamp has the code yet. */
  predicate SafeCut(d: Disk, run: Run, code: Code, k: nat) {
    if AnswerTo(run, code).Entries? then k == 1 || code !in d.noRulings
    else k != 1 || code in d.noRulings || !run.refresh
  }

  lemma SafeCutConsistent(d: Disk, run: Run, code: Code, k: nat)
    requires Consistent(d) && InOrder(d, run.today) && (run.refresh ==> d.stamp.Some?)
    requires !Skips(d, run, code) && k < |Writes(d, run, code)| && SafeCut(d, run, code, k)
    ensures Consistent(Writes(d, run, code)[k]) && InOrder(Writes(d, run, code)[k], run.today)
  {
  }

  /** A resumed refresh passes `code` over, which is in both a file and the list,
      or in neither. */
  ghost predicate Stuck(d: Disk, code: Code) {
    && d.stamp.Some?
    && if code in d.files
       then d.files[code].Some? && d.files[code].value >= d.stamp.value.started && code in d.noRulings
       else code in d.stamp.value.confirmed && code !in d.noRulings
  }

  lemma UnsafeCutStuck(d: Disk, run: Run, code: Code, k: nat)
    requires Consistent(d) && InOrder(d, run.today) && (run.refresh ==> d.stamp.Some?)
    requires !Skips(d, run, code) && k < |Writes(d, run, code)| && !SafeCut(d, run, code, k)
    ensures Stuck(Writes(d, run, code)[k], code)
  {
  }

  lemma {:induction false} StuckStays(d: Disk, run: Run, codes: seq<Code>, code: Code)
    requires Stuck(d, code) && run.refresh
    ensures Stuck(VisitAll(d, run, codes), code)
    decreases |codes|
  {
    if codes != [] {
      StuckOnce(d, run, codes[0], code);
      hide Stuck, Visit;
      StuckStays(Visit(d, run, codes[0]), run, codes[1..], code);
    }
  }

  lemma StuckOnce(d: Disk, run: Run, visited: Code, code: Code)
    requires Stuck(d, code) && run.refresh
    ensures Stuck(Visit(d, run, visited), code)
  {
  }

  /** Every one of `runs` is a refresh, and none of them completes. */
  ghost predicate Incomplete(d: Disk, runs: seq<Run>, codes: seq<Code>)
    decreases |runs|
  {
    runs != [] ==>
      && runs[0].refresh && !Completes(d, runs[0], codes)
      && Incomplete(AfterRun(d, runs[0], codes), runs[1..], codes)
  }

  lemma {:induction false} StuckThroughRuns(d: Disk, runs: seq<Run>, codes: seq<Code>, code: Code)
    requires Stuck(d, code) && Incomplete(d, runs, codes)
    ensures Stuck(AfterRuns(d, runs, codes), code)
    decreases |runs|
  {
    if runs != [] {
      assert Begin(d, runs[0]) == d;
      StuckStays(d, runs[0], Reached(runs[0], codes), code);
      hide Stuck, Completes, Begin, VisitAll;
      StuckThroughRuns(AfterRun(d, runs[0], codes), runs[1..], codes, code);
    }
  }

  /** **An interruption inside a code ends well exactly when the cut is safe.**
      Whichever write of whichever code's fetch was the last, and however many
      refreshes are interrupted or end with errors after it, the one that
      completes leaves the code in exactly one of files and list if the list was
      not to change, or had, at the cut; and otherwise passes it over, and leaves
      it in both or in neither. (A run that is no refresh fetches a code left in
      neither, so none may come between.) */
  lemma InterruptedInside(d: Disk, run: Run, code: Code, k: nat, runs: seq<Run>, resumed: Run, codes: seq<Code>)
    requires Consistent(d) && InOrder(d, run.today) && (run.refresh ==> d.stamp.Some?)
    requires !Skips(d, run, code) && k < |Writes(d, run, code)|
    requires Dated(Writes(d, run, code)[k], runs + [resumed]) && code in codes
    requires Incomplete(Writes(d, run, code)[k], runs, codes)
    requires resumed.refresh && Completes(AfterRuns(Writes(d, run, code)[k], runs, codes), resumed, codes)
    ensures var after := AfterRun(AfterRuns(Writes(d, run, code)[k], runs, codes), resumed, codes);
      (code in after.files <==> code !in after.noRulings) <==> SafeCut(d, run, code, k)
  {
    var cut := Writes(d, run, code)[k];
    if SafeCut(d, run, code, k) {
      SafeCutConsistent(d, run, code, k);
      hide Writes, SafeCut, Consistent, Completes, Dated, Incomplete;
      SweepCompletes(cut, runs, resumed, codes, code);
    } else {
      UnsafeCutStuck(d, run, code, k);
      hide Writes, SafeCut, Consistent, Dated;
      StuckThroughRuns(cut, runs, codes, code);
      StuckEnds(AfterRuns(cut, runs, codes), resumed, codes, code);
    }
  }

  lemma StuckEnds(d: Disk, resumed: Run, codes: seq<Code>, code: Code)
    requires Stuck(d, code) && resumed.refresh && Completes(d, resumed, codes)
    ensures var after := AfterRun(d, resumed, codes); code in after.files <==> code in after.noRulings
  {
    assert Begin(d, resumed) == d;
    StuckStays(d, resumed, codes, code);
  }

  const CARD: Code := "01001"

  /** One code, first fetched, with no rulings. */
  function FirstRefresh(today: Date): Run {
    Run(today, true, map[CARD := NoEntries], None)
  }

  /** Interrupted between the stamp's write and the list's, a sweep loses the
      code: resumed, it ends without errors and leaves the code in neither. */
  lemma InterruptedSweepLosesCode(today: Date)
    ensures var empty := Begin(Disk(map[], {}, None, map[]), FirstRefresh(today));
      var cut := Writes(empty, FirstRefresh(today), CARD)[1];
      && Completes(cut, FirstRefresh(today), [CARD])
      && var after := AfterRun(cut, FirstRefresh(today), [CARD]);
         CARD !in after.files && CARD !in after.noRulings && after.stamp.None?
  {
    var run := FirstRefresh(today);
    var cut := Writes(Begin(Disk(map[], {}, None, map[]), run), run, CARD)[1];
    assert Begin(cut, run) == cut;
    assert Skips(cut, run, CARD);
    assert [CARD][1..] == [];
    assert VisitAll(cut, run, [CARD]) == cut;
  }
}
