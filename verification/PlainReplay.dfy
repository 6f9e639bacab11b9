/**
 A replay in plain terms: which quarantined rows it may store, said of the row, the request and the schema policy,
 and what its report counts. Over any sequence of replays nothing else is ever stored.
 */
module PlainReplay {
  import opened Wrappers
  import opened OffsetRanges
  import opened QuarantineReplay
  import opened QuarantineReplayLaws
  import opened Sets

  // ----- Rows, in plain terms -----

  /** The row is asked for: by its partition and offset, or because nothing is. */
  predicate Asked(s: Settings, row: QRow) {
    s.requested == {} || (row.partition, row.offset) in s.requested
  }

  /** What the policy says of unknown fields, unless they are approved. */
  predicate SaysOfUnknown(s: Settings, words: set<string>) {
    !s.approveUnknown && (s.policy.unknownField in words || s.policy.additiveNullable in words)
  }

  /** The payload cannot be replayed: it does not parse, or the policy keeps out what it shows. */
  predicate KeptOut(s: Settings, row: QRow) {
    var f, words := s.facts(row), {"quarantine", "pause"};
    || f.malformed
    || (f.requiredMissing && s.policy.missingRequired in words)
    || (f.incompatibleType && s.policy.incompatibleType in words)
    || (f.unknownField && SaysOfUnknown(s, words))
  }

  /** The payload parses, and shows something on which the policy pauses the whole replay. */
  predicate PausedBy(s: Settings, row: QRow) {
    var f, words := s.facts(row), {"pause"};
    && !f.malformed
    && (|| (f.requiredMissing && s.policy.missingRequired in words)
        || (f.incompatibleType && s.policy.incompatibleType in words)
        || (f.unknownField && SaysOfUnknown(s, words)))
  }

  predicate AlreadyStored(stored: seq<Stored>, row: QRow) {
    exists one :: one in stored && one.partition == row.partition && one.offset == row.offset
  }

  /** The row may be replayed now. */
  predicate Replayable(s: Settings, quarantine: seq<QRow>, stored: seq<Stored>, row: QRow) {
    row in quarantine && Asked(s, row) && !KeptOut(s, row) && !AlreadyStored(stored, row)
  }

  /** The replayable rows that come before a row by topic, partition and offset. */
  function Preceding(s: Settings, quarantine: seq<QRow>, stored: seq<Stored>, row: QRow): set<QRow> {
    set r | r in quarantine && Replayable(s, quarantine, stored, r) && Before(r.At(), row.At())
  }

  /** The rows a run takes up: replayable, with fewer replayable rows before them than a run may take. */
  predicate Taken(s: Settings, quarantine: seq<QRow>, stored: seq<Stored>, row: QRow) {
    Replayable(s, quarantine, stored, row) && |Preceding(s, quarantine, stored, row)| < s.Limit()
  }

  // ----- The selection means this -----

  lemma KeptOutMeans(s: Settings, row: QRow)
    ensures SchemaInvalid(s.Applied(), s.facts(row)) <==> KeptOut(s, row)
  {
  }

  lemma PausedMeans(s: Settings, row: QRow)
    ensures Pausing(s, row) <==> PausedBy(s, row)
  {
  }

  lemma StoredMeans(stored: seq<Stored>, row: QRow)
    ensures KeyOf(row) in TableKeys(stored) <==> AlreadyStored(stored, row)
  {
    if one :| one in stored && one.partition == row.partition && one.offset == row.offset {
      assert StoredKey(one) == KeyOf(row);
    }
  }

  lemma {:induction false} RequestedMeans(s: Settings, rows: seq<QRow>, row: QRow)
    ensures row in Requested(s, rows) <==> row in rows && Asked(s, row)
  {
    if rows != [] {
      RequestedMeans(s, rows[1..], row);
      assert row in rows <==> row == rows[0] || row in rows[1..];
    }
  }

  lemma {:induction false} ValidMeans(s: Settings, rows: seq<QRow>, row: QRow)
    ensures row in SchemaValid(s, rows) <==> row in rows && !KeptOut(s, row)
  {
    hide KeptOut, SchemaInvalid;
    if rows != [] {
      KeptOutMeans(s, rows[0]);
      ValidMeans(s, rows[1..], row);
      assert row in rows <==> row == rows[0] || row in rows[1..];
    }
  }

  /** A row is eligible exactly if it is in the quarantine, asked for, not kept out by the policy and not stored. */
  lemma EligibleMeans(s: Settings, quarantine: seq<QRow>, stored: seq<Stored>, row: QRow)
    ensures row in Eligible(s, quarantine, stored) <==> Replayable(s, quarantine, stored, row)
  {
    hide KeptOut, Asked, AlreadyStored, Requested, SchemaValid;
    RequestedMeans(s, quarantine, row);
    ValidMeans(s, Requested(s, quarantine), row);
    StoredMeans(stored, row);
  }

  lemma BatchMeans(s: Settings, quarantine: seq<QRow>, stored: seq<Stored>, row: QRow)
    requires DistinctKeys(quarantine)
    ensures row in Batch(s, quarantine, stored) <==> Taken(s, quarantine, stored, row)
  {
    hide Eligible, Batch, Replayable;
    EligibleMeans(s, quarantine, stored, row);
    BatchFacts(s, quarantine, stored);
    if row in Eligible(s, quarantine, stored) {
      BatchIsFirst(s, quarantine, stored, row);
      forall r
        ensures r in Ahead(Eligible(s, quarantine, stored), row) <==> r in Preceding(s, quarantine, stored, row)
      {
        EligibleMeans(s, quarantine, stored, r);
        ReplayableIsIn(s, quarantine, stored, r);
      }
      assert Ahead(Eligible(s, quarantine, stored), row) == Preceding(s, quarantine, stored, row);
    }
  }

  lemma ReplayableIsIn(s: Settings, quarantine: seq<QRow>, stored: seq<Stored>, row: QRow)
    ensures Replayable(s, quarantine, stored, row) ==> row in quarantine
  {
  }

  /** A run may take up as many rows as configured, but at least one and at most ten thousand. */
  lemma LimitMeans(s: Settings)
    ensures 1 <= s.Limit() <= 10_000
    ensures 1 <= s.maxRows <= 10_000 ==> s.Limit() == s.maxRows
    ensures s.maxRows < 1 ==> s.Limit() == 1
    ensures s.maxRows > 10_000 ==> s.Limit() == 10_000
  {
  }

  // ----- Only what is asked for is stored -----

  /** A row of the quarantine that the run may store: asked for, not kept out, accepted by the rules. */
  predicate Stores(s: Settings, quarantine: seq<QRow>, one: Stored, row: QRow) {
    && row in quarantine && row.partition == one.partition && row.offset == one.offset
    && Asked(s, row) && !KeptOut(s, row) && s.verdict(row).Accept?
  }

  ghost predicate FromRun(s: Settings, quarantine: seq<QRow>, runId: string, one: Stored) {
    one.runId == runId && exists row :: Stores(s, quarantine, one, row)
  }

  lemma KeptIsFromRun(s: Settings, quarantine: seq<QRow>, stored: seq<Stored>, runId: string)
    ensures forall one :: one in StoredRows(Accepted(s, Batch(s, quarantine, stored)), runId)
              ==> FromRun(s, quarantine, runId, one)
  {
    hide KeptOut, Asked, Eligible, AlreadyStored;
    var batch := Batch(s, quarantine, stored);
    var kept := Accepted(s, batch);
    var more := StoredRows(kept, runId);
    forall one | one in more
      ensures FromRun(s, quarantine, runId, one)
    {
      var i :| 0 <= i < |more| && more[i] == one;
      assert kept[i] in kept && kept[i] in batch;
      OrderedInOrder(Eligible(s, quarantine, stored));
      assert kept[i] in Ordered(Eligible(s, quarantine, stored));
      EligibleMeans(s, quarantine, stored, kept[i]);
      assert Stores(s, quarantine, one, kept[i]);
    }
  }

  /** Whatever fails, a run only appends, and only rows of the quarantine that were asked for. */
  lemma RunStoresAsked(s: Settings, quarantine: seq<QRow>, st: State, runId: string, faults: Faults)
    ensures var rows := Run(s, quarantine, st, runId, faults).state.rows;
      && st.rows <= rows
      && forall i :: |st.rows| <= i < |rows| ==> FromRun(s, quarantine, runId, rows[i])
  {
    hide Run, Batch, Accepted, FromRun, StoredRows;
    RunAppends(s, quarantine, st, runId, faults);
    KeptIsFromRun(s, quarantine, st.rows, runId);
    var rows, more := Run(s, quarantine, st, runId, faults).state.rows,
                      StoredRows(Accepted(s, Batch(s, quarantine, st.rows)), runId);
    forall i | |st.rows| <= i < |rows|
      ensures FromRun(s, quarantine, runId, rows[i])
    {
      assert rows[i] == more[i - |st.rows|];
    }
  }

  /** Some replay among the events stored the row as it was asked to, or another writer streamed it. */
  ghost predicate Accounted(events: seq<Event>, one: Stored) {
    exists e :: e in events &&
      match e
      case Replayed(a) => FromRun(a.settings, a.quarantine, a.runId, one)
      case Streamed(rows) => one in rows
  }

  /** Over any sequence of replays and streams: every row they add was streamed, or asked for by a replay. */
  lemma {:induction false} OnlyAskedIsStored(st: State, events: seq<Event>)
    ensures var rows := History(st, events).rows;
      && st.rows <= rows
      && forall i :: |st.rows| <= i < |rows| ==> Accounted(events, rows[i])
    decreases |events|
  {
    hide Run, FromRun;
    if events != [] {
      var next := Next(st, events[0]);
      OnlyAskedIsStored(next, events[1..]);
      NextAccounted(st, events[0]);
      var rows := History(st, events).rows;
      forall i | |st.rows| <= i < |rows|
        ensures Accounted(events, rows[i])
      {
        if i < |next.rows| {
          assert rows[i] == next.rows[i];
          AccountedOn([events[0]], events, next.rows[i]);
        } else {
          AccountedOn(events[1..], events, rows[i]);
        }
      }
    }
  }

  lemma NextAccounted(st: State, e: Event)
    ensures st.rows <= Next(st, e).rows
    ensures forall i :: |st.rows| <= i < |Next(st, e).rows| ==> Accounted([e], Next(st, e).rows[i])
  {
    hide Run, FromRun;
    assert e in [e];
    match e {
      case Replayed(a) => RunStoresAsked(a.settings, a.quarantine, st, a.runId, a.faults);
      case Streamed(rows) => assert forall i :: |st.rows| <= i < |(st.rows + rows)| ==> (st.rows + rows)[i] in rows;
    }
  }

  lemma AccountedOn(some: seq<Event>, all: seq<Event>, one: Stored)
    requires Accounted(some, one) && forall e :: e in some ==> e in all
    ensures Accounted(all, one)
  {
    hide FromRun;
  }

  /** Every event is a replay that asks for some of these offsets, and for nothing else. */
  ghost predicate AskFor(events: seq<Event>, keys: set<RowKey>) {
    forall e :: e in events ==> e.Replayed? && e.attempt.settings.requested != {} && e.attempt.settings.requested <= keys
  }

  /** Replays that ask for some offsets leave all others alone. */
  lemma OthersUntouched(st: State, events: seq<Event>, keys: set<RowKey>, key: RowKey)
    requires AskFor(events, keys) && key !in keys
    ensures key in TableKeys(History(st, events).rows) <==> key in TableKeys(st.rows)
  {
    hide History, KeptOut;
    OnlyAskedIsStored(st, events);
    var rows := History(st, events).rows;
    forall i | |st.rows| <= i < |rows|
      ensures StoredKey(rows[i]) in keys
    {
      assert Accounted(events, rows[i]);
    }
    if key in TableKeys(st.rows) {
      var one :| one in st.rows && StoredKey(one) == key;
      assert one in rows;
    }
  }

  // ----- What an undisturbed run stores, and what a run reports -----

  lemma PausesMeans(s: Settings, quarantine: seq<QRow>)
    ensures PausesReplay(s, quarantine) <==> exists row :: row in quarantine && Asked(s, row) && PausedBy(s, row)
  {
    hide Asked, PausedBy, Pausing, Requested;
    if row :| row in Requested(s, quarantine) && Pausing(s, row) {
      RequestedMeans(s, quarantine, row);
      PausedMeans(s, row);
    }
    if row :| row in quarantine && Asked(s, row) && PausedBy(s, row) {
      RequestedMeans(s, quarantine, row);
      PausedMeans(s, row);
    }
  }

  /** A run pauses exactly if a row asked for shows something on which the policy pauses; it then changes nothing. */
  lemma RunPauses(s: Settings, quarantine: seq<QRow>, st: State, runId: string, faults: Faults)
    ensures var run := Run(s, quarantine, st, runId, faults);
      && (run.outcome == Paused <==> exists row :: row in quarantine && Asked(s, row) && PausedBy(s, row))
      && (run.outcome == Paused ==> run.state == st)
  {
    hide Asked, PausedBy, PausesReplay, Conclude, Batch, ReportOf, Accepted, StopsRules;
    PausesMeans(s, quarantine);
    ConcludePauses(PlanOf(s, quarantine, st.rows), st, runId, faults);
  }

  lemma ConcludePauses(plan: Plan, st: State, runId: string, faults: Faults)
    ensures var run := Conclude(plan, st, runId, faults);
      (run.outcome == Paused <==> plan.paused) && (plan.paused ==> run.state == st)
  {
    hide HoldsRun, StoredRows;
  }

  /** The run takes up a row of this key, and the rules accept it. */
  predicate StoresKey(s: Settings, quarantine: seq<QRow>, stored: seq<Stored>, key: RowKey) {
    exists row :: row in quarantine && KeyOf(row) == key && Taken(s, quarantine, stored, row) && s.verdict(row).Accept?
  }

  /** An undisturbed run under a fresh run id that neither pauses nor is stopped adds exactly the keys it may store. */
  lemma UndisturbedRun(s: Settings, quarantine: seq<QRow>, st: State, runId: string, key: RowKey)
    requires DistinctKeys(quarantine) && Unused(st, runId)
    requires forall row :: row in quarantine && Asked(s, row) ==> !PausedBy(s, row)
    requires forall row :: Taken(s, quarantine, st.rows, row) ==> !s.verdict(row).Stop?
    ensures key in TableKeys(Run(s, quarantine, st, runId, SMOOTH).state.rows)
       <==> key in TableKeys(st.rows) || StoresKey(s, quarantine, st.rows, key)
  {
    hide Batch, Asked, PausedBy, Taken, Conclude, StoredRows, TableKeys, Run;
    PausesMeans(s, quarantine);
    var batch := Batch(s, quarantine, st.rows);
    forall row
      ensures row in batch <==> Taken(s, quarantine, st.rows, row)
    {
      BatchMeans(s, quarantine, st.rows, row);
    }
    var kept := Accepted(s, batch);
    RunSmoothly(s, quarantine, st, runId);
    StoredKeys(kept, runId);
    AddedKeys(st.rows, StoredRows(kept, runId));
    forall row | row in kept
      ensures row in quarantine
    {
      TakenIsIn(s, quarantine, st.rows, row);
    }
    KeysAre(kept, key);
  }

  lemma TakenIsIn(s: Settings, quarantine: seq<QRow>, stored: seq<Stored>, row: QRow)
    requires Taken(s, quarantine, stored, row)
    ensures row in quarantine
  {
  }

  lemma RunSmoothly(s: Settings, quarantine: seq<QRow>, st: State, runId: string)
    requires !PausesReplay(s, quarantine) && !StopsRules(s, Batch(s, quarantine, st.rows)) && Unused(st, runId)
    ensures Run(s, quarantine, st, runId, SMOOTH).state.rows
         == st.rows + StoredRows(Accepted(s, Batch(s, quarantine, st.rows)), runId)
  {
    ConcludeSmoothly(PlanOf(s, quarantine, st.rows), st, runId);
  }

  lemma AddedKeys(stored: seq<Stored>, more: seq<Stored>)
    ensures TableKeys(stored + more) == TableKeys(stored) + TableKeys(more)
  {
  }

  lemma KeysAre(rows: seq<QRow>, key: RowKey)
    ensures key in RowKeys(rows) <==> exists row :: row in rows && KeyOf(row) == key
  {
  }

  // The rows of a quarantine by what a run makes of them.

  function AskedRows(s: Settings, quarantine: seq<QRow>): set<QRow> {
    set row | row in quarantine && Asked(s, row)
  }

  function KeptOutRows(s: Settings, quarantine: seq<QRow>): set<QRow> {
    set row | row in quarantine && Asked(s, row) && KeptOut(s, row)
  }

  function SkippedRows(s: Settings, quarantine: seq<QRow>, stored: seq<Stored>): set<QRow> {
    set row | row in quarantine && Asked(s, row) && !KeptOut(s, row) && AlreadyStored(stored, row)
  }

  function ReplayableRows(s: Settings, quarantine: seq<QRow>, stored: seq<Stored>): set<QRow> {
    set row | row in quarantine && Replayable(s, quarantine, stored, row)
  }

  function AcceptedRows(s: Settings, quarantine: seq<QRow>, stored: seq<Stored>): set<QRow> {
    set row | row in quarantine && Taken(s, quarantine, stored, row) && s.verdict(row).Accept?
  }

  function RejectedRows(s: Settings, quarantine: seq<QRow>, stored: seq<Stored>): set<QRow> {
    set row | row in quarantine && Taken(s, quarantine, stored, row) && !s.verdict(row).Accept?
  }

  lemma Difference<T>(all: set<T>, some: set<T>, rest: set<T>)
    requires some <= all && rest == all - some
    ensures |all| == |some| + |rest|
  {
    assert all == some + rest;
  }

  lemma AskedCount(s: Settings, quarantine: seq<QRow>)
    requires DistinctKeys(quarantine)
    ensures |Requested(s, quarantine)| == |AskedRows(s, quarantine)|
    ensures s.requested == {} ==> |AskedRows(s, quarantine)| == |quarantine|
    ensures |Requested(s, quarantine)| - |SchemaValid(s, Requested(s, quarantine))| == |KeptOutRows(s, quarantine)|
  {
    hide KeptOut, Requested, SchemaValid;
    var requested := Requested(s, quarantine);
    var valid := SchemaValid(s, requested);
    FiltersKeepDistinct(s, quarantine, []);
    FiltersKeepDistinct(s, requested, []);
    DistinctSize(requested);
    DistinctSize(valid);
    DistinctSize(quarantine);
    forall row
      ensures row in requested <==> row in quarantine && Asked(s, row)
      ensures row in valid <==> row in requested && !KeptOut(s, row)
    {
      RequestedMeans(s, quarantine, row);
      ValidMeans(s, requested, row);
    }
    assert RowSet(requested) == AskedRows(s, quarantine);
    Difference(RowSet(requested), RowSet(valid), KeptOutRows(s, quarantine));
    if s.requested == {} {
      assert AskedRows(s, quarantine) == RowSet(quarantine);
    }
  }

  lemma EligibleCount(s: Settings, quarantine: seq<QRow>, stored: seq<Stored>)
    requires DistinctKeys(quarantine)
    ensures |Eligible(s, quarantine, stored)| == |ReplayableRows(s, quarantine, stored)|
    ensures |SchemaValid(s, Requested(s, quarantine))| - |Eligible(s, quarantine, stored)|
         == |SkippedRows(s, quarantine, stored)|
  {
    hide KeptOut, Asked, AlreadyStored, Requested, SchemaValid, Eligible;
    var requested := Requested(s, quarantine);
    var valid, eligible := SchemaValid(s, requested), Eligible(s, quarantine, stored);
    FiltersKeepDistinct(s, quarantine, stored);
    FiltersKeepDistinct(s, requested, stored);
    EligibleDistinct(s, quarantine, stored);
    DistinctSize(valid);
    DistinctSize(eligible);
    forall row
      ensures row in valid <==> row in quarantine && Asked(s, row) && !KeptOut(s, row)
      ensures row in eligible <==> row in valid && !AlreadyStored(stored, row)
    {
      RequestedMeans(s, quarantine, row);
      ValidMeans(s, requested, row);
      EligibleMeans(s, quarantine, stored, row);
    }
    assert RowSet(eligible) == ReplayableRows(s, quarantine, stored);
    Difference(RowSet(valid), RowSet(eligible), SkippedRows(s, quarantine, stored));
  }

  lemma BatchCount(s: Settings, quarantine: seq<QRow>, stored: seq<Stored>)
    requires DistinctKeys(quarantine)
    ensures var batch := Batch(s, quarantine, stored);
      && |Accepted(s, batch)| == |AcceptedRows(s, quarantine, stored)|
      && |batch| - |Accepted(s, batch)| == |RejectedRows(s, quarantine, stored)|
  {
    hide Batch, Taken;
    var batch := Batch(s, quarantine, stored);
    BatchFacts(s, quarantine, stored);
    FiltersKeepDistinct(s, batch, stored);
    DistinctSize(batch);
    DistinctSize(Accepted(s, batch));
    forall row
      ensures row in batch <==> row in quarantine && Taken(s, quarantine, stored, row)
    {
      BatchMeans(s, quarantine, stored, row);
      if Taken(s, quarantine, stored, row) {
        TakenIsIn(s, quarantine, stored, row);
      }
    }
    assert RowSet(Accepted(s, batch)) == AcceptedRows(s, quarantine, stored);
    Difference(RowSet(batch), RowSet(Accepted(s, batch)), RejectedRows(s, quarantine, stored));
  }

  /**
   What a report counts. Input are the rows asked for, all of them if nothing is; skipped the valid ones already
   stored; deferred the replayable ones beyond the limit; stored those taken up and accepted; and failed those the
   policy keeps out and those taken up and not accepted.
   */
  lemma ReportMeans(s: Settings, quarantine: seq<QRow>, stored: seq<Stored>)
    requires DistinctKeys(quarantine)
    ensures var r := ReportOf(s, quarantine, stored);
      var replayable := |ReplayableRows(s, quarantine, stored)|;
      && r.input == |AskedRows(s, quarantine)| && (s.requested == {} ==> r.input == |quarantine|)
      && r.skipped == |SkippedRows(s, quarantine, stored)|
      && r.deferred == (if replayable > s.Limit() then replayable - s.Limit() else 0)
      && r.stored == |AcceptedRows(s, quarantine, stored)|
      && r.ruleRejected == |RejectedRows(s, quarantine, stored)|
      && r.failed == |KeptOutRows(s, quarantine)| + r.ruleRejected
  {
    hide Requested, SchemaValid, Eligible, Batch, Accepted, s.Limit, RangesOf;
    hide AskedRows, KeptOutRows, SkippedRows, ReplayableRows, AcceptedRows, RejectedRows;
    AskedCount(s, quarantine);
    EligibleCount(s, quarantine, stored);
    BatchCount(s, quarantine, stored);
    BatchFacts(s, quarantine, stored);
    CountsAddUp(s, quarantine, stored);
  }

  // ----- One of two offsets asked for -----

  function SecondOnly(): Settings {
    OneAtATime().(requested := {(0, 1)})
  }

  /** Of two replayable offsets the one asked for is stored, and the other is not. */
  lemma OnlySecondStored()
    ensures TableKeys(Run(SecondOnly(), [FIRST, SECOND], State([], map[]), "r", SMOOTH).state.rows) == {(0, 1)}
  {
    var s, both, st := SecondOnly(), [FIRST, SECOND], State([], map[]);
    assert Asked(s, SECOND) && !Asked(s, FIRST) && !KeptOut(s, SECOND) && !PausedBy(s, SECOND);
    assert both[0] == FIRST && both[1] == SECOND;
    assert Replayable(s, both, [], SECOND);
    assert !Before(SECOND.At(), SECOND.At()) by {
      BeforeOrder(SECOND.At(), SECOND.At());
    }
    assert Preceding(s, both, [], SECOND) == {};
    assert Taken(s, both, [], SECOND) && KeyOf(SECOND) == (0, 1);
    hide Run, KeptOut, Asked, PausedBy, Preceding, Before;
    forall key
      ensures key in TableKeys(Run(s, both, st, "r", SMOOTH).state.rows) <==> key == (0, 1)
    {
      UndisturbedRun(s, both, st, "r", key);
    }
  }
}
