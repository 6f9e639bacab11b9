/**
 What holds over any sequence of replays: nothing is stored twice, the counts add up, and which rows are
 stored in the end.
 */
module QuarantineReplayLaws {
  import opened Wrappers
  import opened OffsetRanges
  import opened QuarantineReplay
  import opened Sets

  // ----- Safety -----

  datatype Attempt = Attempt(settings: Settings, quarantine: seq<QRow>, runId: string, faults: Faults)

  /** A replay is tried, or another writer of the table, such as the stream, stores rows in between. */
  datatype Event = Replayed(attempt: Attempt) | Streamed(rows: seq<Stored>)

  function Try(a: Attempt, st: State): Result {
    Run(a.settings, a.quarantine, st, a.runId, a.faults)
  }

  function Next(st: State, e: Event): State {
    match e
    case Replayed(a) => Try(a, st).state
    case Streamed(rows) => st.(rows := st.rows + rows)
  }

  function History(st: State, events: seq<Event>): State
    decreases |events|
  {
    if events == [] then st else History(Next(st, events[0]), events[1..])
  }

  /** Quarantines name no offset twice, and other writers store no offset that is stored already. */
  predicate WellFormed(st: State, events: seq<Event>)
    decreases |events|
  {
    events == []
    || (&& (match events[0]
            case Replayed(a) => DistinctKeys(a.quarantine)
            case Streamed(rows) => StoredOnce(st.rows + rows))
        && WellFormed(Next(st, events[0]), events[1..]))
  }

  lemma ConcludeAppends(plan: Plan, st: State, runId: string, faults: Faults)
    ensures var rows := Conclude(plan, st, runId, faults).state.rows;
      rows == st.rows || rows == st.rows + StoredRows(plan.kept, runId)
  {
  }

  /** A run leaves the rows as they are, or appends the accepted rows of its batch. */
  lemma RunAppends(s: Settings, quarantine: seq<QRow>, st: State, runId: string, faults: Faults)
    ensures var rows := Run(s, quarantine, st, runId, faults).state.rows;
      rows == st.rows || rows == st.rows + StoredRows(Accepted(s, Batch(s, quarantine, st.rows)), runId)
  {
    ConcludeAppends(PlanOf(s, quarantine, st.rows), st, runId, faults);
  }

  lemma RunKeepsOnce(s: Settings, quarantine: seq<QRow>, st: State, runId: string, faults: Faults)
    requires StoredOnce(st.rows) && DistinctKeys(quarantine)
    ensures StoredOnce(Run(s, quarantine, st, runId, faults).state.rows)
    ensures st.rows <= Run(s, quarantine, st, runId, faults).state.rows
  {
    RunAppends(s, quarantine, st, runId, faults);
    AppendStaysOnce(s, quarantine, st.rows, runId);
  }

  /** Whatever fails, however often a run id is tried, and whoever else stores rows: no offset is stored twice. */
  lemma {:induction false} NeverStoredTwice(st: State, events: seq<Event>)
    requires StoredOnce(st.rows) && WellFormed(st, events)
    ensures StoredOnce(History(st, events).rows)
    ensures st.rows <= History(st, events).rows
    decreases |events|
  {
    hide Run;
    if events != [] {
      match events[0] {
        case Replayed(a) => RunKeepsOnce(a.settings, a.quarantine, st, a.runId, a.faults);
        case Streamed(_) =>
      }
      NeverStoredTwice(Next(st, events[0]), events[1..]);
    }
  }

  /** Every requested row is stored, skipped, failed or deferred; failed means schema-invalid or rejected. */
  lemma CountsAddUp(s: Settings, quarantine: seq<QRow>, stored: seq<Stored>)
    requires DistinctKeys(quarantine)
    ensures var r := ReportOf(s, quarantine, stored);
      var batch := Batch(s, quarantine, stored);
      && r.input == r.stored + r.skipped + r.failed + r.deferred
      && r.skipped >= 0 && r.deferred >= 0 && r.ruleRejected >= 0
      && r.failed == |Requested(s, quarantine)| - |SchemaValid(s, Requested(s, quarantine))| + r.ruleRejected
      && r.ruleRejected == |batch| - |Accepted(s, batch)|
      && r.deferred == |Eligible(s, quarantine, stored)| - |batch|
  {
    BatchFacts(s, quarantine, stored);
  }

  /** The reported ranges cover the offsets of the batch and nothing else; a commit always has some. */
  lemma RangesAreEvidence(s: Settings, quarantine: seq<QRow>, stored: seq<Stored>)
    ensures var r, batch := ReportOf(s, quarantine, stored), Batch(s, quarantine, stored);
      Describes(r.ranges, PointsOf(batch)) && (r.stored > 0 ==> r.ranges != [])
  {
    var batch := Batch(s, quarantine, stored);
    if batch == [] {
      assert PointsOf(batch) == [];
    } else {
      ReplayDescribes(PointsOf(batch));
      assert PointsOf(batch)[0] in PointsOf(batch);
      assert Covers(RangesOf(batch), PointsOf(batch)[0]);
    }
  }

  /** A run in which no step fails. */
  const SMOOTH := Faults(Committed, ManifestWritten, RolledBack)

  // ----- A run id that is already in the table -----

  /** A run that reports a commit has stored what it counts exactly if the table held no row of its run id. */
  lemma ReportedIsStored(s: Settings, quarantine: seq<QRow>, st: State, runId: string, faults: Faults)
    requires var o := Run(s, quarantine, st, runId, faults).outcome; o.Finished? && o.report.commit.Some?
    ensures var run := Run(s, quarantine, st, runId, faults);
      && run.outcome.report.stored > 0
      && (|run.state.rows| == |st.rows| + run.outcome.report.stored <==> !HoldsRun(st.rows, runId))
      && (HoldsRun(st.rows, runId) ==> run.state.rows == st.rows)
  {
    CommitIsStored(PlanOf(s, quarantine, st.rows), st, runId, faults);
  }

  lemma CommitIsStored(plan: Plan, st: State, runId: string, faults: Faults)
    requires plan.report.commit == None && plan.report.stored == |plan.kept|
    requires var o := Conclude(plan, st, runId, faults).outcome; o.Finished? && o.report.commit.Some?
    ensures var run := Conclude(plan, st, runId, faults);
      && run.outcome.report.stored > 0
      && (|run.state.rows| == |st.rows| + run.outcome.report.stored <==> !HoldsRun(st.rows, runId))
      && (HoldsRun(st.rows, runId) ==> run.state.rows == st.rows)
  {
  }

  /** The run goes on to publish: it commits its rows, or the table holds rows of its run id already. */
  predicate Publishing(plan: Plan, st: State, runId: string, faults: Faults) {
    && !plan.paused && !plan.stopped && plan.kept != []
    && (faults.commit.Committed? || (runId != "" && exists row :: row in st.rows && row.runId == runId))
  }

  /**
   The manifests a run leaves. It writes none unless it publishes, and none over an existing directory; a write that
   is lost leaves nothing, a torn one a directory without its marker, any other a complete one. The run ends well,
   with a commit, exactly if it wrote a complete manifest and saw that it did.
   */
  lemma ManifestsLeft(plan: Plan, st: State, runId: string, faults: Faults)
    requires plan.report.commit == None
    ensures var run := Conclude(plan, st, runId, faults);
      var writes := Publishing(plan, st, runId, faults) && runId !in st.manifests;
      && (run.state.manifests == match faults.manifest
          case ManifestLost => st.manifests
          case ManifestTorn => if writes then st.manifests[runId := false] else st.manifests
          case _ => if writes then st.manifests[runId := true] else st.manifests)
      && (run.outcome.Finished? && run.outcome.report.commit.Some? <==> writes && faults.manifest.ManifestWritten?)
      && (run.outcome.Finished? && run.outcome.report.commit.None? <==>
            !plan.paused && !plan.stopped && plan.kept == [])
  {
  }

  /** The table holds a row of this run id, so that the run commits nothing. */
  predicate Reuses(st: State, runId: string) {
    runId != "" && exists row :: row in st.rows && row.runId == runId
  }

  /** The append took effect, and stays: it was seen and published, or nothing took it back. */
  predicate LeavesRows(st: State, runId: string, faults: Faults) {
    match faults.commit
    case Committed => (runId !in st.manifests && faults.manifest.ManifestWritten?) || faults.rollback.RollbackLost?
    case BeforeWrite => false
    case UnseenWrite => true
    case AfterWrite => faults.rollback.RollbackLost?
  }

  /**
   The rows a run leaves, and how it fails: without any commit to reuse it appends the accepted rows exactly if the
   append takes effect and stays; the commit fails exactly if the append was not seen to succeed; and a publication
   that fails says that it was rolled back exactly if a fresh commit was, verifiably.
   */
  lemma RowsLeft(plan: Plan, st: State, runId: string, faults: Faults)
    requires !plan.paused && !plan.stopped && plan.kept != []
    ensures var run := Conclude(plan, st, runId, faults);
      && run.state.rows == (if !Reuses(st, runId) && LeavesRows(st, runId, faults)
                            then st.rows + StoredRows(plan.kept, runId) else st.rows)
      && (run.outcome == CommitFailed <==> !Reuses(st, runId) && !faults.commit.Committed?)
      && (run.outcome.PublishFailed? <==>
            (Reuses(st, runId) || faults.commit.Committed?)
            && (runId in st.manifests || !faults.manifest.ManifestWritten?))
      && (run.outcome.PublishFailed? ==>
            (run.outcome.rolledBack <==> !Reuses(st, runId) && faults.rollback.RolledBack?))
  {
    hide StoredRows;
  }

  const FIRST := QRow("t", 0, 0, "")
  const SECOND := QRow("t", 0, 1, "")

  lemma BothRequested(s: Settings)
    requires s.requested == OneAtATime().requested && s.Applied() == OneAtATime().Applied() && s.facts == OneAtATime().facts
    ensures var both := [FIRST, SECOND];
      Requested(s, both) == both && SchemaValid(s, both) == both && Ordered(both) == both
    ensures Ordered([SECOND]) == [SECOND]
  {
    var both := [FIRST, SECOND];
    assert both[1..] == [SECOND] && [SECOND][1..] == [];
    assert Requested(s, []) == [] && SchemaValid(s, []) == [] && Ordered([]) == [];
    assert Requested(s, [SECOND]) == [SECOND] && SchemaValid(s, [SECOND]) == [SECOND];
    assert Ordered([SECOND]) == [SECOND];
    assert Ordered(both) == InsertRow(FIRST, [SECOND]);
  }

  lemma SecondLeft(left: seq<Stored>)
    requires left == [Stored(0, 0, "r")]
    ensures TableKeys(left) == {(0, 0)} && NotStored([FIRST, SECOND], left) == [SECOND]
  {
    assert left[0] in left;
    assert [FIRST, SECOND][1..] == [SECOND] && [SECOND][1..] == [];
    assert NotStored([], left) == [];
    assert NotStored([SECOND], left) == [SECOND];
  }

  lemma PlanWith(stored: seq<Stored>, rows: seq<QRow>, row: QRow)
    requires NotStored([FIRST, SECOND], stored) == rows && Ordered(rows) == rows && rows != [] && rows[0] == row
    ensures var plan := PlanOf(OneAtATime(), [FIRST, SECOND], stored);
      !plan.paused && !plan.stopped && plan.kept == [row] && plan.report.stored == 1
  {
    var s := OneAtATime();
    BothRequested(s);
    OneAccepted(s, row);
    assert Batch(s, [FIRST, SECOND], stored) == [row];
  }

  lemma PlansOneAtATime()
    ensures var plan := PlanOf(OneAtATime(), [FIRST, SECOND], []);
      !plan.paused && !plan.stopped && plan.kept == [FIRST]
    ensures var plan := PlanOf(OneAtATime(), [FIRST, SECOND], [Stored(0, 0, "r")]);
      !plan.paused && !plan.stopped && plan.kept == [SECOND] && plan.report.stored == 1
  {
    BothRequested(OneAtATime());
    NotStoredEmpty([FIRST, SECOND]);
    PlanWith([], [FIRST, SECOND], FIRST);
    SecondLeft([Stored(0, 0, "r")]);
    PlanWith([Stored(0, 0, "r")], [SECOND], SECOND);
  }

  lemma OneAccepted(s: Settings, row: QRow)
    requires s.verdict(row).Accept?
    ensures Accepted(s, [row]) == [row]
  {
    assert Accepted(s, []) == [];
  }

  /**
   A commit that failed after its write and was not rolled back leaves a row of its run behind, whether the
   rollback had no effect or nothing told that there was something to roll back. The same run id, tried again,
   reports its next row as stored and publishes a manifest, but the table does not hold the row.
   */
  lemma ReportedButNotStored(faults: Faults)
    requires faults.commit.UnseenWrite? || (faults.commit.AfterWrite? && faults.rollback.RollbackLost?)
    ensures var s := OneAtATime();
      var failed := Run(s, [FIRST, SECOND], State([], map[]), "r", faults);
      var again := Run(s, [FIRST, SECOND], failed.state, "r", SMOOTH);
      && failed.outcome == CommitFailed
      && again.outcome.Finished? && again.outcome.report.stored == 1 && again.state.manifests == map["r" := true]
      && KeyOf(SECOND) !in TableKeys(again.state.rows)
  {
    var left := [Stored(0, 0, "r")];
    PlansOneAtATime();
    SecondLeft(left);
    LostCommit(PlanOf(OneAtATime(), [FIRST, SECOND], []), left, faults);
    LostRetry(PlanOf(OneAtATime(), [FIRST, SECOND], left), left);
  }

  lemma LostCommit(plan: Plan, left: seq<Stored>, faults: Faults)
    requires faults.commit.UnseenWrite? || (faults.commit.AfterWrite? && faults.rollback.RollbackLost?)
    requires !plan.paused && !plan.stopped && plan.kept == [FIRST] && left == [Stored(0, 0, "r")]
    ensures Conclude(plan, State([], map[]), "r", faults)
         == Result(State(left, map[]), CommitFailed)
  {
    assert StoredRows([FIRST], "r") == left && [] + left == left;
  }

  lemma LostRetry(plan: Plan, left: seq<Stored>)
    requires !plan.paused && !plan.stopped && plan.kept == [SECOND] && left == [Stored(0, 0, "r")]
    ensures Conclude(plan, State(left, map[]), "r", SMOOTH)
         == Result(State(left, map["r" := true]), Finished(plan.report.(commit := Some(Reuse))))
  {
    assert left[0] in left && HoldsRun(left, "r");
  }

  function OneAtATime(): Settings {
    Settings({}, Policy("allow", "quarantine", "quarantine", "preserve"), false,
             (row: QRow) => Facts(false, false, false, false), (row: QRow) => Accept, 1)
  }

  // ----- What reports and manifests say, over any number of attempts -----

  /** Every stored row of one of these runs is of a run with a manifest directory; rows of others are free. */
  predicate Attributed(st: State, ids: set<string>) {
    forall row :: row in st.rows && row.runId in ids && row.runId != "" ==> row.runId in st.manifests
  }

  /** The run ids of the replays tried. */
  function ReplayIds(events: seq<Event>): set<string> {
    set i | 0 <= i < |events| && events[i].Replayed? :: events[i].attempt.runId
  }

  /** No replay loses a rollback or an append, and no other writer uses one of these run ids. */
  predicate Orderly(events: seq<Event>, ids: set<string>) {
    forall i :: 0 <= i < |events| ==>
      match events[i]
      case Replayed(a) => Tidy(a.faults)
      case Streamed(rows) => forall row :: row in rows ==> row.runId !in ids
  }

  /** No rollback fails without effect, and no append takes effect unseen. */
  predicate Tidy(faults: Faults) {
    !faults.rollback.RollbackLost? && !faults.commit.UnseenWrite?
  }

  lemma StaysAttributed(plan: Plan, st: State, runId: string, faults: Faults, ids: set<string>)
    requires Attributed(st, ids) && Tidy(faults)
    ensures Attributed(Conclude(plan, st, runId, faults).state, ids)
  {
  }

  lemma CommitIsWritten(plan: Plan, st: State, runId: string, faults: Faults, ids: set<string>)
    requires plan.report.commit == None && Attributed(st, ids) && runId in ids
    requires var o := Conclude(plan, st, runId, faults).outcome; o.Finished? && o.report.commit.Some?
    ensures var run := Conclude(plan, st, runId, faults);
      run.outcome.report.commit == Some(Written) && run.state.rows == st.rows + StoredRows(plan.kept, runId)
  {
  }

  /** A run that reports a commit, on rows that attribute its id, wrote it and stored exactly the rows it counts. */
  lemma ReportIsStored(
    s: Settings, quarantine: seq<QRow>, st: State, runId: string, faults: Faults, ids: set<string>)
    requires Attributed(st, ids) && runId in ids
    requires var o := Run(s, quarantine, st, runId, faults).outcome; o.Finished? && o.report.commit.Some?
    ensures var run, kept := Run(s, quarantine, st, runId, faults), Accepted(s, Batch(s, quarantine, st.rows));
      && run.outcome.report.commit == Some(Written) && run.outcome.report.stored == |kept| > 0
      && run.state.rows == st.rows + StoredRows(kept, runId)
  {
    hide Batch, Accepted, StoredRows, HoldsRun;
    var plan := PlanOf(s, quarantine, st.rows);
    CommitIsWritten(plan, st, runId, faults, ids);
  }

  lemma {:induction false} RowsOnlyGrow(st: State, events: seq<Event>)
    ensures st.rows <= History(st, events).rows
    decreases |events|
  {
    hide Run;
    if events != [] {
      if events[0].Replayed? {
        var a := events[0].attempt;
        RunAppends(a.settings, a.quarantine, st, a.runId, a.faults);
      }
      RowsOnlyGrow(Next(st, events[0]), events[1..]);
    }
  }

  lemma NextStaysAttributed(st: State, e: Event, ids: set<string>)
    requires Attributed(st, ids) && Orderly([e], ids)
    ensures Attributed(Next(st, e), ids)
  {
    assert [e][0] == e;
    match e
    case Replayed(a) => StaysAttributed(PlanOf(a.settings, a.quarantine, st.rows), st, a.runId, a.faults, ids);
    case Streamed(rows) =>
  }

  lemma {:induction false} AllStayAttributed(st: State, events: seq<Event>, ids: set<string>)
    requires Attributed(st, ids) && Orderly(events, ids)
    ensures Attributed(History(st, events), ids)
    decreases |events|
  {
    hide Next, Attributed;
    if events != [] {
      assert Orderly([events[0]], ids) && Orderly(events[1..], ids);
      NextStaysAttributed(st, events[0], ids);
      AllStayAttributed(Next(st, events[0]), events[1..], ids);
    }
  }

  lemma {:induction false} HistorySplit(st: State, events: seq<Event>, k: nat)
    requires k < |events|
    ensures History(st, events) == History(Next(History(st, events[..k]), events[k]), events[k + 1..])
    decreases |events|
  {
    hide Next;
    if k > 0 {
      assert events[..k][1..] == events[1..][..k - 1] && events[1..][k..] == events[k + 1..];
      HistorySplit(Next(st, events[0]), events[1..], k - 1);
    }
  }

  /**
   Replays of which none loses a rollback or an append, among any appends of other writers under their own run ids,
   on a table whose rows of the run ids tried are all of runs with a manifest directory: whenever a replay reports
   a commit, it appended the accepted rows of its batch, and they are in the table ever after.
   */
  lemma ReportsAreStored(st: State, events: seq<Event>, k: nat)
    requires Attributed(st, ReplayIds(events)) && Orderly(events, ReplayIds(events))
    requires k < |events| && events[k].Replayed?
    requires var o := Try(events[k].attempt, History(st, events[..k])).outcome; o.Finished? && o.report.commit.Some?
    ensures var a, before := events[k].attempt, History(st, events[..k]);
      var kept := Accepted(a.settings, Batch(a.settings, a.quarantine, before.rows));
      var report := Try(a, before).outcome.report;
      && report.commit == Some(Written) && report.stored == |kept| > 0
      && before.rows + StoredRows(kept, a.runId) <= History(st, events).rows
  {
    hide Run, Batch, Accepted, StoredRows, History;
    var a, before, ids := events[k].attempt, History(st, events[..k]), ReplayIds(events);
    assert events[k].attempt.runId in ids;
    AllStayAttributed(st, events[..k], ids);
    ReportIsStored(a.settings, a.quarantine, before, a.runId, a.faults, ids);
    HistorySplit(st, events, k);
    RowsOnlyGrow(Next(before, events[k]), events[k + 1..]);
  }

  /** The run leaves a complete manifest where none was. */
  predicate LeavesManifest(st: State, runId: string, after: State) {
    runId !in st.manifests && runId in after.manifests && after.manifests[runId]
  }

  /**
   The rows of a complete manifest are in the table exactly if the table held no row of the run before, and the
   manifest was seen to be complete or the rollback had no effect.
   */
  lemma ManifestIsStored(s: Settings, quarantine: seq<QRow>, st: State, runId: string, faults: Faults)
    requires DistinctKeys(quarantine) && LeavesManifest(st, runId, Run(s, quarantine, st, runId, faults).state)
    ensures var kept := Accepted(s, Batch(s, quarantine, st.rows));
      RowKeys(kept) <= TableKeys(Run(s, quarantine, st, runId, faults).state.rows)
      <==> !HoldsRun(st.rows, runId) && (faults.manifest.ManifestWritten? || faults.rollback.RollbackLost?)
  {
    BatchFacts(s, quarantine, st.rows);
    ManifestOf(PlanOf(s, quarantine, st.rows), st, runId, faults);
  }

  lemma ManifestOf(plan: Plan, st: State, runId: string, faults: Faults)
    requires LeavesManifest(st, runId, Conclude(plan, st, runId, faults).state)
    requires forall row :: row in plan.kept ==> KeyOf(row) !in TableKeys(st.rows)
    ensures RowKeys(plan.kept) <= TableKeys(Conclude(plan, st, runId, faults).state.rows)
       <==> !HoldsRun(st.rows, runId) && (faults.manifest.ManifestWritten? || faults.rollback.RollbackLost?)
  {
    var rows, more := Conclude(plan, st, runId, faults).state.rows, StoredRows(plan.kept, runId);
    StoredKeys(plan.kept, runId);
    assert TableKeys(st.rows + more) == TableKeys(st.rows) + TableKeys(more);
    assert plan.kept[0] in plan.kept && KeyOf(plan.kept[0]) in RowKeys(plan.kept);
    assert rows == st.rows || rows == st.rows + more;
  }

  // ----- Progress -----

  function Smooth(s: Settings, quarantine: seq<QRow>, st: State, runIds: seq<string>): State
    decreases |runIds|
  {
    if runIds == [] then st
    else Smooth(s, quarantine, Run(s, quarantine, st, runIds[0], SMOOTH).state, runIds[1..])
  }

  predicate Unused(st: State, runId: string) {
    runId !in st.manifests && forall row :: row in st.rows ==> row.runId != runId
  }

  predicate Fresh(st: State, runIds: seq<string>) {
    && (forall i :: 0 <= i < |runIds| ==> Unused(st, runIds[i]))
    && (forall i, j :: 0 <= i < j < |runIds| ==> runIds[i] != runIds[j])
  }

  /** Nothing pauses the replay and no eligible row stops the rules. */
  predicate Runnable(s: Settings, quarantine: seq<QRow>, st: State) {
    && !PausesReplay(s, quarantine)
    && forall row :: row in Eligible(s, quarantine, st.rows) ==> !s.verdict(row).Stop?
  }

  lemma ConcludeSmoothly(plan: Plan, st: State, runId: string)
    requires !plan.paused && !plan.stopped && Unused(st, runId)
    ensures var next := Conclude(plan, st, runId, SMOOTH).state;
      && next.rows == st.rows + StoredRows(plan.kept, runId)
      && (forall id :: id in next.manifests ==> id in st.manifests || id == runId)
  {
    if plan.kept == [] {
      assert st.rows + StoredRows([], runId) == st.rows;
    }
  }

  lemma SmoothStep(s: Settings, quarantine: seq<QRow>, st: State, runId: string)
    requires DistinctKeys(quarantine) && Runnable(s, quarantine, st) && Unused(st, runId)
    ensures var next := Run(s, quarantine, st, runId, SMOOTH).state;
      && next.rows == st.rows + StoredRows(Accepted(s, Batch(s, quarantine, st.rows)), runId)
      && (forall id :: id in next.manifests ==> id in st.manifests || id == runId)
      && Runnable(s, quarantine, next)
  {
    BatchFacts(s, quarantine, st.rows);
    ConcludeSmoothly(PlanOf(s, quarantine, st.rows), st, runId);
    EligibleAfter(s, quarantine, st.rows, runId);
  }

  lemma FreshNext(s: Settings, quarantine: seq<QRow>, st: State, runIds: seq<string>)
    requires DistinctKeys(quarantine) && Runnable(s, quarantine, st) && Fresh(st, runIds) && runIds != []
    ensures Fresh(Run(s, quarantine, st, runIds[0], SMOOTH).state, runIds[1..])
  {
    SmoothStep(s, quarantine, st, runIds[0]);
    var next := Run(s, quarantine, st, runIds[0], SMOOTH).state;
    forall i | 0 <= i < |runIds[1..]|
      ensures Unused(next, runIds[1..][i])
    {
      assert runIds[1..][i] == runIds[i + 1] && Unused(st, runIds[i + 1]);
    }
  }

  lemma {:induction false} AllAccepted(s: Settings, rows: seq<QRow>)
    requires forall row :: row in rows ==> s.verdict(row).Accept?
    ensures Accepted(s, rows) == rows
  {
    if rows != [] {
      assert rows[0] in rows;
      AllAccepted(s, rows[1..]);
    }
  }

  /** n after k times taking away the limit, not below zero. */
  function After(n: int, k: nat, limit: int): int
    decreases k
  {
    if k == 0 then n else After(AtLeast(0, n - limit), k - 1, limit)
  }

  lemma {:induction false} AfterIsMultiple(n: nat, k: nat, limit: nat)
    ensures After(n, k, limit) == AtLeast(0, n - k * limit)
    decreases k
  {
    if k > 0 {
      AfterIsMultiple(AtLeast(0, n - limit), k - 1, limit);
      assert k * limit == limit + (k - 1) * limit && (k - 1) * limit >= 0;
    }
  }

  predicate AcceptsAll(s: Settings, quarantine: seq<QRow>, st: State) {
    && !PausesReplay(s, quarantine)
    && forall row :: row in Eligible(s, quarantine, st.rows) ==> s.verdict(row).Accept?
  }

  /** How many rows are still to be replayed. */
  function Pending(s: Settings, quarantine: seq<QRow>, st: State): nat {
    |Eligible(s, quarantine, st.rows)|
  }

  lemma DrainStep(s: Settings, quarantine: seq<QRow>, st: State, runId: string)
    requires DistinctKeys(quarantine) && AcceptsAll(s, quarantine, st) && Unused(st, runId)
    ensures var next := Run(s, quarantine, st, runId, SMOOTH).state;
      && Pending(s, quarantine, next) == AtLeast(0, Pending(s, quarantine, st) - s.Limit())
      && AcceptsAll(s, quarantine, next)
  {
    BatchFacts(s, quarantine, st.rows);
    AllAccepted(s, Batch(s, quarantine, st.rows));
    SmoothStep(s, quarantine, st, runId);
    EligibleAfter(s, quarantine, st.rows, runId);
  }

  lemma {:induction false} DrainsStepwise(s: Settings, quarantine: seq<QRow>, st: State, runIds: seq<string>)
    requires DistinctKeys(quarantine) && AcceptsAll(s, quarantine, st) && Fresh(st, runIds)
    ensures Pending(s, quarantine, Smooth(s, quarantine, st, runIds))
         == After(Pending(s, quarantine, st), |runIds|, s.Limit())
    decreases |runIds|
  {
    hide Run, Eligible, PausesReplay;
    if runIds != [] {
      var next := Run(s, quarantine, st, runIds[0], SMOOTH).state;
      DrainStep(s, quarantine, st, runIds[0]);
      FreshNext(s, quarantine, st, runIds);
      DrainsStepwise(s, quarantine, next, runIds[1..]);
    }
  }

  /** With rules that accept every eligible row, k runs of fresh run ids leave n - k * limit rows, or none. */
  lemma Drains(s: Settings, quarantine: seq<QRow>, st: State, runIds: seq<string>)
    requires DistinctKeys(quarantine) && AcceptsAll(s, quarantine, st) && Fresh(st, runIds)
    ensures Pending(s, quarantine, Smooth(s, quarantine, st, runIds))
         == AtLeast(0, Pending(s, quarantine, st) - |runIds| * s.Limit())
  {
    DrainsStepwise(s, quarantine, st, runIds);
    AfterIsMultiple(Pending(s, quarantine, st), |runIds|, s.Limit());
  }

  // ----- Rejected rows are selected again -----

  /** The eligible rows ahead of a row that the rules do not accept. */
  function RejectedAhead(s: Settings, rows: seq<QRow>, row: QRow): set<QRow> {
    set r | r in Ahead(rows, row) && !s.verdict(r).Accept?
  }

  predicate Blocked(s: Settings, quarantine: seq<QRow>, st: State, row: QRow) {
    && row in Eligible(s, quarantine, st.rows)
    && |RejectedAhead(s, Eligible(s, quarantine, st.rows), row)| >= s.Limit()
  }

  lemma BlockedNotSelected(s: Settings, quarantine: seq<QRow>, st: State, row: QRow)
    requires DistinctKeys(quarantine) && Blocked(s, quarantine, st, row)
    ensures row !in Batch(s, quarantine, st.rows)
  {
    var eligible := Eligible(s, quarantine, st.rows);
    SubsetSize(RejectedAhead(s, eligible, row), Ahead(eligible, row));
    BatchIsFirst(s, quarantine, st.rows, row);
  }

  lemma RejectedAheadStays(s: Settings, quarantine: seq<QRow>, st: State, runId: string, row: QRow)
    requires DistinctKeys(quarantine)
    ensures var kept := Accepted(s, Batch(s, quarantine, st.rows));
      RejectedAhead(s, Eligible(s, quarantine, st.rows + StoredRows(kept, runId)), row)
      == RejectedAhead(s, Eligible(s, quarantine, st.rows), row)
  {
    EligibleAfter(s, quarantine, st.rows, runId);
  }

  lemma BlockedStays(s: Settings, quarantine: seq<QRow>, st: State, runId: string, faults: Faults, row: QRow)
    requires DistinctKeys(quarantine) && Blocked(s, quarantine, st, row)
    ensures Blocked(s, quarantine, Run(s, quarantine, st, runId, faults).state, row)
  {
    BlockedNotSelected(s, quarantine, st, row);
    EligibleAfter(s, quarantine, st.rows, runId);
    RejectedAheadStays(s, quarantine, st, runId, row);
    RunAppends(s, quarantine, st, runId, faults);
  }

  function Retries(s: Settings, quarantine: seq<QRow>, st: State, runs: seq<(string, Faults)>): State
    decreases |runs|
  {
    if runs == [] then st
    else Retries(s, quarantine, Run(s, quarantine, st, runs[0].0, runs[0].1).state, runs[1..])
  }

  /** A row behind as many rejected rows as the limit is never stored, however often the replay runs. */
  lemma {:induction false} BlockedForever(
      s: Settings, quarantine: seq<QRow>, st: State, runs: seq<(string, Faults)>, row: QRow)
    requires DistinctKeys(quarantine) && Blocked(s, quarantine, st, row)
    ensures KeyOf(row) !in TableKeys(Retries(s, quarantine, st, runs).rows)
    decreases |runs|
  {
    if runs != [] {
      BlockedStays(s, quarantine, st, runs[0].0, runs[0].1, row);
      BlockedForever(s, quarantine, Run(s, quarantine, st, runs[0].0, runs[0].1).state, runs[1..], row);
    }
  }

  lemma FirstIsAhead(s: Settings)
    requires !s.verdict(FIRST).Accept?
    ensures |RejectedAhead(s, [FIRST, SECOND], SECOND)| >= 1
  {
    assert [FIRST, SECOND][0] == FIRST && Before(FIRST.At(), SECOND.At());
    assert FIRST in RejectedAhead(s, [FIRST, SECOND], SECOND);
  }

  lemma BothEligible(s: Settings)
    requires s.requested == OneAtATime().requested && s.Applied() == OneAtATime().Applied() && s.facts == OneAtATime().facts
    ensures Eligible(s, [FIRST, SECOND], []) == [FIRST, SECOND]
  {
    BothRequested(s);
    NotStoredEmpty([FIRST, SECOND]);
  }

  /** One rejected row and a limit of one: the acceptable row behind it is never stored. */
  lemma RejectedHeadStalls(runs: seq<(string, Faults)>)
    ensures KeyOf(SECOND) !in TableKeys(Retries(RejectsFirst(), [FIRST, SECOND], State([], map[]), runs).rows)
    ensures RejectsFirst().verdict(SECOND).Accept?
  {
    BothEligible(RejectsFirst());
    FirstIsAhead(RejectsFirst());
    assert [FIRST, SECOND][1] == SECOND;
    BlockedForever(RejectsFirst(), [FIRST, SECOND], State([], map[]), runs, SECOND);
  }

  function RejectsFirst(): Settings {
    OneAtATime().(verdict := (row: QRow) => if row == FIRST then Reject else Accept)
  }

  /** A row left out of the batch has the whole batch ahead of it. */
  lemma BatchAhead(s: Settings, quarantine: seq<QRow>, stored: seq<Stored>, row: QRow)
    requires DistinctKeys(quarantine) && row in Eligible(s, quarantine, stored)
    requires row !in Batch(s, quarantine, stored)
    ensures RowSet(Batch(s, quarantine, stored)) <= Ahead(Eligible(s, quarantine, stored), row)
    ensures |RowSet(Batch(s, quarantine, stored))| == s.Limit()
  {
    var eligible, batch := Eligible(s, quarantine, stored), Batch(s, quarantine, stored);
    BatchFacts(s, quarantine, stored);
    BatchIsFirst(s, quarantine, stored, row);
    DistinctSize(batch);
    EligibleDistinct(s, quarantine, stored);
    forall r | r in batch
      ensures Before(r.At(), row.At())
    {
      BatchIsFirst(s, quarantine, stored, r);
      BeforeOrder(r.At(), row.At());
      if Before(row.At(), r.At()) {
        AheadGrows(eligible, row, r);
      } else if r.At() == row.At() {
        KeyDetermines(eligible, r, row);
      }
    }
    DistinctSize(eligible);
    SubsetSize(Ahead(eligible, row), RowSet(eligible));
  }

  lemma AheadGrows(rows: seq<QRow>, a: QRow, b: QRow)
    requires Before(a.At(), b.At())
    ensures |Ahead(rows, a)| <= |Ahead(rows, b)|
  {
    forall r | r in Ahead(rows, a)
      ensures r in Ahead(rows, b)
    {
      BeforeTransitive(r.At(), a.At(), b.At());
    }
    SubsetSize(Ahead(rows, a), Ahead(rows, b));
  }

  /** Fewer rejected rows ahead than the limit: the row is stored at once, or a row ahead of it is. */
  lemma UnblockedAdvances(s: Settings, quarantine: seq<QRow>, st: State, runId: string, row: QRow)
    requires DistinctKeys(quarantine) && row in Eligible(s, quarantine, st.rows) && s.verdict(row).Accept?
    requires !Blocked(s, quarantine, st, row) && row !in Batch(s, quarantine, st.rows)
    ensures var kept := Accepted(s, Batch(s, quarantine, st.rows));
      var left := Eligible(s, quarantine, st.rows + StoredRows(kept, runId));
      row in left && |Ahead(left, row)| < |Ahead(Eligible(s, quarantine, st.rows), row)|
  {
    var eligible, batch := Eligible(s, quarantine, st.rows), Batch(s, quarantine, st.rows);
    var kept := Accepted(s, batch);
    var left := Eligible(s, quarantine, st.rows + StoredRows(kept, runId));
    BatchAhead(s, quarantine, st.rows, row);
    EligibleAfter(s, quarantine, st.rows, runId);
    if kept == [] {
      assert RowSet(batch) <= RejectedAhead(s, eligible, row);
      SubsetSize(RowSet(batch), RejectedAhead(s, eligible, row));
      assert false;
    }
    assert kept[0] in kept && kept[0] in RowSet(batch);
    assert kept[0] in Ahead(eligible, row) && kept[0] !in left;
    assert Ahead(left, row) <= Ahead(eligible, row) - {kept[0]};
    SubsetSize(Ahead(left, row), Ahead(eligible, row) - {kept[0]});
  }

  lemma {:induction false} UnblockedIsStored(
      s: Settings, quarantine: seq<QRow>, st: State, runIds: seq<string>, row: QRow)
    requires DistinctKeys(quarantine) && Runnable(s, quarantine, st) && Fresh(st, runIds)
    requires row in Eligible(s, quarantine, st.rows) && s.verdict(row).Accept?
    requires !Blocked(s, quarantine, st, row)
    requires |runIds| > |Ahead(Eligible(s, quarantine, st.rows), row)|
    ensures KeyOf(row) in TableKeys(Smooth(s, quarantine, st, runIds).rows)
    decreases |runIds|
  {
    var next := Run(s, quarantine, st, runIds[0], SMOOTH).state;
    SmoothStep(s, quarantine, st, runIds[0]);
    FreshNext(s, quarantine, st, runIds);
    var kept := Accepted(s, Batch(s, quarantine, st.rows));
    if row in Batch(s, quarantine, st.rows) {
      StoredKeys(kept, runIds[0]);
      assert KeyOf(row) in RowKeys(kept);
      assert KeyOf(row) in TableKeys(next.rows) by {
        var one :| one in StoredRows(kept, runIds[0]) && StoredKey(one) == KeyOf(row);
        assert one in next.rows;
      }
      SmoothKeeps(s, quarantine, next, runIds[1..], KeyOf(row));
    } else {
      UnblockedAdvances(s, quarantine, st, runIds[0], row);
      RejectedAheadStays(s, quarantine, st, runIds[0], row);
      UnblockedIsStored(s, quarantine, next, runIds[1..], row);
    }
  }

  lemma {:induction false} SmoothKeeps(
      s: Settings, quarantine: seq<QRow>, st: State, runIds: seq<string>, key: RowKey)
    requires key in TableKeys(st.rows)
    ensures key in TableKeys(Smooth(s, quarantine, st, runIds).rows)
    decreases |runIds|
  {
    if runIds != [] {
      RunAppends(s, quarantine, st, runIds[0], SMOOTH);
      var next := Run(s, quarantine, st, runIds[0], SMOOTH).state;
      var one :| one in st.rows && StoredKey(one) == key;
      assert one in next.rows;
      SmoothKeeps(s, quarantine, next, runIds[1..], key);
    }
  }

  lemma {:induction false} SmoothRetries(s: Settings, quarantine: seq<QRow>, st: State, runIds: seq<string>)
    returns (runs: seq<(string, Faults)>)
    ensures Retries(s, quarantine, st, runs) == Smooth(s, quarantine, st, runIds)
    decreases |runIds|
  {
    if runIds == [] {
      runs := [];
    } else {
      var rest := SmoothRetries(s, quarantine, Run(s, quarantine, st, runIds[0], SMOOTH).state, runIds[1..]);
      runs := [(runIds[0], SMOOTH)] + rest;
      assert runs[1..] == rest;
    }
  }

  /** Enough undisturbed runs store an acceptable row exactly if fewer rejected rows than the limit precede it. */
  lemma StoredInTheEnd(s: Settings, quarantine: seq<QRow>, st: State, runIds: seq<string>, row: QRow)
    requires DistinctKeys(quarantine) && Runnable(s, quarantine, st) && Fresh(st, runIds)
    requires row in Eligible(s, quarantine, st.rows) && s.verdict(row).Accept?
    requires |runIds| >= |Eligible(s, quarantine, st.rows)|
    ensures KeyOf(row) in TableKeys(Smooth(s, quarantine, st, runIds).rows)
       <==> |RejectedAhead(s, Eligible(s, quarantine, st.rows), row)| < s.Limit()
  {
    var eligible := Eligible(s, quarantine, st.rows);
    if Blocked(s, quarantine, st, row) {
      var runs := SmoothRetries(s, quarantine, st, runIds);
      BlockedForever(s, quarantine, st, runs, row);
    } else {
      EligibleDistinct(s, quarantine, st.rows);
      DistinctSize(eligible);
      BeforeOrder(row.At(), row.At());
      assert Ahead(eligible, row) <= RowSet(eligible) - {row};
      SubsetSize(Ahead(eligible, row), RowSet(eligible) - {row});
      UnblockedIsStored(s, quarantine, st, runIds, row);
    }
  }
}
