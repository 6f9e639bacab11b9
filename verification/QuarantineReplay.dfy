/**
 Replaying quarantined Kafka rows into an Iceberg table: schema policy, anti-join with what is stored, a batch
 limit, the rules, and the commit, manifest and rollback protocol, with any step allowed to fail.
 */
module QuarantineReplay {
  import opened Wrappers
  import opened OffsetRanges

  datatype QRow = QRow(topic: string, partition: int, offset: int, payload: string)
  {
    function At(): Point {
      Point(topic, partition, offset)
    }
  }

  type RowKey = (int, int)

  function KeyOf(row: QRow): RowKey {
    (row.partition, row.offset)
  }

  datatype Stored = Stored(partition: int, offset: int, runId: string)

  function StoredKey(s: Stored): RowKey {
    (s.partition, s.offset)
  }

  // ----- The schema policy -----

  /** What parsing a payload against the schema finds. */
  datatype Facts = Facts(malformed: bool, requiredMissing: bool, incompatibleType: bool, unknownField: bool)

  datatype Policy = Policy(
    additiveNullable: string,
    missingRequired: string,
    incompatibleType: string,
    unknownField: string)

  /** Approving unknown fields overrides what the policy says of them. */
  function Effective(policy: Policy, approveUnknown: bool): Policy {
    if approveUnknown then policy.(additiveNullable := "allow", unknownField := "ignore") else policy
  }

  predicate Pauses(policy: Policy, f: Facts) {
    || (policy.missingRequired == "pause" && f.requiredMissing)
    || (policy.incompatibleType == "pause" && f.incompatibleType)
    || ((policy.unknownField == "pause" || policy.additiveNullable == "pause") && f.unknownField)
  }

  predicate Excludes(setting: string) {
    setting == "quarantine" || setting == "pause"
  }

  predicate SchemaInvalid(policy: Policy, f: Facts) {
    || f.malformed
    || (Excludes(policy.missingRequired) && f.requiredMissing)
    || (Excludes(policy.incompatibleType) && f.incompatibleType)
    || ((Excludes(policy.unknownField) || Excludes(policy.additiveNullable)) && f.unknownField)
  }

  /** What the rules make of a row: they act on every row of the batch alone, or stop the batch. */
  datatype Verdict = Accept | Reject | Stop

  datatype Settings = Settings(
    requested: set<RowKey>,
    policy: Policy,
    approveUnknown: bool,
    facts: QRow -> Facts,
    verdict: QRow -> Verdict,
    maxRows: int)
  {
    /** `min(max(configured, 1), 10000)`. */
    function Limit(): nat {
      if maxRows < 1 then 1 else if maxRows > 10_000 then 10_000 else maxRows
    }

    function Applied(): Policy {
      Effective(policy, approveUnknown)
    }
  }

  // ----- Selecting the batch -----

  function Requested(s: Settings, rows: seq<QRow>): seq<QRow> {
    if rows == [] then []
    else
      var rest := Requested(s, rows[1..]);
      if s.requested == {} || KeyOf(rows[0]) in s.requested then [rows[0]] + rest else rest
  }

  predicate Pausing(s: Settings, row: QRow) {
    !s.facts(row).malformed && Pauses(s.Applied(), s.facts(row))
  }

  function SchemaValid(s: Settings, rows: seq<QRow>): (r: seq<QRow>)
    ensures |r| <= |rows|
  {
    if rows == [] then []
    else
      var rest := SchemaValid(s, rows[1..]);
      if SchemaInvalid(s.Applied(), s.facts(rows[0])) then rest else [rows[0]] + rest
  }

  function TableKeys(stored: seq<Stored>): set<RowKey> {
    set s | s in stored :: StoredKey(s)
  }

  /** The anti-join with the table: rows whose partition and offset it does not hold. */
  function NotStored(rows: seq<QRow>, stored: seq<Stored>): (r: seq<QRow>)
    ensures |r| <= |rows|
    ensures forall row :: row in r <==> row in rows && KeyOf(row) !in TableKeys(stored)
  {
    if rows == [] then []
    else
      var rest := NotStored(rows[1..], stored);
      if KeyOf(rows[0]) in TableKeys(stored) then rest else [rows[0]] + rest
  }

  function InsertRow(row: QRow, rows: seq<QRow>): (r: seq<QRow>)
    ensures |r| == |rows| + 1
    ensures multiset(r) == multiset{row} + multiset(rows)
  {
    if rows == [] || !Before(rows[0].At(), row.At()) then [row] + rows
    else
      var rest := InsertRow(row, rows[1..]);
      assert rows == [rows[0]] + rows[1..];
      [rows[0]] + rest
  }

  function Ordered(rows: seq<QRow>): (r: seq<QRow>)
    ensures |r| == |rows|
    ensures multiset(r) == multiset(rows)
  {
    if rows == [] then []
    else
      assert rows == [rows[0]] + rows[1..];
      InsertRow(rows[0], Ordered(rows[1..]))
  }

  function Take(rows: seq<QRow>, n: nat): seq<QRow> {
    if |rows| <= n then rows else rows[..n]
  }

  function Accepted(s: Settings, rows: seq<QRow>): (r: seq<QRow>)
    ensures |r| <= |rows|
    ensures forall row :: row in r <==> row in rows && s.verdict(row).Accept?
  {
    if rows == [] then []
    else
      var rest := Accepted(s, rows[1..]);
      if s.verdict(rows[0]).Accept? then [rows[0]] + rest else rest
  }

  function PointsOf(rows: seq<QRow>): (r: seq<Point>)
    ensures |r| == |rows|
  {
    seq(|rows|, i requires 0 <= i < |rows| => rows[i].At())
  }

  function StoredRows(rows: seq<QRow>, runId: string): (r: seq<Stored>)
    ensures |r| == |rows|
  {
    seq(|rows|, i requires 0 <= i < |rows| => Stored(rows[i].partition, rows[i].offset, runId))
  }

  /** The rows a run may replay: requested, valid and not stored. */
  function Eligible(s: Settings, quarantine: seq<QRow>, stored: seq<Stored>): seq<QRow> {
    NotStored(SchemaValid(s, Requested(s, quarantine)), stored)
  }

  /** The batch of a run: the first eligible rows in topic, partition and offset order. */
  function Batch(s: Settings, quarantine: seq<QRow>, stored: seq<Stored>): seq<QRow> {
    Take(Ordered(Eligible(s, quarantine, stored)), s.Limit())
  }

  // ----- Keys are never stored twice -----

  predicate DistinctKeys(rows: seq<QRow>) {
    forall i, j :: 0 <= i < j < |rows| ==> KeyOf(rows[i]) != KeyOf(rows[j])
  }

  predicate StoredOnce(stored: seq<Stored>) {
    forall i, j :: 0 <= i < j < |stored| ==> StoredKey(stored[i]) != StoredKey(stored[j])
  }

  function RowKeys(rows: seq<QRow>): set<RowKey> {
    set row | row in rows :: KeyOf(row)
  }

  lemma DistinctCons(row: QRow, rows: seq<QRow>)
    ensures DistinctKeys([row] + rows) <==> DistinctKeys(rows) && KeyOf(row) !in RowKeys(rows)
  {
    var all := [row] + rows;
    if DistinctKeys(all) {
      forall i, j | 0 <= i < j < |rows|
        ensures KeyOf(rows[i]) != KeyOf(rows[j])
      {
        assert all[i + 1] == rows[i] && all[j + 1] == rows[j];
      }
      forall j | 0 <= j < |rows|
        ensures KeyOf(rows[j]) != KeyOf(row)
      {
        assert all[0] == row && all[j + 1] == rows[j];
      }
    }
    if DistinctKeys(rows) && KeyOf(row) !in RowKeys(rows) {
      forall j | 0 <= j < |rows|
        ensures KeyOf(rows[j]) in RowKeys(rows)
      {
        assert rows[j] in rows;
      }
    }
  }

  lemma RowKeysCons(row: QRow, rows: seq<QRow>)
    ensures RowKeys([row] + rows) == {KeyOf(row)} + RowKeys(rows)
  {
    assert forall r :: r in [row] + rows <==> r == row || r in rows;
  }

  lemma {:induction false} FiltersKeepDistinct(s: Settings, rows: seq<QRow>, stored: seq<Stored>)
    requires DistinctKeys(rows)
    ensures DistinctKeys(Requested(s, rows)) && RowKeys(Requested(s, rows)) <= RowKeys(rows)
    ensures DistinctKeys(SchemaValid(s, rows)) && RowKeys(SchemaValid(s, rows)) <= RowKeys(rows)
    ensures DistinctKeys(NotStored(rows, stored)) && RowKeys(NotStored(rows, stored)) <= RowKeys(rows)
    ensures DistinctKeys(Accepted(s, rows)) && RowKeys(Accepted(s, rows)) <= RowKeys(rows)
  {
    if rows != [] {
      var row, rest := rows[0], rows[1..];
      assert rows == [row] + rest;
      DistinctCons(row, rest);
      RowKeysCons(row, rest);
      FiltersKeepDistinct(s, rest, stored);
      KeptCons(row, rest, Requested(s, rest));
      KeptCons(row, rest, SchemaValid(s, rest));
      KeptCons(row, rest, NotStored(rest, stored));
      KeptCons(row, rest, Accepted(s, rest));
    }
  }

  lemma KeptCons(row: QRow, rest: seq<QRow>, kept: seq<QRow>)
    requires DistinctKeys(kept) && RowKeys(kept) <= RowKeys(rest) && KeyOf(row) !in RowKeys(rest)
    ensures DistinctKeys([row] + kept) && RowKeys([row] + kept) == {KeyOf(row)} + RowKeys(kept)
  {
    DistinctCons(row, kept);
    RowKeysCons(row, kept);
  }

  lemma {:induction false} InsertKeepsDistinct(row: QRow, rows: seq<QRow>)
    requires DistinctKeys(rows) && KeyOf(row) !in RowKeys(rows)
    ensures DistinctKeys(InsertRow(row, rows))
    ensures RowKeys(InsertRow(row, rows)) == {KeyOf(row)} + RowKeys(rows)
  {
    if rows == [] || !Before(rows[0].At(), row.At()) {
      KeptCons(row, rows, rows);
    } else {
      var first, rest := rows[0], rows[1..];
      assert rows == [first] + rest;
      DistinctCons(first, rest);
      RowKeysCons(first, rest);
      InsertKeepsDistinct(row, rest);
      DistinctCons(first, InsertRow(row, rest));
      RowKeysCons(first, InsertRow(row, rest));
    }
  }

  lemma {:induction false} OrderedKeepsDistinct(rows: seq<QRow>)
    requires DistinctKeys(rows)
    ensures DistinctKeys(Ordered(rows)) && RowKeys(Ordered(rows)) == RowKeys(rows)
  {
    if rows != [] {
      assert rows == [rows[0]] + rows[1..];
      DistinctCons(rows[0], rows[1..]);
      RowKeysCons(rows[0], rows[1..]);
      OrderedKeepsDistinct(rows[1..]);
      InsertKeepsDistinct(rows[0], Ordered(rows[1..]));
    }
  }

  predicate InOrder(rows: seq<QRow>) {
    forall i, j :: 0 <= i < j < |rows| ==> !Before(rows[j].At(), rows[i].At())
  }

  lemma NotBeforeTransitive(a: QRow, b: QRow, c: QRow)
    requires !Before(b.At(), a.At()) && !Before(c.At(), b.At())
    ensures !Before(c.At(), a.At())
  {
    BeforeOrder(a.At(), b.At());
    BeforeOrder(b.At(), c.At());
    if Before(c.At(), a.At()) {
      if Before(a.At(), b.At()) {
        BeforeTransitive(c.At(), a.At(), b.At());
      }
    }
  }

  lemma {:induction false} InsertInOrder(row: QRow, rows: seq<QRow>)
    requires InOrder(rows)
    ensures InOrder(InsertRow(row, rows))
    ensures forall r :: r in InsertRow(row, rows) <==> r == row || r in rows
  {
    if rows == [] {
    } else if !Before(rows[0].At(), row.At()) {
      forall j | 1 <= j < |rows|
        ensures !Before(rows[j].At(), row.At())
      {
        NotBeforeTransitive(row, rows[0], rows[j]);
      }
    } else {
      BeforeOrder(rows[0].At(), row.At());
      InsertInOrder(row, rows[1..]);
      var rest := InsertRow(row, rows[1..]);
      assert rows == [rows[0]] + rows[1..];
      forall j | 0 <= j < |rest|
        ensures !Before(rest[j].At(), rows[0].At())
      {
        assert rest[j] in rest;
      }
    }
  }

  lemma {:induction false} OrderedInOrder(rows: seq<QRow>)
    ensures InOrder(Ordered(rows))
    ensures forall r :: r in Ordered(rows) <==> r in rows
  {
    if rows != [] {
      OrderedInOrder(rows[1..]);
      InsertInOrder(rows[0], Ordered(rows[1..]));
      assert rows == [rows[0]] + rows[1..];
    }
  }

  function RowSet(rows: seq<QRow>): set<QRow> {
    set row | row in rows
  }

  lemma {:induction false} DistinctSize(rows: seq<QRow>)
    requires DistinctKeys(rows)
    ensures |RowSet(rows)| == |rows|
  {
    if rows != [] {
      assert rows == [rows[0]] + rows[1..];
      DistinctCons(rows[0], rows[1..]);
      DistinctSize(rows[1..]);
      assert forall row :: row in rows[1..] ==> KeyOf(row) in RowKeys(rows[1..]);
      assert RowSet(rows) == {rows[0]} + RowSet(rows[1..]);
    }
  }

  lemma KeyDetermines(rows: seq<QRow>, a: QRow, b: QRow)
    requires DistinctKeys(rows) && a in rows && b in rows && KeyOf(a) == KeyOf(b)
    ensures a == b
  {
    var i :| 0 <= i < |rows| && rows[i] == a;
    var j :| 0 <= j < |rows| && rows[j] == b;
    assert i == j;
  }

  lemma EligibleDistinct(s: Settings, quarantine: seq<QRow>, stored: seq<Stored>)
    requires DistinctKeys(quarantine)
    ensures DistinctKeys(Eligible(s, quarantine, stored))
  {
    var requested := Requested(s, quarantine);
    FiltersKeepDistinct(s, quarantine, stored);
    FiltersKeepDistinct(s, requested, stored);
    FiltersKeepDistinct(s, SchemaValid(s, requested), stored);
  }

  /** The rows that come before a row in topic, partition and offset order. */
  function Ahead(rows: seq<QRow>, row: QRow): set<QRow> {
    set r | r in rows && Before(r.At(), row.At())
  }

  /** In an ordered list with distinct keys, a row stands behind exactly the rows ahead of it. */
  lemma PlaceInOrder(rows: seq<QRow>, i: nat)
    requires InOrder(rows) && DistinctKeys(rows) && i < |rows|
    ensures |Ahead(rows, rows[i])| == i
  {
    var front := rows[..i];
    assert DistinctKeys(front);
    DistinctSize(front);
    forall r | r in rows
      ensures r in front <==> Before(r.At(), rows[i].At())
    {
      var j :| 0 <= j < |rows| && rows[j] == r;
      BeforeOrder(r.At(), rows[i].At());
      if j < i {
        assert front[j] == r;
        assert KeyOf(rows[j]) != KeyOf(rows[i]);
      } else {
        forall k | 0 <= k < i
          ensures front[k] != r
        {
          assert KeyOf(rows[k]) != KeyOf(rows[j]);
        }
      }
    }
    assert forall r :: r in front ==> r in rows;
    assert Ahead(rows, rows[i]) == RowSet(front);
  }

  /** The batch holds each key once, none stored, and as many rows as there are up to the limit. */
  lemma BatchFacts(s: Settings, quarantine: seq<QRow>, stored: seq<Stored>)
    requires DistinctKeys(quarantine)
    ensures var eligible, batch := Eligible(s, quarantine, stored), Batch(s, quarantine, stored);
      && DistinctKeys(batch) && InOrder(batch)
      && |batch| == (if |eligible| <= s.Limit() then |eligible| else s.Limit())
      && (forall row :: row in batch ==> row in eligible && KeyOf(row) !in TableKeys(stored))
  {
    var eligible := Eligible(s, quarantine, stored);
    var ordered := Ordered(eligible);
    EligibleDistinct(s, quarantine, stored);
    OrderedKeepsDistinct(eligible);
    OrderedInOrder(eligible);
    var batch := Batch(s, quarantine, stored);
    forall row | row in batch
      ensures row in eligible && KeyOf(row) !in TableKeys(stored)
    {
      assert row in ordered;
    }
  }

  lemma FrontOf(rows: seq<QRow>, n: nat, i: nat)
    requires DistinctKeys(rows) && i < |rows|
    ensures rows[i] in Take(rows, n) <==> i < n
  {
    var front := Take(rows, n);
    if i < n {
      assert front[i] == rows[i];
    } else {
      forall j | 0 <= j < |front|
        ensures front[j] != rows[i]
      {
        assert KeyOf(rows[j]) != KeyOf(rows[i]);
      }
    }
  }

  lemma FirstOf(rows: seq<QRow>, n: nat, row: QRow)
    requires DistinctKeys(rows) && row in rows
    ensures row in Take(Ordered(rows), n) <==> |Ahead(rows, row)| < n
  {
    var ordered := Ordered(rows);
    OrderedKeepsDistinct(rows);
    OrderedInOrder(rows);
    assert row in ordered;
    var i :| 0 <= i < |ordered| && ordered[i] == row;
    PlaceInOrder(ordered, i);
    FrontOf(ordered, n, i);
    assert Ahead(ordered, row) == Ahead(rows, row);
  }

  /** An eligible row is in the batch exactly if fewer eligible rows than the limit come before it. */
  lemma BatchIsFirst(s: Settings, quarantine: seq<QRow>, stored: seq<Stored>, row: QRow)
    requires DistinctKeys(quarantine) && row in Eligible(s, quarantine, stored)
    ensures row in Batch(s, quarantine, stored) <==> |Ahead(Eligible(s, quarantine, stored), row)| < s.Limit()
  {
    EligibleDistinct(s, quarantine, stored);
    FirstOf(Eligible(s, quarantine, stored), s.Limit(), row);
  }

  /** Appending accepted rows of the batch keeps every key stored once. */
  lemma AppendStaysOnce(s: Settings, quarantine: seq<QRow>, stored: seq<Stored>, runId: string)
    requires DistinctKeys(quarantine) && StoredOnce(stored)
    ensures StoredOnce(stored + StoredRows(Accepted(s, Batch(s, quarantine, stored)), runId))
  {
    BatchFacts(s, quarantine, stored);
    var batch := Batch(s, quarantine, stored);
    var kept := Accepted(s, batch);
    FiltersKeepDistinct(s, batch, stored);
    var more := StoredRows(kept, runId);
    forall j | 0 <= j < |more|
      ensures StoredKey(more[j]) !in TableKeys(stored)
    {
      assert kept[j] in kept && kept[j] in batch;
    }
    forall i | 0 <= i < |stored|
      ensures StoredKey(stored[i]) in TableKeys(stored)
    {
      assert stored[i] in stored;
    }
  }

  lemma {:induction false} NotStoredTwice(rows: seq<QRow>, stored: seq<Stored>, more: seq<Stored>)
    ensures NotStored(rows, stored + more) == NotStored(NotStored(rows, stored), more)
  {
    assert TableKeys(stored + more) == TableKeys(stored) + TableKeys(more);
    if rows != [] {
      NotStoredTwice(rows[1..], stored, more);
    }
  }

  /** Storing the accepted rows of a batch takes exactly them out of the eligible rows. */
  lemma EligibleAfter(s: Settings, quarantine: seq<QRow>, stored: seq<Stored>, runId: string)
    requires DistinctKeys(quarantine)
    ensures var eligible, kept := Eligible(s, quarantine, stored), Accepted(s, Batch(s, quarantine, stored));
      var left := Eligible(s, quarantine, stored + StoredRows(kept, runId));
      && (forall row :: row in left <==> row in eligible && row !in kept)
      && |left| == |eligible| - |kept|
  {
    var eligible, batch := Eligible(s, quarantine, stored), Batch(s, quarantine, stored);
    var kept := Accepted(s, batch);
    var more := StoredRows(kept, runId);
    var left := Eligible(s, quarantine, stored + more);
    NotStoredTwice(SchemaValid(s, Requested(s, quarantine)), stored, more);
    EligibleDistinct(s, quarantine, stored);
    EligibleDistinct(s, quarantine, stored + more);
    BatchFacts(s, quarantine, stored);
    FiltersKeepDistinct(s, batch, stored);
    StoredKeys(kept, runId);
    forall row | row in eligible
      ensures KeyOf(row) in RowKeys(kept) <==> row in kept
    {
      if KeyOf(row) in RowKeys(kept) {
        var other :| other in kept && KeyOf(other) == KeyOf(row);
        KeyDetermines(eligible, row, other);
      }
    }
    DistinctSize(eligible);
    DistinctSize(kept);
    DistinctSize(left);
    assert RowSet(left) == RowSet(eligible) - RowSet(kept);
    assert RowSet(kept) <= RowSet(eligible);
  }

  lemma StoredKeys(kept: seq<QRow>, runId: string)
    ensures TableKeys(StoredRows(kept, runId)) == RowKeys(kept)
  {
    var more := StoredRows(kept, runId);
    forall i | 0 <= i < |kept|
      ensures KeyOf(kept[i]) in TableKeys(more) && StoredKey(more[i]) in RowKeys(kept)
    {
      assert more[i] in more && kept[i] in kept && StoredKey(more[i]) == KeyOf(kept[i]);
    }
    forall key | key in RowKeys(kept)
      ensures key in TableKeys(more)
    {
      var row :| row in kept && KeyOf(row) == key;
      var i :| 0 <= i < |kept| && kept[i] == row;
    }
    forall key | key in TableKeys(more)
      ensures key in RowKeys(kept)
    {
      var one :| one in more && StoredKey(one) == key;
      var i :| 0 <= i < |more| && more[i] == one;
    }
  }

  // ----- One run -----

  datatype Operation = Reuse | Written

  /** An append raises before it takes effect, or after it did; or the step after it fails and is rolled back. */
  datatype CommitFault = Committed | BeforeWrite | UnseenWrite | AfterWrite

  /**
   A failing manifest write leaves nothing behind, a directory without its completion marker, or a complete
   manifest whose check then fails.
   */
  datatype ManifestFault = ManifestWritten | ManifestLost | ManifestTorn | ManifestUnseen

  /** A rollback fails without effect, or takes effect and then fails its verification. */
  datatype RollbackFault = RolledBack | RollbackLost | RollbackUnverified

  /** Which steps of one run fail. */
  datatype Faults = Faults(commit: CommitFault, manifest: ManifestFault, rollback: RollbackFault)
  {
    /** The rows of a commit that is rolled back. */
    function Left<T>(before: T, written: T): T {
      if rollback.RollbackLost? then written else before
    }
  }

  datatype Report = Report(
    input: int,
    stored: int,
    skipped: int,
    failed: int,
    deferred: int,
    ruleRejected: int,
    ranges: seq<Range>,
    commit: Option<Operation>)

  datatype Outcome = Finished(report: Report) | Paused | RulesStopped | CommitFailed | PublishFailed(rolledBack: bool)

  /** The rows of the table, and the manifest directories by run id: complete or torn. */
  datatype State = State(rows: seq<Stored>, manifests: map<string, bool>)

  datatype Result = Result(state: State, outcome: Outcome)

  function AtLeast(a: int, b: int): int {
    if a < b then b else a
  }

  /** The counts as the job subtracts them. */
  function Counted(input: int, valid: int, eligible: int, batch: int, stored: int, ranges: seq<Range>): Report {
    var deferred := AtLeast(0, eligible - batch);
    var skipped := valid - eligible;
    var failed := input - skipped - deferred - stored;
    Report(input, stored, skipped, failed, deferred, AtLeast(0, failed - (input - valid)), ranges, None)
  }

  function RangesOf(batch: seq<QRow>): seq<Range> {
    if batch == [] then [] else ReplaySourceRanges(PointsOf(batch))
  }

  function ReportOf(s: Settings, quarantine: seq<QRow>, stored: seq<Stored>): Report {
    var batch := Batch(s, quarantine, stored);
    Counted(|Requested(s, quarantine)|, |SchemaValid(s, Requested(s, quarantine))|, |Eligible(s, quarantine, stored)|,
            |batch|, |Accepted(s, batch)|, RangesOf(batch))
  }

  /** The table already holds rows marked with this run id. */
  predicate HoldsRun(rows: seq<Stored>, runId: string) {
    runId != "" && exists row :: row in rows && row.runId == runId
  }

  predicate PausesReplay(s: Settings, quarantine: seq<QRow>) {
    exists row :: row in Requested(s, quarantine) && Pausing(s, row)
  }

  predicate StopsRules(s: Settings, batch: seq<QRow>) {
    exists row :: row in batch && s.verdict(row).Stop?
  }

  function Attempted(st: State, runId: string, fault: ManifestFault): (manifests: map<string, bool>)
    ensures runId in st.manifests ==> manifests == st.manifests
  {
    if runId in st.manifests || fault.ManifestLost? then st.manifests
    else st.manifests[runId := !fault.ManifestTorn?]
  }

  predicate Publishes(st: State, runId: string, fault: ManifestFault) {
    runId !in st.manifests && fault.ManifestWritten?
  }

  /** What storing a non-empty batch makes of the table and the manifests, and how it ends. */
  function Settle(st: State, rows: seq<Stored>, runId: string, faults: Faults, report: Report): Result {
    var longer := st.rows + rows;
    var manifests := Attempted(st, runId, faults.manifest);
    var published := Publishes(st, runId, faults.manifest);
    if HoldsRun(st.rows, runId) then
      Result(State(st.rows, manifests),
             if published then Finished(report.(commit := Some(Reuse))) else PublishFailed(false))
    else if faults.commit.BeforeWrite? then Result(st, CommitFailed)
    else if faults.commit.UnseenWrite? then Result(State(longer, st.manifests), CommitFailed)
    else if faults.commit.AfterWrite? then Result(State(faults.Left(st.rows, longer), st.manifests), CommitFailed)
    else if published then Result(State(longer, manifests), Finished(report.(commit := Some(Written))))
    else Result(State(faults.Left(st.rows, longer), manifests), PublishFailed(faults.rollback.RolledBack?))
  }

  /** What a run decides before it writes anything. */
  datatype Plan = Plan(paused: bool, stopped: bool, kept: seq<QRow>, report: Report)

  function PlanOf(s: Settings, quarantine: seq<QRow>, stored: seq<Stored>): Plan {
    var batch := Batch(s, quarantine, stored);
    Plan(PausesReplay(s, quarantine), StopsRules(s, batch), Accepted(s, batch), ReportOf(s, quarantine, stored))
  }

  /** Nothing happens unless the rules accept a row of the batch. */
  function Conclude(plan: Plan, st: State, runId: string, faults: Faults): Result {
    if plan.paused then Result(st, Paused)
    else if plan.stopped then Result(st, RulesStopped)
    else if plan.kept == [] then Result(st, Finished(plan.report))
    else Settle(st, StoredRows(plan.kept, runId), runId, faults, plan.report)
  }

  function Run(s: Settings, quarantine: seq<QRow>, st: State, runId: string, faults: Faults): Result {
    Conclude(PlanOf(s, quarantine, st.rows), st, runId, faults)
  }

  // ----- Commit, manifest, rollback -----

  /** Snapshots by id, and the one the main reference points to. */
  datatype Table = Table(snapshots: seq<seq<Stored>>, current: nat)

  predicate TableOk(t: Table) {
    t.current < |t.snapshots| && forall i :: 0 <= i < |t.snapshots| ==> StoredOnce(t.snapshots[i])
  }

  /** `previous` is the snapshot before the commit; None if the table did not exist, or on reuse. */
  datatype Commit = Commit(operation: Operation, previous: Option<nat>)

  /** The table is back as it was: gone if it did not exist, or pointing at the snapshot it pointed at. */
  predicate Restored(before: Option<Table>, after: Option<Table>) {
    if before.None? then after.None?
    else
      && after.Some?
      && after.value.current == before.value.current
      && before.value.current < |before.value.snapshots| <= |after.value.snapshots|
      && after.value.snapshots[before.value.current] == before.value.snapshots[before.value.current]
  }

  class ReplayTarget {
    var table: Option<Table>
    var manifests: map<string, bool>

    ghost predicate Valid()
      reads this
    {
      table.Some? ==> TableOk(table.value)
    }

    function Rows(): seq<Stored>
      reads this
      requires Valid()
    {
      if table.None? then [] else table.value.snapshots[table.value.current]
    }

    ghost function Now(): State
      reads this
      requires Valid()
    {
      State(Rows(), manifests)
    }

    constructor ()
      ensures Valid() && Now() == State([], map[])
    {
      table, manifests := None, map[];
    }

    /** Points the table back at a snapshot, or drops a table that did not exist before. */
    method RollbackIcebergCommit(previous: Option<nat>, fault: RollbackFault) returns (ok: bool)
      requires Valid() && (previous.Some? ==> table.Some? && previous.value < |table.value.snapshots|)
      modifies this`table
      ensures Valid() && ok == fault.RolledBack?
      ensures table == if fault.RollbackLost? then old(table)
                       else if previous.None? then None
                       else Some(old(table).value.(current := previous.value))
    {
      if fault.RollbackLost? {
        return false;
      }
      table := match previous
        case None => None
        case Some(id) => Some(table.value.(current := id));
      ok := !fault.RollbackUnverified?;
    }

    /** What a commit leaves to roll back: the table as it was, with the new snapshot in front. */
    static predicate Wrote(before: Option<Table>, after: Option<Table>, previous: Option<nat>) {
      && after.Some?
      && match before
         case None => previous.None?
         case Some(t) =>
           && previous == Some(t.current)
           && t.current < |t.snapshots| < |after.value.snapshots|
           && after.value.snapshots[t.current] == t.snapshots[t.current]
    }

    /** A failed commit leaves its rows: nothing marks it for a rollback, or the rollback has no effect. */
    static predicate Stays(fault: CommitFault, rollback: RollbackFault) {
      fault.UnseenWrite? || (fault.AfterWrite? && rollback.RollbackLost?)
    }

    /** Appends the rows as a new snapshot, unless the table already holds rows of this run. */
    method CommitIcebergTable(rows: seq<Stored>, runId: string, fault: CommitFault, rollback: RollbackFault)
      returns (commit: Option<Commit>)
      requires Valid() && StoredOnce(Rows() + rows)
      modifies this`table
      ensures Valid()
      ensures HoldsRun(old(Rows()), runId) ==> commit == Some(Commit(Reuse, None)) && table == old(table)
      ensures !HoldsRun(old(Rows()), runId) ==> (commit.Some? <==> fault.Committed?)
      ensures !HoldsRun(old(Rows()), runId) && commit.Some? ==>
        && commit.value.operation.Written?
        && Wrote(old(table), table, commit.value.previous)
        && Rows() == old(Rows()) + rows
      ensures commit.None? ==>
        Rows() == if Stays(fault, rollback) then old(Rows()) + rows else old(Rows())
      ensures commit.None? && !Stays(fault, rollback) ==> Restored(old(table), table)
    {
      if table.Some? && HoldsRun(Rows(), runId) {
        return Some(Commit(Reuse, None));
      }
      var previous := if table.Some? then Some(table.value.current) else None;
      if fault.BeforeWrite? {
        return None;
      }
      var next := Rows() + rows;
      table := if table.None? then Some(Table([next], 0))
               else Some(Table(table.value.snapshots + [next], |table.value.snapshots|));
      if fault.UnseenWrite? {
        return None;
      }
      if fault.AfterWrite? {
        var _ := RollbackIcebergCommit(previous, rollback);
        return None;
      }
      commit := Some(Commit(Written, previous));
    }

    /** Writes the manifest once; if that fails after a fresh commit, takes the commit back. */
    method PublishReplayManifest(runId: string, commit: Commit, fault: ManifestFault, rollback: RollbackFault)
      returns (published: bool, rolledBack: bool)
      requires Valid() && table.Some?
      requires commit.previous.Some? ==> commit.previous.value < |table.value.snapshots|
      modifies this
      ensures Valid()
      ensures published <==> runId !in old(manifests) && fault.ManifestWritten?
      ensures manifests == if runId in old(manifests) || fault.ManifestLost? then old(manifests)
                           else old(manifests)[runId := !fault.ManifestTorn?]
      ensures rolledBack <==> !published && commit.operation.Written? && rollback.RolledBack?
      ensures table == if published || commit.operation.Reuse? || rollback.RollbackLost? then old(table)
                       else if commit.previous.None? then None
                       else Some(old(table).value.(current := commit.previous.value))
    {
      published, rolledBack := false, false;
      if runId !in manifests && !fault.ManifestLost? {
        manifests := manifests[runId := !fault.ManifestTorn?];
        published := fault.ManifestWritten?;
      }
      if !published && commit.operation.Written? {
        rolledBack := RollbackIcebergCommit(commit.previous, rollback);
      }
    }

    /** Stores the accepted rows and publishes them, or says what failed. */
    method StoreBatch(rows: seq<Stored>, runId: string, faults: Faults, report: Report) returns (outcome: Outcome)
      requires Valid() && StoredOnce(Rows() + rows)
      modifies this
      ensures Valid()
      ensures Result(Now(), outcome) == Settle(old(Now()), rows, runId, faults, report)
      ensures outcome.PublishFailed? && !faults.rollback.RollbackLost? ==> Restored(old(table), table)
    {
      var commit := CommitIcebergTable(rows, runId, faults.commit, faults.rollback);
      if commit.None? {
        return CommitFailed;
      }
      var published, rolledBack := PublishReplayManifest(runId, commit.value, faults.manifest, faults.rollback);
      if published {
        outcome := Finished(report.(commit := Some(commit.value.operation)));
      } else {
        outcome := PublishFailed(rolledBack);
      }
    }

    /** Which rows a run replays, and the counts it reports. */
    method SelectBatch(quarantine: seq<QRow>, s: Settings)
      returns (paused: bool, batch: seq<QRow>, target: seq<QRow>, report: Report)
      requires Valid()
      ensures paused <==> PausesReplay(s, quarantine)
      ensures batch == Batch(s, quarantine, Rows())
      ensures target == Accepted(s, batch) && report == ReportOf(s, quarantine, Rows())
    {
      var requested := Requested(s, quarantine);
      paused := exists row :: row in requested && Pausing(s, row);
      var valid := SchemaValid(s, requested);
      var schemaValidCount := |valid|;
      if table.Some? {
        valid := NotStored(valid, Rows());
      } else {
        NotStoredEmpty(valid);
      }
      var eligibleTotal := |valid|;
      batch := Take(Ordered(valid), s.Limit());
      target := Accepted(s, batch);
      report := Counted(|requested|, schemaValidCount, eligibleTotal, |batch|, |target|, RangesOf(batch));
    }

    /** One replay. The rules are given by their verdict on each row; a row's Stop stops the whole batch. */
    method ReplayQuarantine(quarantine: seq<QRow>, s: Settings, runId: string, faults: Faults)
      returns (outcome: Outcome)
      requires Valid() && DistinctKeys(quarantine)
      modifies this
      ensures Valid()
      ensures Result(Now(), outcome) == Run(s, quarantine, old(Now()), runId, faults)
      ensures outcome.PublishFailed? && !faults.rollback.RollbackLost? ==> Restored(old(table), table)
    {
      var paused, batch, target, report := SelectBatch(quarantine, s);
      if paused {
        return Paused;
      }
      if exists row :: row in batch && s.verdict(row).Stop? {
        return RulesStopped;
      }
      if |target| == 0 {
        return Finished(report);
      }
      AppendStaysOnce(s, quarantine, Rows(), runId);
      outcome := StoreBatch(StoredRows(target, runId), runId, faults, report);
    }
  }

  lemma {:induction false} NotStoredEmpty(rows: seq<QRow>)
    ensures NotStored(rows, []) == rows
  {
    if rows != [] {
      NotStoredEmpty(rows[1..]);
    }
  }

}
