/**
 The Spark runner: transforms are collected into segments, each run as one batch, and flushed before every
 SQL rule. `Interpret` is the plain reading, one rule at a time; the runner is proved to agree with it.
 */
module SparkSnapshotRules {
  import opened Wrappers
  import opened Expressions
  import opened RuleExpressions
  import opened RowRuns
  import opened SnapshotRules
  import opened TransformPasses
  import opened QualityPasses
  import opened RuleEngine
  import opened SnapshotRuleLaws

  /** What the SQL text of a rule makes of a frame: any frame at all, or an error message. */
  datatype SqlResult = Success(frame: Frame) | Failure(message: string)

  type Sql = (Frame, Rule) -> SqlResult

  datatype Progress =
    | Running(frame: Frame, quarantined: multiset<Record>, counts: Counts)
    | Stopped(rule: Rule, reason: string, counts: Counts)

  function SqlReason(message: string): string {
    "sql_expression_failed: " + if |message| <= 500 then message else message[..500]
  }

  function Visible(columns: seq<string>): seq<string> {
    if columns == [] then []
    else (if "__asklake_" <= columns[0] then [] else [columns[0]]) + Visible(columns[1..])
  }

  function SqlRecordOf(engine: Engine, columns: seq<string>, rule: Rule, reason: string, cells: Cells): Record {
    var visible := Visible(columns);
    Record(
      Eval(engine, OptionalColumn(columns, ["topic"], "string"), cells),
      Eval(engine, OptionalColumn(columns, ["partition", "kafka_partition"], "int"), cells),
      Eval(engine, OptionalColumn(columns, ["offset", "kafka_offset"], "long"), cells),
      Eval(engine, OptionalColumn(columns, ["kafka_timestamp"], "timestamp"), cells),
      Eval(engine, OptionalColumn(columns, ["raw_payload"], "string"), cells),
      Eval(engine, OptionalColumn(columns, ["event_id"], "string"), cells),
      seq(|visible|, i requires 0 <= i < |visible| => (visible[i], Eval(engine, Col(visible[i]), cells))),
      reason,
      rule.id,
      "transform",
      FirstOf(rule.outputColumns, rule.inputColumns))
  }

  function SqlRecorder(engine: Engine, columns: seq<string>, rule: Rule, reason: string): Cells -> Record {
    cells => SqlRecordOf(engine, columns, rule, reason, cells)
  }

  function QuarantineAll(engine: Engine, frame: Frame, rule: Rule, reason: string): seq<Record> {
    RecordsOf(SqlRecorder(engine, frame.columns, rule, reason), frame.rows)
  }

  function FallbackColumn(frame: Frame, rule: Rule): Expr {
    ColumnOrNull(ResolveColumn(frame.columns, First(rule.inputColumns)))
  }

  /** A SQL rule that failed: its failure action applied to every row. */
  function SqlFailure(engine: Engine, rule: Rule, message: string, p: Progress): Progress
    requires p.Running?
  {
    var n, output := |p.frame.rows|, OutputName(rule);
    var columns, counts := WithName(p.frame.columns, output), Bump(p.counts, Error, n);
    match FailureAction(rule)
    case FailBatch => Stopped(rule, SqlReason(message), counts)
    case Quarantine =>
      Running(Frame(p.frame.columns, []),
              p.quarantined + multiset(QuarantineAll(engine, p.frame, rule, SqlReason(message))),
              Bump(counts, QuarantinedRow, n))
    case DropRow => Running(Frame(p.frame.columns, []), p.quarantined, Bump(counts, DroppedRow, n))
    case SetNull =>
      Running(Frame(columns, WithColumn(engine, output, Lit(Null), p.frame.rows)), p.quarantined,
              Bump(counts, SetToNull, n))
    case Keep =>
      Running(Frame(columns, WithColumn(engine, output, FallbackColumn(p.frame, rule), p.frame.rows)),
              p.quarantined, Bump(counts, Warned, n))
  }

  // ----- A failed SQL rule fails on every row -----

  /** The rule as the row engine would compile it, were it to fail on a row. */
  function FailedPass(engine: Engine, columns: seq<string>, rule: Rule, message: string): Pass {
    var source := ColumnOrNull(ResolveColumn(columns, First(rule.inputColumns)));
    Pass(OutputName(rule), Built(Lit(Null), Lit(TRUE), SqlReason(message), source), FailureAction(rule),
         SqlRecorder(engine, columns, rule, SqlReason(message)))
  }

  function FailsEveryRow(engine: Engine, pass: Pass): Cells -> RowRun<Cells> {
    cells => pass.Fail(engine, cells)
  }

  /** The counters after `n` more rows that fail. */
  function Failing(counts: Counts, action: Action, n: nat): Counts {
    var errors := Bump(counts, Error, n);
    match action
    case FailBatch => errors
    case Quarantine => Bump(errors, QuarantinedRow, n)
    case DropRow => Bump(errors, DroppedRow, n)
    case SetNull => Bump(errors, SetToNull, n)
    case Keep => Bump(errors, Warned, n)
  }

  function FailTally(action: Action, n: nat): Counts {
    Failing(multiset{}, action, n)
  }

  lemma FailingAdds(counts: Counts, action: Action, n: nat)
    ensures Failing(counts, action, n) == counts + FailTally(action, n)
  {
  }

  lemma {:induction false} FailedRowsTally(engine: Engine, pass: Pass, rows: seq<Cells>)
    ensures Tally(FailsEveryRow(engine, pass), rows) == FailTally(pass.action, |rows|)
  {
    if rows != [] {
      FailedRowsTally(engine, pass, rows[1..]);
      OneMoreFails(engine, pass, rows[0], |rows| - 1);
    }
  }

  lemma OneMoreFails(engine: Engine, pass: Pass, cells: Cells, n: nat)
    ensures pass.Fail(engine, cells).counts + FailTally(pass.action, n) == FailTally(pass.action, n + 1)
  {
    hide Eval;
  }

  lemma FailedRowRecord(engine: Engine, pass: Pass, cells: Cells)
    ensures pass.Fail(engine, cells).fate.Quarantined? <==> pass.action.Quarantine?
    ensures pass.action.Quarantine? ==> pass.Fail(engine, cells).fate.record == pass.record(cells)
  {
  }

  lemma {:induction false} FailedRowsRecords(engine: Engine, pass: Pass, rows: seq<Cells>)
    ensures Records(FailsEveryRow(engine, pass), rows)
         == if pass.action.Quarantine? then multiset(RecordsOf(pass.record, rows)) else multiset{}
  {
    hide pass.Fail;
    if rows != [] {
      FailedRowsRecords(engine, pass, rows[1..]);
      FailedRowRecord(engine, pass, rows[0]);
      assert RecordsOf(pass.record, rows) == [pass.record(rows[0])] + RecordsOf(pass.record, rows[1..]);
    }
  }

  lemma {:induction false} FailedRowsKept(engine: Engine, pass: Pass, rows: seq<Cells>)
    ensures KeptRows(FailsEveryRow(engine, pass), rows)
         == match pass.action
            case SetNull => WithColumn(engine, pass.output, Lit(Null), rows)
            case Keep => WithColumn(engine, pass.output, pass.built.source, rows)
            case _ => []
  {
    if rows != [] {
      FailedRowsKept(engine, pass, rows[1..]);
    }
  }

  lemma SqlFailureCounts(engine: Engine, rule: Rule, message: string, p: Progress)
    requires p.Running?
    ensures SqlFailure(engine, rule, message, p).counts
         == p.counts + FailTally(FailureAction(rule), |p.frame.rows|)
  {
    hide QuarantineAll, WithColumn, FailureAction, FailTally;
    FailingAdds(p.counts, FailureAction(rule), |p.frame.rows|);
  }

  lemma FailedRowsStop(engine: Engine, pass: Pass, rows: seq<Cells>)
    ensures SomeFails(FailsEveryRow(engine, pass), rows) <==> pass.action.FailBatch? && rows != []
  {
    var run := FailsEveryRow(engine, pass);
    if rows != [] {
      assert rows[0] in rows && (run(rows[0]).fate.Failed? <==> pass.action.FailBatch?);
    }
  }

  /** The frame and the records a failed SQL rule leaves, in terms of the pass. */
  lemma SqlFailureLeaves(engine: Engine, rule: Rule, message: string, p: Progress)
    requires p.Running?
    ensures var pass, rows := FailedPass(engine, p.frame.columns, rule, message), p.frame.rows;
      var next := SqlFailure(engine, rule, message, p);
      && pass.action == FailureAction(rule)
      && (next.Stopped? <==> pass.action.FailBatch?)
      && (next.Running? ==>
            && next.frame.rows == (match pass.action
                                   case SetNull => WithColumn(engine, pass.output, Lit(Null), rows)
                                   case Keep => WithColumn(engine, pass.output, pass.built.source, rows)
                                   case _ => [])
            && next.quarantined
               == p.quarantined
                  + (if pass.action.Quarantine? then multiset(RecordsOf(pass.record, rows)) else multiset{}))
  {
    hide SqlRecorder, FailureAction, OutputName, ResolveColumn, RecordsOf, WithColumn, WithName;
  }

  /** Rows that fail are kept, dropped or recorded. */
  lemma FailedRowsConserved(engine: Engine, pass: Pass, rows: seq<Cells>)
    requires !pass.action.FailBatch?
    ensures var run := FailsEveryRow(engine, pass);
      |rows| == |KeptRows(run, rows)| + Tally(run, rows)[DroppedRow] + |Records(run, rows)|
  {
    hide RecordsOf, Tally, Records, KeptRows;
    FailedRowsTally(engine, pass, rows);
    FailedRowsRecords(engine, pass, rows);
    FailedRowsKept(engine, pass, rows);
    RecordsCount(pass.record, rows);
  }

  /**
   A SQL rule that failed leaves the rows, records and counters of a row rule that fails on every row; it stops
   the batch exactly if that is its action, even an empty batch, which no row rule can stop.
   */
  lemma SqlFailureIsEveryRow(engine: Engine, rule: Rule, message: string, p: Progress)
    requires p.Running?
    ensures var run := FailsEveryRow(engine, FailedPass(engine, p.frame.columns, rule, message));
      var next := SqlFailure(engine, rule, message, p);
      && next.counts == p.counts + Tally(run, p.frame.rows)
      && (next.Stopped? <==> FailureAction(rule).FailBatch?)
      && (SomeFails(run, p.frame.rows) <==> next.Stopped? && p.frame.rows != [])
      && (next.Running? ==>
            && next.frame.rows == KeptRows(run, p.frame.rows)
            && next.quarantined == p.quarantined + Records(run, p.frame.rows)
            && |p.frame.rows| == |next.frame.rows| + Tally(run, p.frame.rows)[DroppedRow] + |Records(run, p.frame.rows)|)
  {
    hide SqlFailure, FailedPass, FailureAction, RecordsOf, Tally, Records, KeptRows, SomeFails, FailTally, WithColumn;
    var pass, rows := FailedPass(engine, p.frame.columns, rule, message), p.frame.rows;
    SqlFailureLeaves(engine, rule, message, p);
    FailedRowsTally(engine, pass, rows);
    FailedRowsRecords(engine, pass, rows);
    FailedRowsKept(engine, pass, rows);
    FailedRowsStop(engine, pass, rows);
    SqlFailureCounts(engine, rule, message, p);
    if !pass.action.FailBatch? {
      FailedRowsConserved(engine, pass, rows);
    }
  }

  lemma {:induction false} RecordsCount(record: Cells -> Record, rows: seq<Cells>)
    ensures |RecordsOf(record, rows)| == |rows|
  {
    if rows != [] {
      RecordsCount(record, rows[1..]);
    }
  }

  /** A SQL rule on a frame: all or nothing. */
  function SqlStep(engine: Engine, sql: Sql, rule: Rule, p: Progress): Progress
    requires p.Running?
  {
    match sql(p.frame, rule)
    case Success(frame) => Running(frame, p.quarantined, Bump(p.counts, Applied, |p.frame.rows|))
    case Failure(message) => SqlFailure(engine, rule, message, p)
  }

  /** One rule on the frame reached so far. */
  ghost function StepRule(engine: Engine, sql: Sql, rule: Rule, p: Progress): Progress
    requires p.Running?
  {
    if rule.operation == SqlExpression then SqlStep(engine, sql, rule, p)
    else
      var run := TransformRun(engine, [rule], p.frame.columns);
      var counts := p.counts + Tally(run, p.frame.rows);
      if SomeFails(run, p.frame.rows)
      then Stopped(rule, TransformExpression(p.frame.columns, rule).reason, counts)
      else Running(Frame(NextColumns(p.frame.columns, rule), KeptRows(run, p.frame.rows)),
                   p.quarantined + Records(run, p.frame.rows), counts)
  }

  /** The transforms one rule at a time, without segments. */
  ghost function Interpret(engine: Engine, sql: Sql, rules: seq<Rule>, p: Progress): Progress {
    if rules == [] || p.Stopped? then p else Interpret(engine, sql, rules[1..], StepRule(engine, sql, rules[0], p))
  }

  predicate NoSql(rules: seq<Rule>) {
    forall rule :: rule in rules ==> rule.operation != SqlExpression
  }

  /** What the runner must return: the transforms one at a time, then the quality phase. */
  ghost predicate RuleByRule(engine: Engine, sql: Sql, frame: Frame, rules: seq<Rule>, r: Execution) {
    var ts, qs := Enabled(rules, "transform"), Enabled(rules, "quality");
    match Interpret(engine, sql, ts, Running(frame, multiset{}, multiset{}))
    case Stopped(rule, reason, counts) =>
      r == Raised("transform", rule, reason, TransformReport(|ts|, counts), NoQuality(0))
    case Running(mid, quarantined, counts) =>
      QualityRowByRow(engine, mid, qs, quarantined, TransformReport(|ts|, counts), r)
  }

  // ----- A segment is its rules one at a time -----

  lemma {:induction false} InterpretAppend(engine: Engine, sql: Sql, a: seq<Rule>, b: seq<Rule>, p: Progress)
    ensures Interpret(engine, sql, a + b, p) == Interpret(engine, sql, b, Interpret(engine, sql, a, p))
    decreases |a|
  {
    if a == [] {
      assert a + b == b;
    } else if p.Running? {
      assert (a + b)[1..] == a[1..] + b;
      InterpretAppend(engine, sql, a[1..], b, StepRule(engine, sql, a[0], p));
    }
  }

  /** One more rule, seen from the rules done and seen from the rules still pending. */
  lemma InterpretNext(
    engine: Engine, sql: Sql, ts: seq<Rule>, i: nat, start: Progress, pending: seq<Rule>, here: Progress)
    requires i < |ts| && Interpret(engine, sql, ts[..i], start) == Interpret(engine, sql, pending, here)
    ensures var next := Interpret(engine, sql, pending + [ts[i]], here);
      && Interpret(engine, sql, ts[..i + 1], start) == next
      && (next.Stopped? ==> Interpret(engine, sql, ts, start) == next)
  {
    hide StepRule;
    assert ts == ts[..i + 1] + ts[i + 1..] && ts[..i + 1] == ts[..i] + [ts[i]];
    InterpretAppend(engine, sql, ts[..i + 1], ts[i + 1..], start);
    InterpretAppend(engine, sql, ts[..i], [ts[i]], start);
    InterpretAppend(engine, sql, pending, [ts[i]], here);
  }

  /** The rest of a segment after its first rule. */
  lemma SegmentHead(engine: Engine, s: seq<Rule>, columns: seq<string>, rows: seq<Cells>)
    requires s != []
    ensures var one, all := TransformRun(engine, s[..1], columns), TransformRun(engine, s, columns);
      var next, kept := NextColumns(columns, s[0]), KeptRows(one, rows);
      var rest := TransformRun(engine, s[1..], next);
      && KeptRows(all, rows) == KeptRows(rest, kept)
      && Records(all, rows) == Records(one, rows) + Records(rest, kept)
      && Tally(all, rows) == Tally(one, rows) + Tally(rest, kept)
      && ColumnsAfter(engine, s, columns) == ColumnsAfter(engine, s[1..], next)
      && (SomeFails(all, rows) <==> SomeFails(one, rows) || SomeFails(rest, kept))
      && (forall k: nat :: FirstFailure(one, rows, k) ==> FirstFailure(all, rows, k))
      && (forall k: nat :: !SomeFails(one, rows) && FirstFailure(rest, kept, k) ==> FirstFailure(all, rows, k + 1))
  {
    var m := TransformMachine(engine);
    TransformsWellPlaced(engine);
    assert s[..1] + s[1..] == s;
    assert ContextAfter(m, s[..1], columns) == NextColumns(columns, s[0]);
    Segmentation(m, s[..1], s[1..], columns, rows);
    ContextAppend(m, s[..1], s[1..], columns);
  }

  lemma UnionAssociates<T>(a: multiset<T>, b: multiset<T>, c: multiset<T>)
    ensures a + (b + c) == (a + b) + c
  {
  }

  /** The state after the first rule of a segment, if no row fails there. */
  ghost function AfterHead(engine: Engine, s: seq<Rule>, p: Progress): Progress
    requires p.Running? && s != []
  {
    var one := TransformRun(engine, s[..1], p.frame.columns);
    Running(Frame(NextColumns(p.frame.columns, s[0]), KeptRows(one, p.frame.rows)),
            p.quarantined + Records(one, p.frame.rows), p.counts + Tally(one, p.frame.rows))
  }

  lemma InterpretHead(engine: Engine, sql: Sql, s: seq<Rule>, p: Progress)
    requires p.Running? && s != [] && NoSql(s)
    requires !SomeFails(TransformRun(engine, s[..1], p.frame.columns), p.frame.rows)
    ensures Interpret(engine, sql, s, p) == Interpret(engine, sql, s[1..], AfterHead(engine, s, p))
  {
    assert s[..1] == [s[0]];
    assert s[0] in s;
    assert StepRule(engine, sql, s[0], p) == AfterHead(engine, s, p);
  }

  /** A segment without failing rows is its rules one at a time. */
  lemma {:induction false} SegmentRuns(engine: Engine, sql: Sql, s: seq<Rule>, p: Progress)
    requires p.Running? && NoSql(s)
    requires !SomeFails(TransformRun(engine, s, p.frame.columns), p.frame.rows)
    ensures var run := TransformRun(engine, s, p.frame.columns);
      Interpret(engine, sql, s, p)
      == Running(Frame(ColumnsAfter(engine, s, p.frame.columns), KeptRows(run, p.frame.rows)),
                 p.quarantined + Records(run, p.frame.rows), p.counts + Tally(run, p.frame.rows))
    decreases |s|
  {
    if s == [] {
      NoRules(engine, p.frame.columns, p.frame.rows);
    } else {
      var columns, rows := p.frame.columns, p.frame.rows;
      var one, p1 := TransformRun(engine, s[..1], columns), AfterHead(engine, s, p);
      var rest := TransformRun(engine, s[1..], p1.frame.columns);
      SegmentHead(engine, s, columns, rows);
      InterpretHead(engine, sql, s, p);
      SegmentRuns(engine, sql, s[1..], p1);
      UnionAssociates(p.quarantined, Records(one, rows), Records(rest, p1.frame.rows));
      UnionAssociates(p.counts, Tally(one, rows), Tally(rest, p1.frame.rows));
    }
  }

  /** Where and with which counters a segment stops, from the rules after its first one. */
  lemma SegmentStopsLater(engine: Engine, s: seq<Rule>, columns: seq<string>, rows: seq<Cells>, k: nat)
    returns (j: nat)
    requires s != [] && !SomeFails(TransformRun(engine, s[..1], columns), rows)
    requires FirstFailure(TransformRun(engine, s, columns), rows, k)
    ensures var kept := KeptRows(TransformRun(engine, s[..1], columns), rows);
      FirstFailure(TransformRun(engine, s[1..], NextColumns(columns, s[0])), kept, j)
    ensures k == j + 1
  {
    var rest := TransformRun(engine, s[1..], NextColumns(columns, s[0]));
    SegmentHead(engine, s, columns, rows);
    j := SomeFirstFailure(rest, KeptRows(TransformRun(engine, s[..1], columns), rows));
    OneFirstFailure(TransformRun(engine, s, columns), rows, j + 1, k);
  }

  lemma PrefixTally(engine: Engine, s: seq<Rule>, j: nat, columns: seq<string>, rows: seq<Cells>)
    requires j + 1 < |s|
    ensures var one, next := TransformRun(engine, s[..1], columns), NextColumns(columns, s[0]);
      Tally(TransformRun(engine, s[..j + 2], columns), rows)
      == Tally(one, rows) + Tally(TransformRun(engine, s[1..][..j + 1], next), KeptRows(one, rows))
  {
    var m := TransformMachine(engine);
    TransformsWellPlaced(engine);
    assert s[..j + 2] == s[..1] + s[1..][..j + 1];
    Segmentation(m, s[..1], s[1..][..j + 1], columns, rows);
    assert ContextAfter(m, s[..1], columns) == NextColumns(columns, s[0]);
  }

  lemma PrefixColumns(engine: Engine, s: seq<Rule>, j: nat, columns: seq<string>)
    requires j + 1 < |s|
    ensures ColumnsAfter(engine, s[..j + 1], columns)
         == ColumnsAfter(engine, s[1..][..j], NextColumns(columns, s[0]))
  {
    var m := TransformMachine(engine);
    assert s[..j + 1] == s[..1] + s[1..][..j];
    ContextAppend(m, s[..1], s[1..][..j], columns);
    assert ContextAfter(m, s[..1], columns) == NextColumns(columns, s[0]);
  }

  lemma PrefixReason(engine: Engine, s: seq<Rule>, j: nat, columns: seq<string>)
    requires j + 1 < |s|
    ensures TransformReason(engine, s, columns, j + 1)
         == TransformReason(engine, s[1..], NextColumns(columns, s[0]), j)
  {
    PrefixColumns(engine, s, j, columns);
  }

  /** Stopped at rule `k` of a segment, with the counters up to and with it. */
  function StoppedAt(engine: Engine, s: seq<Rule>, k: nat, columns: seq<string>, rows: seq<Cells>, counts: Counts)
    : Progress
    requires k < |s|
  {
    Stopped(s[k], TransformReason(engine, s, columns, k),
            counts + Tally(TransformRun(engine, s[..k + 1], columns), rows))
  }

  lemma StoppedLater(engine: Engine, s: seq<Rule>, j: nat, columns: seq<string>, rows: seq<Cells>, counts: Counts)
    requires j + 1 < |s|
    ensures var one := TransformRun(engine, s[..1], columns);
      StoppedAt(engine, s[1..], j, NextColumns(columns, s[0]), KeptRows(one, rows), counts + Tally(one, rows))
      == StoppedAt(engine, s, j + 1, columns, rows, counts)
  {
    var one, next := TransformRun(engine, s[..1], columns), NextColumns(columns, s[0]);
    PrefixReason(engine, s, j, columns);
    PrefixTally(engine, s, j, columns, rows);
    UnionAssociates(counts, Tally(one, rows), Tally(TransformRun(engine, s[1..][..j + 1], next), KeptRows(one, rows)));
  }

  lemma StopsAfterHead(engine: Engine, sql: Sql, s: seq<Rule>, p: Progress, j: nat)
    requires p.Running? && NoSql(s) && j + 1 < |s|
    requires !SomeFails(TransformRun(engine, s[..1], p.frame.columns), p.frame.rows)
    requires var p1 := AfterHead(engine, s, p);
      Interpret(engine, sql, s[1..], p1) == StoppedAt(engine, s[1..], j, p1.frame.columns, p1.frame.rows, p1.counts)
    ensures Interpret(engine, sql, s, p) == StoppedAt(engine, s, j + 1, p.frame.columns, p.frame.rows, p.counts)
  {
    InterpretHead(engine, sql, s, p);
    StoppedLater(engine, s, j, p.frame.columns, p.frame.rows, p.counts);
  }

  lemma SegmentStopsAtOnce(engine: Engine, sql: Sql, s: seq<Rule>, p: Progress, k: nat)
    requires p.Running? && NoSql(s) && k < |s| && SomeFails(TransformRun(engine, [s[0]], p.frame.columns), p.frame.rows)
    requires FirstFailure(TransformRun(engine, s, p.frame.columns), p.frame.rows, k)
    ensures k == 0
    ensures Interpret(engine, sql, s, p)
         == Stopped(s[0], TransformReason(engine, s, p.frame.columns, 0),
                    p.counts + Tally(TransformRun(engine, s[..1], p.frame.columns), p.frame.rows))
  {
    var columns, rows := p.frame.columns, p.frame.rows;
    var one := TransformRun(engine, [s[0]], columns);
    assert s[..1] == [s[0]] && s[..0] == [];
    SegmentHead(engine, s, columns, rows);
    var j := SomeFirstFailure(one, rows);
    FailsAtFirst(engine, s[0], columns, rows, j);
    OneFirstFailure(TransformRun(engine, s, columns), rows, j, k);
  }

  /** A row of this progress fails first at rule `k` of the segment. */
  ghost predicate FailsAt(engine: Engine, s: seq<Rule>, p: Progress, k: nat) {
    && p.Running? && NoSql(s) && k < |s|
    && FirstFailure(TransformRun(engine, s, p.frame.columns), p.frame.rows, k)
  }

  ghost predicate FailsAtOnce(engine: Engine, s: seq<Rule>, p: Progress)
    requires p.Running? && s != []
  {
    SomeFails(TransformRun(engine, s[..1], p.frame.columns), p.frame.rows)
  }

  ghost predicate StopsAt(engine: Engine, sql: Sql, s: seq<Rule>, p: Progress, k: nat) {
    && p.Running? && k < |s|
    && Interpret(engine, sql, s, p) == StoppedAt(engine, s, k, p.frame.columns, p.frame.rows, p.counts)
  }

  lemma FailsLater(engine: Engine, s: seq<Rule>, p: Progress, k: nat) returns (j: nat)
    requires p.Running? && s != [] && FailsAt(engine, s, p, k) && !FailsAtOnce(engine, s, p)
    ensures s[1..] != [] && FailsAt(engine, s[1..], AfterHead(engine, s, p), j) && k == j + 1
  {
    j := SegmentStopsLater(engine, s, p.frame.columns, p.frame.rows, k);
  }

  lemma StopsLater(engine: Engine, sql: Sql, s: seq<Rule>, p: Progress, j: nat)
    requires p.Running? && s != [] && FailsAt(engine, s, p, j + 1) && !FailsAtOnce(engine, s, p)
    requires StopsAt(engine, sql, s[1..], AfterHead(engine, s, p), j)
    ensures StopsAt(engine, sql, s, p, j + 1)
  {
    StopsAfterHead(engine, sql, s, p, j);
  }

  lemma StopsAtOnce(engine: Engine, sql: Sql, s: seq<Rule>, p: Progress, k: nat)
    requires p.Running? && s != [] && FailsAt(engine, s, p, k) && FailsAtOnce(engine, s, p)
    ensures StopsAt(engine, sql, s, p, k)
  {
    assert s[..1] == [s[0]];
    SegmentStopsAtOnce(engine, sql, s, p, k);
  }

  /** A segment with failing rows stops where its rules one at a time stop, with the same counters. */
  lemma {:induction false} SegmentStops(engine: Engine, sql: Sql, s: seq<Rule>, p: Progress, k: nat)
    requires FailsAt(engine, s, p, k)
    ensures StopsAt(engine, sql, s, p, k)
    decreases k
  {
    hide FailsAtOnce, AfterHead, StopsAt, FirstFailure, TransformRun;
    if FailsAtOnce(engine, s, p) {
      StopsAtOnce(engine, sql, s, p, k);
    } else {
      var j := FailsLater(engine, s, p, k);
      SegmentStops(engine, sql, s[1..], AfterHead(engine, s, p), j);
      StopsLater(engine, sql, s, p, j);
    }
  }

  /** A batch that stopped is where its rules one at a time stop. */
  lemma SegmentStopsAs(engine: Engine, sql: Sql, s: seq<Rule>, p: Progress, qualityRules: nat, r: Execution)
    requires p.Running? && NoSql(s) && TransformsStop(engine, p.frame, s, qualityRules, r)
    ensures Interpret(engine, sql, s, p) == Stopped(r.rule, r.reason, p.counts + r.transform.counts)
    ensures r == Raised("transform", r.rule, r.reason, TransformReport(|s|, r.transform.counts),
                        NoQuality(qualityRules))
  {
    var k: nat :| k < |s| && FirstFailure(TransformRun(engine, s, p.frame.columns), p.frame.rows, k)
      && r.rule == s[k] && r.reason == TransformReason(engine, s, p.frame.columns, k)
      && r.transform
         == TransformReport(|s|, Tally(TransformRun(engine, s[..k + 1], p.frame.columns), p.frame.rows));
    SegmentStops(engine, sql, s, p, k);
  }

  lemma FailsAtFirst(engine: Engine, rule: Rule, columns: seq<string>, rows: seq<Cells>, j: nat)
    requires FirstFailure(TransformRun(engine, [rule], columns), rows, j)
    ensures j == 0
  {
    var run := TransformRun(engine, [rule], columns);
    var row :| row in rows && run(row).fate == Failed(j);
    TransformsWellPlaced(engine);
    OneRuleFails(TransformMachine(engine), columns, rule, row);
  }

  lemma OneRuleFails<C(!new), R(!new), T(!new)>(m: Machine<C, R, T>, context: C, rule: R, row: T)
    requires WellPlaced(m)
    ensures var fate := Runner(m, [rule], context)(row).fate; fate.Failed? ==> fate.at == 0
  {
    RunSingle(m, context, rule, row);
  }

  // ----- Lists of enabled rules -----

  lemma {:induction false} EnabledKind(rules: seq<Rule>, kind: string)
    ensures forall rule :: rule in Enabled(rules, kind) ==> rule.enabled && rule.kind == kind
  {
    if rules != [] {
      EnabledKind(rules[1..], kind);
    }
  }

  lemma {:induction false} EnabledAll(rules: seq<Rule>, kind: string)
    requires forall rule :: rule in rules ==> rule.enabled && rule.kind == kind
    ensures Enabled(rules, kind) == rules
  {
    if rules != [] {
      EnabledAll(rules[1..], kind);
      assert rules[0] in rules;
    }
  }

  lemma {:induction false} EnabledNone(rules: seq<Rule>, kind: string)
    requires forall rule :: rule in rules ==> rule.kind != kind
    ensures Enabled(rules, kind) == []
  {
    if rules != [] {
      EnabledNone(rules[1..], kind);
      assert rules[0] in rules;
    }
  }

  lemma {:induction false} NoQualityRules(engine: Engine, columns: seq<string>, rows: seq<Cells>)
    ensures var judged := JudgeAll(engine, [], columns, rows);
      && CountInvalid(judged) == 0
      && CellsOf(judged) == rows
  {
    if rows != [] {
      NoQualityRules(engine, columns, rows[1..]);
      assert JudgeAll(engine, [], columns, rows)[1..] == JudgeAll(engine, [], columns, rows[1..]);
    }
  }

  /** Without quality rules the quality phase hands everything on unchanged. */
  lemma QualityPhaseEmpty(engine: Engine, mid: Frame, quarantined: multiset<Record>, t: TransformReport, r: Execution)
    ensures QualityRowByRow(engine, mid, [], quarantined, t, r)
       <==> r.Done? && r.frame == mid && Contents(r.quarantine) == quarantined && r.transform == t
            && r.quality == QualityReport(0, Some(|mid.rows|), 0, 0, multiset{}, "pass")
  {
    NoQualityRules(engine, mid.columns, mid.rows);
    NoGates(engine, mid.columns, JudgeAll(engine, [], mid.columns, mid.rows));
  }

  /** A batch of transforms only, as the runner submits a segment. */
  lemma TransformsOnly(engine: Engine, frame: Frame, s: seq<Rule>, r: Execution)
    requires forall rule :: rule in s ==> rule.enabled && rule.kind == "transform"
    requires RowByRow(engine, frame, s, r)
    ensures var run := TransformRun(engine, s, frame.columns);
      if SomeFails(run, frame.rows) then TransformsStop(engine, frame, s, 0, r)
      else
        && r.Done?
        && r.frame == Frame(ColumnsAfter(engine, s, frame.columns), KeptRows(run, frame.rows))
        && Contents(r.quarantine) == Records(run, frame.rows)
        && r.transform.counts == Tally(run, frame.rows)
        && r.quality.evaluated == Some(|r.frame.rows|)
  {
    EnabledAll(s, "transform");
    EnabledNone(s, "quality");
    var run := TransformRun(engine, s, frame.columns);
    if !SomeFails(run, frame.rows) {
      QualityPhaseEmpty(engine, Frame(ColumnsAfter(engine, s, frame.columns), KeptRows(run, frame.rows)),
                        Records(run, frame.rows), TransformReport(|s|, Tally(run, frame.rows)), r);
    }
  }

  /** What a flushed segment comes to is what its rules one at a time come to. */
  lemma FlushOutcome(engine: Engine, sql: Sql, s: seq<Rule>, p: Progress, r: Execution)
    requires p.Running? && NoSql(s) && RowByRow(engine, p.frame, s, r)
    requires forall rule :: rule in s ==> rule.enabled && rule.kind == "transform"
    ensures var counts := p.counts + r.transform.counts;
      if r.Raised? then
        && r.stage == "transform" && r.quality == NoQuality(0)
        && Interpret(engine, sql, s, p) == Stopped(r.rule, r.reason, counts)
      else
        && r.quality.evaluated == Some(|r.frame.rows|)
        && Interpret(engine, sql, s, p) == Running(r.frame, p.quarantined + Contents(r.quarantine), counts)
  {
    TransformsOnly(engine, p.frame, s, r);
    if r.Raised? {
      SegmentStopsAs(engine, sql, s, p, 0, r);
    } else {
      SegmentRuns(engine, sql, s, p);
    }
  }

  function Merge(quarantine: Option<seq<Record>>, next: Option<seq<Record>>): (r: Option<seq<Record>>)
    ensures Contents(r) == Contents(quarantine) + Contents(next)
  {
    match next
    case None => quarantine
    case Some(records) => Append(quarantine, records)
  }

  /** Whether an execution, or none, is how a runner with `configured` transforms leaves progress `p`. */
  ghost predicate Reports(p: Progress, configured: nat, raised: Option<Execution>) {
    match p
    case Running(_, _, _) => raised.None?
    case Stopped(rule, reason, counts) =>
      raised == Some(Raised("transform", rule, reason, TransformReport(configured, counts), NoQuality(0)))
  }

  /** A segment submitted as one batch and merged, read as its rules one at a time. */
  method RunSegment(
    engine: Engine, ghost sql: Sql, s: seq<Rule>, frame: Frame, rowCount: Option<nat>,
    quarantine: Option<seq<Record>>, transform: TransformReport)
    returns (raised: Option<Execution>, current: Frame, currentRowCount: Option<nat>,
             quarantined: Option<seq<Record>>, report: TransformReport)
    requires NoSql(s) && (rowCount.Some? ==> rowCount.value == |frame.rows|)
    requires forall rule :: rule in s ==> rule.enabled && rule.kind == "transform"
    ensures report.configured == transform.configured
    ensures var next := Interpret(engine, sql, s, Running(frame, Contents(quarantine), transform.counts));
      && Reports(next, transform.configured, raised)
      && (raised.None? ==> next == Running(current, Contents(quarantined), report.counts))
    ensures raised.None? ==> currentRowCount == Some(|current.rows|)
  {
    current, currentRowCount, quarantined := frame, rowCount, quarantine;
    var execution := ApplySnapshotRules(engine, frame, s, rowCount);
    FlushOutcome(engine, sql, s, Running(frame, Contents(quarantine), transform.counts), execution);
    report := transform.(counts := transform.counts + execution.transform.counts);
    if execution.Raised? {
      raised := Some(Raised(execution.stage, execution.rule, execution.reason, report, execution.quality));
    } else {
      raised, current, currentRowCount := None, execution.frame, execution.quality.evaluated;
      quarantined := Merge(quarantine, execution.quarantine);
    }
  }

  /** The failure action of an SQL rule that failed, on every row of the frame. */
  method FailSqlRule(
    engine: Engine, rule: Rule, message: string, frame: Frame, rowCount: nat,
    quarantine: Option<seq<Record>>, transform: TransformReport)
    returns (raised: Option<Execution>, current: Frame, currentRowCount: Option<nat>,
             quarantined: Option<seq<Record>>, report: TransformReport)
    requires rowCount == |frame.rows|
    ensures report.configured == transform.configured
    ensures var next := SqlFailure(engine, rule, message, Running(frame, Contents(quarantine), transform.counts));
      && Reports(next, transform.configured, raised)
      && (raised.None? ==> next == Running(current, Contents(quarantined), report.counts))
    ensures currentRowCount == Some(|current.rows|)
  {
    raised, current, currentRowCount, quarantined := None, frame, Some(rowCount), quarantine;
    var counts := Bump(transform.counts, Error, rowCount);
    var reason := SqlReason(message);
    var columns := WithName(frame.columns, OutputName(rule));
    match FailureAction(rule) {
      case FailBatch =>
        raised := Some(Raised("transform", rule, reason, transform.(counts := counts), NoQuality(0)));
      case Quarantine =>
        counts := Bump(counts, QuarantinedRow, rowCount);
        quarantined := Merge(quarantine, Some(QuarantineAll(engine, frame, rule, reason)));
        current, currentRowCount := Frame(frame.columns, []), Some(0);
      case DropRow =>
        counts := Bump(counts, DroppedRow, rowCount);
        current, currentRowCount := Frame(frame.columns, []), Some(0);
      case SetNull =>
        counts := Bump(counts, SetToNull, rowCount);
        current := Frame(columns, WithColumn(engine, OutputName(rule), Lit(Null), frame.rows));
      case Keep =>
        counts := Bump(counts, Warned, rowCount);
        current := Frame(columns, WithColumn(engine, OutputName(rule), FallbackColumn(frame, rule), frame.rows));
    }
    report := transform.(counts := counts);
  }

  // ----- The runner -----

  class SparkRuleRun {
    var current: Frame
    var currentRowCount: Option<nat>
    var quarantine: Option<seq<Record>>
    var segment: seq<Rule>
    var transform: TransformReport

    ghost predicate Valid()
      reads this
    {
      && (currentRowCount.Some? ==> currentRowCount.value == |current.rows|)
      && NoSql(segment)
      && (forall rule :: rule in segment ==> rule.enabled && rule.kind == "transform")
    }

    ghost function State(): Progress
      reads this
    {
      Running(current, Contents(quarantine), transform.counts)
    }

    /** The run now stands at `p`; `raised` is the exception to pass on if it stopped. */
    ghost predicate At(p: Progress, raised: Option<Execution>)
      reads this
    {
      Reports(p, transform.configured, raised) && (raised.None? ==> State() == p)
    }

    constructor (frame: Frame, configured: nat, inputRowCount: Option<nat>)
      requires inputRowCount.Some? ==> inputRowCount.value == |frame.rows|
      ensures Valid() && segment == [] && transform == TransformReport(configured, multiset{})
      ensures State() == Running(frame, multiset{}, multiset{})
    {
      current, currentRowCount, quarantine := frame, inputRowCount, None;
      segment, transform := [], TransformReport(configured, multiset{});
    }

    /** Runs the pending segment as one batch. */
    method FlushSegment(engine: Engine, ghost sql: Sql) returns (raised: Option<Execution>)
      requires Valid()
      modifies this
      ensures transform.configured == old(transform.configured) && (raised.None? ==> Valid())
      ensures At(Interpret(engine, sql, old(segment), old(State())), raised)
      ensures raised.None? ==> segment == []
    {
      raised := None;
      if segment == [] {
        return;
      }
      raised, current, currentRowCount, quarantine, transform :=
        RunSegment(engine, sql, segment, current, currentRowCount, quarantine, transform);
      if raised.None? {
        segment := [];
      }
    }

    /** Runs one SQL rule on the whole frame. */
    method TakeSqlRule(engine: Engine, sql: Sql, rule: Rule) returns (raised: Option<Execution>)
      requires Valid() && segment == []
      modifies this
      ensures Valid() && segment == [] && transform.configured == old(transform.configured)
      ensures At(SqlStep(engine, sql, rule, old(State())), raised)
    {
      var rowCount := if currentRowCount.Some? then currentRowCount.value else |current.rows|;
      var result := sql(current, rule);
      if result.Success? {
        raised := None;
        transform := transform.(counts := Bump(transform.counts, Applied, rowCount));
        current, currentRowCount := result.frame, Some(|result.frame.rows|);
      } else {
        raised, current, currentRowCount, quarantine, transform :=
          FailSqlRule(engine, rule, result.message, current, rowCount, quarantine, transform);
      }
    }

    /** Takes the next rule: into the pending segment, or, for SQL, run after flushing it. */
    method TakeRule(engine: Engine, sql: Sql, rule: Rule) returns (raised: Option<Execution>)
      requires Valid() && rule.enabled && rule.kind == "transform"
      modifies this
      ensures transform.configured == old(transform.configured) && (raised.None? ==> Valid())
      ensures var next := Interpret(engine, sql, old(segment) + [rule], old(State()));
        if raised.None? then Interpret(engine, sql, segment, State()) == next else next.Stopped? && At(next, raised)
    {
      ghost var pending, here := segment, State();
      InterpretAppend(engine, sql, pending, [rule], here);
      if rule.operation != SqlExpression {
        segment := segment + [rule];
        return None;
      }
      raised := FlushSegment(engine, sql);
      if raised.None? {
        ghost var flushed := State();
        raised := TakeSqlRule(engine, sql, rule);
        assert Interpret(engine, sql, [rule], flushed) == SqlStep(engine, sql, rule, flushed);
      }
    }

    /** All transforms, segment by segment. */
    method RunTransforms(engine: Engine, sql: Sql, ts: seq<Rule>) returns (raised: Option<Execution>)
      requires Valid() && segment == []
      requires forall rule :: rule in ts ==> rule.enabled && rule.kind == "transform"
      modifies this
      ensures transform.configured == old(transform.configured) && (raised.None? ==> Valid())
      ensures At(Interpret(engine, sql, ts, old(State())), raised)
    {
      ghost var start := State();
      assert ts[..0] == [];
      for i := 0 to |ts|
        invariant Valid() && transform.configured == old(transform.configured)
        invariant Interpret(engine, sql, ts[..i], start) == Interpret(engine, sql, segment, State())
      {
        InterpretNext(engine, sql, ts, i, start, segment, State());
        raised := TakeRule(engine, sql, ts[i]);
        if raised.Some? {
          return;
        }
      }
      assert ts[..|ts|] == ts;
      raised := FlushSegment(engine, sql);
    }
  }

  /** The quality batch's execution with the transform phase's quarantine and counters put back. */
  function WithTransforms(r: Execution, earlier: Option<seq<Record>>, t: TransformReport): Execution {
    match r
    case Done(frame, quarantine, _, quality) => Done(frame, Merge(earlier, quarantine), t, quality)
    case Raised(stage, rule, reason, _, quality) => Raised(stage, rule, reason, t, quality)
  }

  /** The runner: transforms in segments, then the quality rules as one batch. */
  method ApplySparkSnapshotRules(engine: Engine, sql: Sql, frame: Frame, rules: seq<Rule>, inputRowCount: Option<nat>)
    returns (r: Execution)
    requires inputRowCount.Some? ==> inputRowCount.value == |frame.rows|
    ensures RuleByRule(engine, sql, frame, rules, r)
  {
    var ts, qs := Enabled(rules, "transform"), Enabled(rules, "quality");
    EnabledKind(rules, "transform");
    EnabledKind(rules, "quality");
    var run := new SparkRuleRun(frame, |ts|, inputRowCount);
    var raised := run.RunTransforms(engine, sql, ts);
    if raised.Some? {
      return raised.value;
    }
    if qs != [] {
      var execution := ApplySnapshotRules(engine, run.current, qs, run.currentRowCount);
      QualityOnly(engine, run.current, qs, run.quarantine, run.transform, execution);
      r := WithTransforms(execution, run.quarantine, run.transform);
    } else {
      var rowCount := if run.currentRowCount.Some? then run.currentRowCount.value else |run.current.rows|;
      QualityPhaseEmpty(
        engine, run.current, Contents(run.quarantine), run.transform,
        Done(run.current, run.quarantine, run.transform, QualityReport(0, Some(rowCount), 0, 0, multiset{}, "pass")));
      r := Done(run.current, run.quarantine, run.transform,
                QualityReport(0, Some(rowCount), 0, 0, multiset{}, "pass"));
    }
  }

  /** The quality rules submitted as a batch of their own, the runner's quarantine and counters put back. */
  lemma QualityOnly(
    engine: Engine, frame: Frame, qs: seq<Rule>, earlier: Option<seq<Record>>, t: TransformReport, r: Execution)
    requires forall rule :: rule in qs ==> rule.enabled && rule.kind == "quality"
    requires RowByRow(engine, frame, qs, r)
    ensures QualityRowByRow(engine, frame, qs, Contents(earlier), t, WithTransforms(r, earlier, t))
  {
    EnabledAll(qs, "quality");
    EnabledNone(qs, "transform");
    NoRules(engine, frame.columns, frame.rows);
    assert QualityRowByRow(engine, frame, qs, multiset{}, TransformReport(0, multiset{}), r);
  }

  /**
   Segmentation preserves meaning: without SQL rules, on normal return the runner gives the frame, quarantine
   and counters of one call of the rule engine, and it raises exactly when that call does, for the same rule.
   */
  lemma RunnerAgreesWithEngine(
    engine: Engine, sql: Sql, frame: Frame, rules: seq<Rule>, whole: Execution, segmented: Execution)
    requires NoSql(Enabled(rules, "transform"))
    requires RowByRow(engine, frame, rules, whole) && RuleByRule(engine, sql, frame, rules, segmented)
    ensures whole.Done? ==> SameOutcome(whole, segmented)
    ensures whole.Raised? ==>
      && segmented.Raised? && segmented.stage == whole.stage && segmented.rule == whole.rule
      && segmented.reason == whole.reason && segmented.transform == whole.transform
      && (whole.stage == "quality" ==> segmented.quality == whole.quality)
  {
    var ts, qs := Enabled(rules, "transform"), Enabled(rules, "quality");
    var start := Running(frame, multiset{}, multiset{});
    var run := TransformRun(engine, ts, frame.columns);
    if SomeFails(run, frame.rows) {
      SegmentStopsAs(engine, sql, ts, start, |qs|, whole);
      assert start.counts + whole.transform.counts == whole.transform.counts;
    } else {
      var mid := Frame(ColumnsAfter(engine, ts, frame.columns), KeptRows(run, frame.rows));
      var t := TransformReport(|ts|, Tally(run, frame.rows));
      StartedSegmentRuns(engine, sql, ts, frame);
      QualityPhaseDetermines(engine, mid, qs, Records(run, frame.rows), t, whole, segmented);
      QualityStageOnly(engine, mid, qs, Records(run, frame.rows), t, whole);
    }
  }

  lemma StartedSegmentRuns(engine: Engine, sql: Sql, ts: seq<Rule>, frame: Frame)
    requires NoSql(ts) && !SomeFails(TransformRun(engine, ts, frame.columns), frame.rows)
    ensures var run := TransformRun(engine, ts, frame.columns);
      Interpret(engine, sql, ts, Running(frame, multiset{}, multiset{}))
      == Running(Frame(ColumnsAfter(engine, ts, frame.columns), KeptRows(run, frame.rows)),
                 Records(run, frame.rows), Tally(run, frame.rows))
  {
    SegmentRuns(engine, sql, ts, Running(frame, multiset{}, multiset{}));
    var run := TransformRun(engine, ts, frame.columns);
    assert multiset{} + Records(run, frame.rows) == Records(run, frame.rows);
    assert multiset{} + Tally(run, frame.rows) == Tally(run, frame.rows);
  }

  lemma QualityStageOnly(
    engine: Engine, mid: Frame, qs: seq<Rule>, quarantined: multiset<Record>, t: TransformReport, r: Execution)
    requires QualityRowByRow(engine, mid, qs, quarantined, t, r)
    ensures r.Raised? ==> r.stage == "quality"
  {
  }
}
