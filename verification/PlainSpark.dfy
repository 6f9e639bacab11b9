/**
 The plain reading of the Spark runner, SQL rules included, and what holds over whole runs whatever the SQL rules
 return: the quarantine and the counters only grow, and they agree.
 */
module PlainSpark {
  import opened Wrappers
  import opened Expressions
  import opened RuleExpressions
  import opened RowRuns
  import opened SnapshotRules
  import opened RuleMeanings
  import opened PlainRules
  import opened SparkSnapshotRules
  import SnapshotRuleLaws
  import Text

  // ----- One rule on a whole frame -----

  /** The columns of a row that are not internal, with their cells. */
  function PublicCells(columns: seq<string>, cells: Cells): seq<(string, Cell)> {
    if columns == [] then []
    else
      var rest := PublicCells(columns[1..], cells);
      if |columns[0]| >= 10 && columns[0][..10] == "__asklake_" then rest
      else [(columns[0], Held(cells, columns[0]))] + rest
  }

  function PlainSqlRecord(engine: Engine, columns: seq<string>, rule: Rule, reason: string, cells: Cells): Record {
    Record(
      topic := As(engine, "string", Named(columns, "topic", cells)),
      partition := As(engine, "int", FirstNamed(columns, "partition", "kafka_partition", cells)),
      offset := As(engine, "long", FirstNamed(columns, "offset", "kafka_offset", cells)),
      kafkaTimestamp := As(engine, "timestamp", Named(columns, "kafka_timestamp", cells)),
      rawPayload := As(engine, "string", Named(columns, "raw_payload", cells)),
      eventId := As(engine, "string", Named(columns, "event_id", cells)),
      record := PublicCells(columns, cells),
      reason := reason,
      ruleId := rule.id,
      stage := "transform",
      targetColumn := Either(HeadOf(rule.outputColumns), HeadOf(rule.inputColumns)))
  }

  function PlainSqlRecords(engine: Engine, columns: seq<string>, rule: Rule, reason: string, rows: seq<Cells>)
    : multiset<Record>
  {
    if rows == [] then multiset{}
    else multiset{PlainSqlRecord(engine, columns, rule, reason, rows[0])}
         + PlainSqlRecords(engine, columns, rule, reason, rows[1..])
  }

  function ErrorText(message: string): string {
    "sql_expression_failed: " + message[..if |message| < 500 then |message| else 500]
  }

  function AllNull(name: string, rows: seq<Cells>): seq<Cells> {
    if rows == [] then [] else [rows[0][name := Null]] + AllNull(name, rows[1..])
  }

  function AllInput(columns: seq<string>, rule: Rule, name: string, rows: seq<Cells>): seq<Cells> {
    if rows == [] then []
    else [rows[0][name := Input(columns, rule, rows[0])]] + AllInput(columns, rule, name, rows[1..])
  }

  function Raise(counts: Counts, event: Event, n: nat): Counts {
    counts + multiset{}[event := n]
  }

  /** A SQL rule that failed, on every row alike. */
  function PlainSqlFailure(engine: Engine, rule: Rule, message: string, p: Progress): Progress
    requires p.Running?
  {
    var columns, rows, name := p.frame.columns, p.frame.rows, OutputFor(rule);
    var errors := Raise(p.counts, Error, |rows|);
    var wider := if name in columns then columns else columns + [name];
    if rule.onError == "fail_batch" then Stopped(rule, ErrorText(message), errors)
    else if rule.onError == "quarantine" then
      Running(Frame(columns, []), p.quarantined + PlainSqlRecords(engine, columns, rule, ErrorText(message), rows),
              Raise(errors, QuarantinedRow, |rows|))
    else if rule.failureDisposition == "drop_row" then
      Running(Frame(columns, []), p.quarantined, Raise(errors, DroppedRow, |rows|))
    else if rule.failureDisposition == "set_null" then
      Running(Frame(wider, AllNull(name, rows)), p.quarantined, Raise(errors, SetToNull, |rows|))
    else Running(Frame(wider, AllInput(columns, rule, name, rows)), p.quarantined, Raise(errors, Warned, |rows|))
  }

  ghost function PlainStep(engine: Engine, sql: Sql, rule: Rule, p: Progress): Progress
    requires p.Running?
  {
    if rule.operation == SqlExpression then
      match sql(p.frame, rule)
      case Success(next) => Running(next, p.quarantined, Raise(p.counts, Applied, |p.frame.rows|))
      case Failure(message) => PlainSqlFailure(engine, rule, message, p)
    else
      var run := Transforming(engine, [rule], p.frame.columns);
      var counts := p.counts + Tally(run, p.frame.rows);
      if SomeFails(run, p.frame.rows) then Stopped(rule, ReasonFor(rule), counts)
      else Running(Frame(PlainColumns(p.frame.columns, rule), KeptRows(run, p.frame.rows)),
                   p.quarantined + Records(run, p.frame.rows), counts)
  }

  /** The transforms of a rule list, one after the other. */
  ghost function Walk(engine: Engine, sql: Sql, rules: seq<Rule>, p: Progress): Progress {
    if rules == [] || p.Stopped? then p
    else Walk(engine, sql, rules[1..], if Active(rules[0], "transform") then PlainStep(engine, sql, rules[0], p) else p)
  }

  /** The plain reading of a run: the transforms one after the other, then the quality rules. */
  ghost predicate PlainRun(engine: Engine, sql: Sql, frame: Frame, rules: seq<Rule>, r: Execution) {
    match Walk(engine, sql, rules, Running(frame, multiset{}, multiset{}))
    case Stopped(rule, reason, counts) =>
      r == Raised("transform", rule, reason, TransformReport(CountActive(rules, "transform"), counts),
                  QualityReport(0, None, 0, 0, multiset{}, "pass"))
    case Running(mid, quarantined, counts) =>
      PlainQuality(engine, mid, rules, quarantined, TransformReport(CountActive(rules, "transform"), counts), r)
  }

  // ----- Runs are plain -----

  lemma {:induction false} PublicIs(engine: Engine, columns: seq<string>, cells: Cells)
    ensures var visible := Visible(columns);
      seq(|visible|, i requires 0 <= i < |visible| => (visible[i], Eval(engine, Col(visible[i]), cells)))
      == PublicCells(columns, cells)
  {
    if columns != [] {
      PublicIs(engine, columns[1..], cells);
      InternalIs(columns[0]);
      HeldIs(engine, columns[0], cells);
      hide Eval, Held;
      var visible, later := Visible(columns), Visible(columns[1..]);
      forall i | 0 <= i < |visible| && visible != later
        ensures (visible[i], Eval(engine, Col(visible[i]), cells)) == PublicCells(columns, cells)[i]
      {
        if i > 0 {
          assert visible[i] == later[i - 1];
        }
      }
    }
  }

  lemma InternalIs(column: string)
    ensures "__asklake_" <= column <==> |column| >= 10 && column[..10] == "__asklake_"
  {
  }

  lemma HeldIs(engine: Engine, column: string, cells: Cells)
    ensures Eval(engine, Col(column), cells) == Held(cells, column)
  {
  }

  lemma OneColumnIs(engine: Engine, columns: seq<string>, kind: string, name: string, cells: Cells)
    ensures Eval(engine, OptionalColumn(columns, [name], kind), cells) == As(engine, kind, Named(columns, name, cells))
  {
    OptionalIs(engine, columns, kind, name, "", cells);
  }

  lemma SqlRecordMeans(engine: Engine, columns: seq<string>, rule: Rule, reason: string, cells: Cells)
    ensures SqlRecordOf(engine, columns, rule, reason, cells) == PlainSqlRecord(engine, columns, rule, reason, cells)
  {
    OneColumnIs(engine, columns, "string", "topic", cells);
    OptionalIs(engine, columns, "int", "partition", "kafka_partition", cells);
    OptionalIs(engine, columns, "long", "offset", "kafka_offset", cells);
    OneColumnIs(engine, columns, "timestamp", "kafka_timestamp", cells);
    OneColumnIs(engine, columns, "string", "raw_payload", cells);
    OneColumnIs(engine, columns, "string", "event_id", cells);
    PublicIs(engine, columns, cells);
    hide Eval, OptionalColumn, As, Named, FirstNamed, PublicCells, Visible;
  }

  lemma {:induction false} SqlRecordsMean(
    engine: Engine, columns: seq<string>, rule: Rule, reason: string, rows: seq<Cells>)
    ensures multiset(RecordsOf(SqlRecorder(engine, columns, rule, reason), rows))
         == PlainSqlRecords(engine, columns, rule, reason, rows)
  {
    hide SqlRecordOf, PlainSqlRecord;
    var record := SqlRecorder(engine, columns, rule, reason);
    if rows != [] {
      SqlRecordMeans(engine, columns, rule, reason, rows[0]);
      SqlRecordsMean(engine, columns, rule, reason, rows[1..]);
      RecordsFirst(record, rows[0], rows[1..]);
      assert rows == [rows[0]] + rows[1..];
    }
  }

  lemma {:induction false} ReplacedMeans(engine: Engine, columns: seq<string>, rule: Rule, name: string, rows: seq<Cells>)
    ensures WithColumn(engine, name, Lit(Null), rows) == AllNull(name, rows)
    ensures WithColumn(engine, name, ColumnOrNull(ResolveColumn(columns, First(rule.inputColumns))), rows)
         == AllInput(columns, rule, name, rows)
  {
    hide Eval, ResolveColumn, ColumnOrNull, Named;
    if rows != [] {
      LitIs(engine, Null, rows[0]);
      SourceIs(engine, columns, First(rule.inputColumns), rows[0]);
      ReplacedMeans(engine, columns, rule, name, rows[1..]);
    }
  }

  lemma RaiseIs(counts: Counts, event: Event, n: nat)
    ensures Bump(counts, event, n) == Raise(counts, event, n)
  {
  }

  lemma ErrorTextIs(message: string)
    ensures SqlReason(message) == ErrorText(message)
  {
  }

  lemma RaisesAre(counts: Counts, n: nat)
    ensures forall event :: Bump(Bump(counts, Error, n), event, n) == Raise(Raise(counts, Error, n), event, n)
  {
    hide Bump, Raise;
    RaiseIs(counts, Error, n);
    forall event: Event
      ensures Bump(Bump(counts, Error, n), event, n) == Raise(Raise(counts, Error, n), event, n)
    {
      RaiseIs(Raise(counts, Error, n), event, n);
    }
  }

  lemma SqlFailureMeans(engine: Engine, rule: Rule, message: string, p: Progress)
    requires p.Running?
    ensures SqlFailure(engine, rule, message, p) == PlainSqlFailure(engine, rule, message, p)
  {
    hide Bump, Raise, OutputFor, OutputName, WithColumn, RecordsOf, SqlReason, ErrorText, Text.NormalizeName, SqlRecorder;
    hide AllNull, AllInput, PlainSqlRecords, ColumnOrNull, ResolveColumn;
    OutputIs(rule);
    RaiseIs(p.counts, Error, |p.frame.rows|);
    RaisesAre(p.counts, |p.frame.rows|);
    ErrorTextIs(message);
    SqlRecordsMean(engine, p.frame.columns, rule, ErrorText(message), p.frame.rows);
    ReplacedMeans(engine, p.frame.columns, rule, OutputFor(rule), p.frame.rows);
  }

  lemma StepRuleMeans(engine: Engine, sql: Sql, rule: Rule, p: Progress)
    requires p.Running? && Active(rule, "transform")
    ensures StepRule(engine, sql, rule, p) == PlainStep(engine, sql, rule, p)
  {
    if rule.operation == SqlExpression {
      RaiseIs(p.counts, Applied, |p.frame.rows|);
      hide SqlFailure, PlainSqlFailure;
      if sql(p.frame, rule).Failure? {
        SqlFailureMeans(engine, rule, sql(p.frame, rule).message, p);
      }
    } else {
      assert Enabled([rule], "transform") == [rule] by {
        assert [rule][1..] == [];
      }
      RunsMean(engine, [rule], p.frame.columns, p.frame.rows);
      NextColumnsIs(p.frame.columns, rule);
      TransformTells(engine, p.frame.columns, rule, map[]);
      hide TransformRun, Transforming, TransformExpression, ReasonFor, NextColumns, PlainColumns, Enabled;
    }
  }

  lemma {:induction false} WalkIs(engine: Engine, sql: Sql, rules: seq<Rule>, p: Progress)
    ensures Interpret(engine, sql, Enabled(rules, "transform"), p) == Walk(engine, sql, rules, p)
    decreases |rules|
  {
    hide StepRule, PlainStep;
    if rules != [] && p.Running? {
      var ts := Enabled(rules, "transform");
      if Active(rules[0], "transform") {
        StepRuleMeans(engine, sql, rules[0], p);
        assert ts[0] == rules[0] && ts[1..] == Enabled(rules[1..], "transform");
        WalkIs(engine, sql, rules[1..], PlainStep(engine, sql, rules[0], p));
      } else {
        WalkIs(engine, sql, rules[1..], p);
      }
    }
  }

  /** Whatever the runner may return is what the plain reading of the rules gives. */
  lemma RunMeans(engine: Engine, sql: Sql, frame: Frame, rules: seq<Rule>, r: Execution)
    requires RuleByRule(engine, sql, frame, rules, r)
    ensures PlainRun(engine, sql, frame, rules, r)
  {
    hide Interpret, Walk, QualityRowByRow, PlainQuality, Enabled, CountActive;
    var start := Running(frame, multiset{}, multiset{});
    WalkIs(engine, sql, rules, start);
    EnabledCount(rules, "transform");
    match Walk(engine, sql, rules, start) {
      case Stopped(_, _, _) =>
      case Running(mid, quarantined, counts) =>
        QualityPhaseMeans(engine, mid, rules, quarantined, TransformReport(CountActive(rules, "transform"), counts), r);
    }
  }

  // ----- What holds over whole runs -----

  /** Records and counters agree: a record for every row counted as quarantined, and every error under one heading. */
  ghost predicate Balanced(p: Progress) {
    p.Running? ==>
      && |p.quarantined| == p.counts[QuarantinedRow]
      && p.counts[Error] == p.counts[DroppedRow] + p.counts[QuarantinedRow] + p.counts[SetToNull] + p.counts[Warned]
  }

  /** Nothing recorded or counted is taken back. */
  ghost predicate Grows(p: Progress, next: Progress) {
    && p.counts <= next.counts
    && (next.Running? ==> p.Running? && p.quarantined <= next.quarantined)
  }

  /** The rows a rule adds by SQL, less those it takes away. */
  ghost function GainedBy(sql: Sql, rule: Rule, p: Progress): int
    requires p.Running?
  {
    if rule.operation == SqlExpression && sql(p.frame, rule).Success?
    then |sql(p.frame, rule).frame.rows| - |p.frame.rows|
    else 0
  }

  ghost function Gained(engine: Engine, sql: Sql, ts: seq<Rule>, p: Progress): int {
    if ts == [] || p.Stopped? then 0
    else GainedBy(sql, ts[0], p) + Gained(engine, sql, ts[1..], StepRule(engine, sql, ts[0], p))
  }

  function Removed(counts: Counts): nat {
    counts[DroppedRow] + counts[QuarantinedRow]
  }

  lemma {:induction false} SqlRecordsCount(
    engine: Engine, columns: seq<string>, rule: Rule, reason: string, rows: seq<Cells>)
    ensures |PlainSqlRecords(engine, columns, rule, reason, rows)| == |rows|
  {
    if rows != [] {
      SqlRecordsCount(engine, columns, rule, reason, rows[1..]);
    }
  }

  lemma {:induction false} ReplacedCount(columns: seq<string>, rule: Rule, name: string, rows: seq<Cells>)
    ensures |AllNull(name, rows)| == |rows| && |AllInput(columns, rule, name, rows)| == |rows|
  {
    if rows != [] {
      ReplacedCount(columns, rule, name, rows[1..]);
    }
  }

  lemma RaiseAdds(counts: Counts, event: Event, n: nat)
    ensures counts <= Raise(counts, event, n)
    ensures forall e :: Raise(counts, event, n)[e] == counts[e] + if e == event then n else 0
  {
  }

  /** `after` counts `n` errors more than `before`, all under one heading. */
  predicate FailedUnder(before: Counts, after: Counts, heading: Event, n: nat) {
    && before <= after && heading in [DroppedRow, QuarantinedRow, SetToNull, Warned]
    && forall e :: after[e] == before[e] + if e == Error || e == heading then n else 0
  }

  lemma RaisedUnder(counts: Counts, heading: Event, n: nat)
    requires heading in [DroppedRow, QuarantinedRow, SetToNull, Warned]
    ensures FailedUnder(counts, Raise(Raise(counts, Error, n), heading, n), heading, n)
  {
    hide Raise;
    RaiseAdds(counts, Error, n);
    RaiseAdds(Raise(counts, Error, n), heading, n);
  }

  /** Rows that fail are kept, recorded or dropped as their heading says. */
  lemma UnderBalances(p: Progress, next: Progress, heading: Event, gone: nat)
    requires p.Running? && next.Running? && Balanced(p) && p.quarantined <= next.quarantined
    requires FailedUnder(p.counts, next.counts, heading, |p.frame.rows|)
    requires |next.quarantined| == |p.quarantined| + (if heading == QuarantinedRow then |p.frame.rows| else 0)
    requires |next.frame.rows| == (if heading == SetToNull || heading == Warned then |p.frame.rows| else 0)
    ensures Balanced(next) && Grows(p, next)
    ensures |p.frame.rows| + Removed(p.counts) == |next.frame.rows| + Removed(next.counts)
  {
  }

  lemma FailureBalances(engine: Engine, rule: Rule, message: string, p: Progress)
    requires p.Running? && Balanced(p)
    ensures var next := PlainSqlFailure(engine, rule, message, p);
      && Balanced(next) && Grows(p, next)
      && (next.Running? ==> |p.frame.rows| + Removed(p.counts) == |next.frame.rows| + Removed(next.counts))
  {
    hide Raise, OutputFor, ErrorText, PlainSqlRecords, AllNull, AllInput, FailedUnder, Balanced, Removed;
    var n, next := |p.frame.rows|, PlainSqlFailure(engine, rule, message, p);
    if next.Stopped? {
      RaiseAdds(p.counts, Error, n);
      StoppedBalanced(next);
    } else {
      var heading :=
        if rule.onError == "quarantine" then QuarantinedRow
        else if rule.failureDisposition == "drop_row" then DroppedRow
        else if rule.failureDisposition == "set_null" then SetToNull
        else Warned;
      SqlRecordsCount(engine, p.frame.columns, rule, ErrorText(message), p.frame.rows);
      ReplacedCount(p.frame.columns, rule, OutputFor(rule), p.frame.rows);
      RaisedUnder(p.counts, heading, n);
      UnderBalances(p, next, heading, n);
    }
  }

  lemma StoppedBalanced(p: Progress)
    requires p.Stopped?
    ensures Balanced(p)
  {
  }

  lemma SqlBalances(engine: Engine, sql: Sql, rule: Rule, p: Progress)
    requires p.Running? && Balanced(p) && rule.operation == SqlExpression
    ensures var next := SqlStep(engine, sql, rule, p);
      && Balanced(next) && Grows(p, next)
      && (next.Running? ==>
            |p.frame.rows| + GainedBy(sql, rule, p) + Removed(p.counts) == |next.frame.rows| + Removed(next.counts))
  {
    hide SqlFailure, PlainSqlFailure, Bump, Raise;
    match sql(p.frame, rule) {
      case Success(_) =>
        RaiseIs(p.counts, Applied, |p.frame.rows|);
        RaiseAdds(p.counts, Applied, |p.frame.rows|);
      case Failure(message) =>
        hide Balanced, Removed;
        FailureBalances(engine, rule, message, p);
        SqlFailureMeans(engine, rule, message, p);
    }
  }

  lemma RowsBalance(engine: Engine, rule: Rule, p: Progress)
    requires p.Running? && Balanced(p) && !SomeFails(TransformRun(engine, [rule], p.frame.columns), p.frame.rows)
    ensures var run := TransformRun(engine, [rule], p.frame.columns);
      var next := Running(Frame(NextColumns(p.frame.columns, rule), KeptRows(run, p.frame.rows)),
                          p.quarantined + Records(run, p.frame.rows), p.counts + Tally(run, p.frame.rows));
      && Balanced(next) && Grows(p, next)
      && |p.frame.rows| + Removed(p.counts) == |next.frame.rows| + Removed(next.counts)
  {
    hide TransformRun, NextColumns;
    SnapshotRuleLaws.TransformsConserve(engine, [rule], p.frame.columns, p.frame.rows);
  }

  lemma StepBalances(engine: Engine, sql: Sql, rule: Rule, p: Progress)
    requires p.Running? && Balanced(p)
    ensures var next := StepRule(engine, sql, rule, p);
      && Balanced(next) && Grows(p, next)
      && (next.Running? ==>
            |p.frame.rows| + GainedBy(sql, rule, p) + Removed(p.counts) == |next.frame.rows| + Removed(next.counts))
  {
    hide Balanced, Removed, SqlStep, TransformRun, NextColumns, TransformExpression, Records, KeptRows, Tally, SomeFails;
    if rule.operation == SqlExpression {
      SqlBalances(engine, sql, rule, p);
    } else if SomeFails(TransformRun(engine, [rule], p.frame.columns), p.frame.rows) {
      StoppedBalanced(StepRule(engine, sql, rule, p));
    } else {
      RowsBalance(engine, rule, p);
    }
  }

  lemma GrowsOn(p: Progress, q: Progress, next: Progress)
    requires Grows(p, q) && Grows(q, next)
    ensures Grows(p, next)
  {
  }

  lemma {:induction false} RunBalances(engine: Engine, sql: Sql, ts: seq<Rule>, p: Progress)
    requires Balanced(p)
    ensures var end := Interpret(engine, sql, ts, p);
      && Balanced(end) && Grows(p, end)
      && (end.Running? ==>
            && p.Running?
            && |p.frame.rows| + Gained(engine, sql, ts, p) + Removed(p.counts) == |end.frame.rows| + Removed(end.counts))
    decreases |ts|
  {
    hide StepRule, Balanced, GainedBy, Removed;
    if ts != [] && p.Running? {
      var next := StepRule(engine, sql, ts[0], p);
      StepBalances(engine, sql, ts[0], p);
      RunBalances(engine, sql, ts[1..], next);
      GrowsOn(p, next, Interpret(engine, sql, ts[1..], next));
    }
  }

  /**
   Conservation over a whole run, SQL rules included: the quarantine holds one record for every row either phase
   counts as quarantined, every error is counted under one heading, and the rows read, with those SQL rules added
   or took away, are the rows returned, dropped or quarantined.
   */
  lemma RunnerConserves(engine: Engine, sql: Sql, frame: Frame, rules: seq<Rule>, r: Execution)
    requires RuleByRule(engine, sql, frame, rules, r) && r.Done?
    ensures var t, q := r.transform.counts, r.quality.counts;
      && |Contents(r.quarantine)| == t[QuarantinedRow] + q[QuarantinedRow]
      && t[Error] == t[DroppedRow] + t[QuarantinedRow] + t[SetToNull] + t[Warned]
      && |frame.rows| + Gained(engine, sql, Enabled(rules, "transform"), Running(frame, multiset{}, multiset{}))
         == |r.frame.rows| + t[DroppedRow] + t[QuarantinedRow] + q[DroppedRow] + q[QuarantinedRow]
  {
    hide Interpret, QualityRowByRow, Gained;
    var ts, qs, start := Enabled(rules, "transform"), Enabled(rules, "quality"), Running(frame, multiset{}, multiset{});
    RunBalances(engine, sql, ts, start);
    var end := Interpret(engine, sql, ts, start);
    SnapshotRuleLaws.QualityPhaseConserves(
      engine, end.frame, qs, end.quarantined, TransformReport(|ts|, end.counts), r);
  }

  lemma QualityGrows(
    engine: Engine, mid: Frame, qs: seq<Rule>, quarantined: multiset<Record>, t: TransformReport, r: Execution)
    requires QualityRowByRow(engine, mid, qs, quarantined, t, r)
    ensures r.transform == t && (r.Done? ==> quarantined <= Contents(r.quarantine))
  {
  }

  /** What stands after any number of transforms is in the result: no record is lost and no counter goes down. */
  lemma NothingIsLost(engine: Engine, sql: Sql, frame: Frame, rules: seq<Rule>, r: Execution, i: nat)
    requires RuleByRule(engine, sql, frame, rules, r) && i <= |Enabled(rules, "transform")|
    ensures var p := Interpret(engine, sql, Enabled(rules, "transform")[..i], Running(frame, multiset{}, multiset{}));
      && p.counts <= r.transform.counts
      && (r.Done? ==> p.Running? && p.quarantined <= Contents(r.quarantine))
  {
    hide Interpret, QualityRowByRow, Balanced;
    var ts, start := Enabled(rules, "transform"), Running(frame, multiset{}, multiset{});
    assert Balanced(start) by {
      NothingYet(frame);
    }
    assert ts[..i] + ts[i..] == ts;
    var p := Interpret(engine, sql, ts[..i], start);
    InterpretAppend(engine, sql, ts[..i], ts[i..], start);
    RunBalances(engine, sql, ts[..i], start);
    RunBalances(engine, sql, ts[i..], p);
    var end := Interpret(engine, sql, ts, start);
    if end.Running? {
      QualityGrows(engine, end.frame, Enabled(rules, "quality"), end.quarantined, TransformReport(|ts|, end.counts), r);
    }
  }

  lemma NothingYet(frame: Frame)
    ensures Balanced(Running(frame, multiset{}, multiset{}))
  {
  }

  /**
   A SQL rule that succeeds hands on exactly the frame its SQL returned, keeps every record, and counts the rows it
   was given as applied, and nothing else.
   */
  lemma SqlSuccess(engine: Engine, sql: Sql, ts: seq<Rule>, i: nat, p: Progress, next: Frame)
    requires i < |ts| && p.Running? && ts[i].operation == SqlExpression
    requires var here := Interpret(engine, sql, ts[..i], p); here.Running? && sql(here.frame, ts[i]) == Success(next)
    ensures var here, after := Interpret(engine, sql, ts[..i], p), Interpret(engine, sql, ts[..i + 1], p);
      && after.Running? && after.frame == next && after.quarantined == here.quarantined
      && forall e :: after.counts[e] == here.counts[e] + if e == Applied then |here.frame.rows| else 0
  {
    var here := Interpret(engine, sql, ts[..i], p);
    assert ts[..i + 1] == ts[..i] + [ts[i]];
    InterpretAppend(engine, sql, ts[..i], [ts[i]], p);
    OneRule(engine, sql, ts[i], here);
    hide Interpret, TransformRun, SqlFailure;
  }

  lemma OneRule(engine: Engine, sql: Sql, rule: Rule, p: Progress)
    requires p.Running?
    ensures Interpret(engine, sql, [rule], p) == StepRule(engine, sql, rule, p)
  {
    hide StepRule;
    var next := StepRule(engine, sql, rule, p);
    assert [rule][1..] == [];
    assert Interpret(engine, sql, [], next) == next;
  }

  // ----- A row quarantined before a SQL rule -----

  function GuardUser(): Rule {
    Rule("r1", "transform", true, NullGuard, ["user_id"], ["user_id"], "quarantine", "", "",
         Parameters("", Null, "", "", "", Absent, Absent, true, "", false, []))
  }

  function SomeSql(): Rule {
    Rule("r2", "transform", true, SqlExpression, [], [], "quarantine", "", "",
         Parameters("", Null, "", "", "", Absent, Absent, true, "", false, []))
  }

  lemma GuardQuarantines(engine: Engine)
    ensures var run := PlainTransform(engine, ["user_id"], GuardUser(), MISSING);
      var record := PlainRecord(engine, ["user_id"], MISSING, "transform", GuardUser(), "missing_required_value");
      run == RowRun(Quarantined(record), multiset{Error, QuarantinedRow})
  {
    hide PlainRecord, Converted;
    assert Input(["user_id"], GuardUser(), MISSING) == Null;
    assert OutputFor(GuardUser()) == "user_id" by {
      UserIdIsNormal();
    }
  }

  lemma UserIdIsNormal()
    ensures Text.NormalizeName("user_id") == "user_id"
  {
    var s := "user_id";
    assert Text.StripLeft(s) == s && Text.StripRight(s) == s && Text.Lower(s) == s;
    assert s[1..] == "ser_id" && s[1..][1..] == "er_id" && s[1..][1..][1..] == "r_id";
    assert "r_id"[1..] == "_id" && "_id"[1..] == "id" && "id"[1..] == "d" && "d"[1..] == "";
    assert Text.CollapseOthers("id", false) == "id";
    assert Text.CollapseOthers("r_id", false) == "r_id";
    assert Text.CollapseOthers("ser_id", false) == "ser_id";
  }

  lemma {:induction false} OneRow(run: Cells -> RowRun<Cells>, cells: Cells)
    ensures var x := run(cells);
      && KeptRows(run, [cells]) == (if x.fate.Kept? then [x.fate.row] else [])
      && Records(run, [cells]) == (if x.fate.Quarantined? then multiset{x.fate.record} else multiset{})
      && Tally(run, [cells]) == x.counts
      && (SomeFails(run, [cells]) <==> x.fate.Failed?)
  {
    Unfold(run, cells, []);
    assert [cells] + [] == [cells];
  }

  lemma OneTransform(engine: Engine, columns: seq<string>, rule: Rule, cells: Cells)
    requires Active(rule, "transform")
    ensures PlainTransforms(engine, [rule], columns, cells) == PlainTransform(engine, columns, rule, cells)
  {
    hide PlainTransform, PlainColumns;
    var step := PlainTransform(engine, columns, rule, cells);
    assert [rule][0] == rule && [rule][1..] == [];
    if step.fate.Kept? {
      var next := PlainColumns(columns, rule);
      assert PlainTransforms(engine, [], next, step.fate.row) == RowRun(Kept(step.fate.row), multiset{});
      assert step.counts + multiset{} == step.counts;
    }
  }

  /** A rule that quarantines the only row of a frame. */
  lemma OnlyRowQuarantined(engine: Engine, sql: Sql, rule: Rule, columns: seq<string>, cells: Cells, record: Record)
    requires Active(rule, "transform") && rule.operation != SqlExpression && PlainColumns(columns, rule) == columns
    requires PlainTransform(engine, columns, rule, cells)
          == RowRun(Quarantined(record), multiset{Error, QuarantinedRow})
    ensures PlainStep(engine, sql, rule, Running(Frame(columns, [cells]), multiset{}, multiset{}))
         == Running(Frame(columns, []), multiset{record}, multiset{Error, QuarantinedRow})
  {
    hide PlainTransforms, PlainTransform, PlainColumns, KeptRows, Records, Tally, SomeFails;
    OneTransform(engine, columns, rule, cells);
    OneRow(Transforming(engine, [rule], columns), cells);
  }

  /** Without quality rules, what the transforms end with is the result. */
  lemma EndsWith(engine: Engine, sql: Sql, frame: Frame, rules: seq<Rule>, end: Progress, r: Execution)
    requires RuleByRule(engine, sql, frame, rules, r) && forall rule :: rule in rules ==> Active(rule, "transform")
    requires end.Running? && Interpret(engine, sql, rules, Running(frame, multiset{}, multiset{})) == end
    ensures r.Done? && r.frame == end.frame && Contents(r.quarantine) == end.quarantined
  {
    hide Interpret, QualityRowByRow;
    EnabledAll(rules, "transform");
    EnabledNone(rules, "quality");
    QualityPhaseEmpty(engine, end.frame, end.quarantined, TransformReport(|rules|, end.counts), r);
  }

  /** The only row of a frame quarantined by the first rule, and a SQL rule after it that succeeds. */
  lemma QuarantinedThenSql(
    engine: Engine, sql: Sql, columns: seq<string>, cells: Cells, first: Rule, second: Rule, record: Record,
    next: Frame, r: Execution)
    requires Active(first, "transform") && first.operation != SqlExpression && PlainColumns(columns, first) == columns
    requires PlainTransform(engine, columns, first, cells)
          == RowRun(Quarantined(record), multiset{Error, QuarantinedRow})
    requires Active(second, "transform") && second.operation == SqlExpression
    requires sql(Frame(columns, []), second) == Success(next)
    requires RuleByRule(engine, sql, Frame(columns, [cells]), [first, second], r)
    ensures r.Done? && r.frame == next && Contents(r.quarantine) == multiset{record}
  {
    hide PlainTransform, PlainColumns, PlainStep, StepRule, RuleByRule, Active;
    var rules, start := [first, second], Running(Frame(columns, [cells]), multiset{}, multiset{});
    var here := Running(Frame(columns, []), multiset{record}, multiset{Error, QuarantinedRow});
    OnlyRowQuarantined(engine, sql, first, columns, cells, record);
    StepRuleMeans(engine, sql, first, start);
    assert rules[..1] == [first] && rules[..2] == rules && [first][1..] == [];
    assert Interpret(engine, sql, [], here) == here;
    SqlSuccess(engine, sql, rules, 1, start, next);
    EndsWith(engine, sql, Frame(columns, [cells]), rules, Interpret(engine, sql, rules, start), r);
  }

  lemma GuardIsActive()
    ensures Active(GuardUser(), "transform") && GuardUser().operation != SqlExpression
    ensures Active(SomeSql(), "transform") && SomeSql().operation == SqlExpression
    ensures PlainColumns(["user_id"], GuardUser()) == ["user_id"]
  {
    UserIdIsNormal();
  }

  /** A row quarantined before a SQL rule that succeeds is in the result's quarantine. */
  lemma QuarantinedBeforeSql(engine: Engine, sql: Sql, next: Frame, r: Execution)
    requires sql(Frame(["user_id"], []), SomeSql()) == Success(next)
    requires RuleByRule(engine, sql, Frame(["user_id"], [MISSING]), [GuardUser(), SomeSql()], r)
    ensures r.Done? && r.frame == next
    ensures Contents(r.quarantine)
         == multiset{PlainRecord(engine, ["user_id"], MISSING, "transform", GuardUser(), "missing_required_value")}
  {
    hide *;
    GuardIsActive();
    GuardQuarantines(engine);
    var record := PlainRecord(engine, ["user_id"], MISSING, "transform", GuardUser(), "missing_required_value");
    QuarantinedThenSql(engine, sql, ["user_id"], MISSING, GuardUser(), SomeSql(), record, next, r);
  }
}
