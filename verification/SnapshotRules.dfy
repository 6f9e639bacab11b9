/**
 Snapshot rules over a batch: what the rules do to a single row, what the rows of a batch add up to, and the
 whole-frame operators the rule engine works with.
 */
module SnapshotRules {
  import opened Wrappers
  import opened Expressions
  import opened RuleExpressions
  import opened RowRuns

  datatype Frame = Frame(columns: seq<string>, rows: seq<Cells>)

  /** A row together with the quality verdicts frozen before any quality edit. */
  datatype Judged = Judged(cells: Cells, flags: seq<Cell>)

  /** The counters of a phase are a dictionary from event to count. */
  datatype TransformReport = TransformReport(configured: nat, counts: Counts)

  datatype QualityReport = QualityReport(
    configured: nat,
    evaluated: Option<nat>,
    invalidRows: nat,
    blockingFailures: nat,
    counts: Counts,
    status: string)

  datatype Execution =
    | Done(frame: Frame, quarantine: Option<seq<Record>>, transform: TransformReport, quality: QualityReport)
    | Raised(stage: string, rule: Rule, reason: string, transform: TransformReport, quality: QualityReport)

  function Enabled(rules: seq<Rule>, kind: string): (r: seq<Rule>) {
    if rules == [] then []
    else if rules[0].enabled && rules[0].kind == kind then [rules[0]] + Enabled(rules[1..], kind)
    else Enabled(rules[1..], kind)
  }

  function WithName(columns: seq<string>, name: string): seq<string> {
    if name in columns then columns else columns + [name]
  }

  function NextColumns(columns: seq<string>, rule: Rule): seq<string> {
    if OutputName(rule) == "" then columns else WithName(columns, OutputName(rule))
  }

  // ----- Quarantine records -----

  function OptionalColumn(columns: seq<string>, candidates: seq<string>, kind: string): Expr {
    if candidates == [] then Lit(Null)
    else if ResolveColumn(columns, candidates[0]) != "" then CastTo(kind, Col(ResolveColumn(columns, candidates[0])))
    else OptionalColumn(columns, candidates[1..], kind)
  }

  function RecordOf(
    engine: Engine, columns: seq<string>, cells: Cells, stage: string, rule: Rule, reason: string): Record
  {
    var eventId := ResolveColumn(columns, "event_id");
    Record(
      Eval(engine, OptionalColumn(columns, ["topic"], "string"), cells),
      Eval(engine, OptionalColumn(columns, ["partition", "kafka_partition"], "int"), cells),
      Eval(engine, OptionalColumn(columns, ["offset", "kafka_offset"], "long"), cells),
      Eval(engine, OptionalColumn(columns, ["kafka_timestamp"], "timestamp"), cells),
      Eval(engine, OptionalColumn(columns, ["raw_payload"], "string"), cells),
      if eventId != "" then Eval(engine, CastString(Col(eventId)), cells) else Value(Text("")),
      seq(|columns|, i requires 0 <= i < |columns| => (columns[i], Eval(engine, Col(columns[i]), cells))),
      reason,
      rule.id,
      stage,
      FirstOf(rule.inputColumns, rule.outputColumns))
  }

  // ----- One row at a time -----

  /** A transform rule compiled against the columns of the frame. */
  datatype Pass = Pass(output: string, built: Built, action: Action, record: Cells -> Record)
  {
    /** What becomes of a row the rule fails on. */
    function Fail(engine: Engine, cells: Cells): RowRun<Cells> {
      match action
      case FailBatch => RowRun(Failed(0), multiset{Error})
      case Quarantine => RowRun(Quarantined(record(cells)), multiset{Error, QuarantinedRow})
      case DropRow => RowRun(Dropped, multiset{Error, DroppedRow})
      case SetNull => RowRun(Kept(cells[output := Null]), multiset{Error, SetToNull})
      case Keep => RowRun(Kept(cells[output := Eval(engine, built.source, cells)]), multiset{Error, Warned})
    }

    /** What the rule does to one row. */
    function Step(engine: Engine, cells: Cells): RowRun<Cells> {
      if output == "" then RowRun(Kept(cells), multiset{})
      else if !Holds(engine, built.invalid, cells) then
        RowRun(Kept(cells[output := Eval(engine, built.expression, cells)]), multiset{Applied})
      else Fail(engine, cells)
    }

    function Run(engine: Engine): Cells -> RowRun<Cells> {
      cells => Step(engine, cells)
    }
  }

  function PassOf(engine: Engine, columns: seq<string>, rule: Rule): Pass {
    var x := TransformExpression(columns, rule);
    Pass(OutputName(rule), x, FailureAction(rule),
         cells => RecordOf(engine, columns, cells, "transform", rule, x.reason))
  }

  function TransformMachine(engine: Engine): Machine<seq<string>, Rule, Cells> {
    Machine((columns, rule, cells) => PassOf(engine, columns, rule).Step(engine, cells), NextColumns)
  }

  /** The transforms on one row. */
  function TransformRun(engine: Engine, rules: seq<Rule>, columns: seq<string>): Cells -> RowRun<Cells> {
    Runner(TransformMachine(engine), rules, columns)
  }

  function ColumnsAfter(engine: Engine, rules: seq<Rule>, columns: seq<string>): seq<string> {
    ContextAfter(TransformMachine(engine), rules, columns)
  }

  function TransformReason(engine: Engine, rules: seq<Rule>, columns: seq<string>, at: nat): string
    requires at < |rules|
  {
    TransformExpression(ColumnsAfter(engine, rules[..at], columns), rules[at]).reason
  }

  /** The verdicts of all quality rules on one row, on its values after the transforms. */
  function Judge(engine: Engine, rules: seq<Rule>, columns: seq<string>, cells: Cells): Judged {
    Judged(cells, seq(|rules|, i requires 0 <= i < |rules| =>
      Eval(engine, QualityCheck(columns, rules[i]).failure, cells)))
  }

  function JudgeAll(engine: Engine, rules: seq<Rule>, columns: seq<string>, rows: seq<Cells>): (r: seq<Judged>)
    ensures |r| == |rows|
  {
    seq(|rows|, i requires 0 <= i < |rows| => Judge(engine, rules, columns, rows[i]))
  }

  predicate Flagged(row: Judged, index: nat) {
    index < |row.flags| && row.flags[index] == TRUE
  }

  /** A quality rule compiled against the columns of the frame. */
  datatype Gate = Gate(action: Action, target: string, record: Cells -> Record)
  {
    /** What the rule does to one judged row. */
    function Step(index: nat, row: Judged): RowRun<Judged> {
      if !Flagged(row, index) then RowRun(Kept(row), multiset{})
      else match action
        case Quarantine => RowRun(Quarantined(record(row.cells)), multiset{QuarantinedRow})
        case DropRow => RowRun(Dropped, multiset{DroppedRow})
        case SetNull =>
          RowRun(Kept(if target == "" then row else row.(cells := row.cells[target := Null])), multiset{SetToNull})
        case _ => RowRun(Kept(row), multiset{Warned})
    }

    function Run(index: nat): Judged -> RowRun<Judged> {
      row => Step(index, row)
    }
  }

  function GateOf(engine: Engine, columns: seq<string>, rule: Rule): Gate {
    Gate(FailureAction(rule), ResolveColumn(columns, First(rule.inputColumns)),
         cells => RecordOf(engine, columns, cells, "quality", rule, QualityCheck(columns, rule).reason))
  }

  function QualityMachine(engine: Engine, columns: seq<string>): Machine<nat, Rule, Judged> {
    Machine((index, rule, row) => GateOf(engine, columns, rule).Step(index, row), (index, rule) => index + 1)
  }

  /** The quality rules on one judged row. */
  function QualityRun(engine: Engine, rules: seq<Rule>, columns: seq<string>): Judged -> RowRun<Judged> {
    Runner(QualityMachine(engine, columns), rules, 0)
  }

  predicate Blocks(rules: seq<Rule>, index: nat, row: Judged) {
    index < |rules| && FailureAction(rules[index]) == FailBatch && Flagged(row, index)
  }

  ghost predicate SomeBlocks(rules: seq<Rule>, rows: seq<Judged>, index: nat) {
    exists row :: row in rows && Blocks(rules, index, row)
  }

  predicate Invalid(row: Judged) {
    exists i :: 0 <= i < |row.flags| && row.flags[i] == TRUE
  }

  function CountInvalid(rows: seq<Judged>): nat {
    if rows == [] then 0 else (if Invalid(rows[0]) then 1 else 0) + CountInvalid(rows[1..])
  }

  function CountFlagged(rows: seq<Judged>, index: nat): nat {
    if rows == [] then 0 else (if Flagged(rows[0], index) then 1 else 0) + CountFlagged(rows[1..], index)
  }

  function CountBlocking(rules: seq<Rule>, rows: seq<Judged>): nat {
    if rules == [] then 0
    else
      var last := |rules| - 1;
      CountBlocking(rules[..last], rows)
      + (if FailureAction(rules[last]) == FailBatch then CountFlagged(rows, last) else 0)
  }

  function CellsOf(rows: seq<Judged>): (r: seq<Cells>)
    ensures |r| == |rows|
  {
    seq(|rows|, i requires 0 <= i < |rows| => rows[i].cells)
  }

  // ----- The batch as the sum of its rows -----

  function Contents(quarantine: Option<seq<Record>>): multiset<Record> {
    match quarantine
    case None => multiset{}
    case Some(records) => multiset(records)
  }

  function NoQuality(configured: nat): QualityReport {
    QualityReport(configured, None, 0, 0, multiset{}, "pass")
  }

  /** The transform phase stops the batch: at the earliest rule some row fails, counted up to and with it. */
  ghost predicate TransformsStop(engine: Engine, frame: Frame, ts: seq<Rule>, qualityRules: nat, r: Execution) {
    exists k: nat {:trigger FirstFailure(TransformRun(engine, ts, frame.columns), frame.rows, k)} ::
      && k < |ts|
      && FirstFailure(TransformRun(engine, ts, frame.columns), frame.rows, k)
      && r.Raised? && r.stage == "transform" && r.rule == ts[k]
      && r.reason == TransformReason(engine, ts, frame.columns, k)
      && r.transform == TransformReport(|ts|, Tally(TransformRun(engine, ts[..k + 1], frame.columns), frame.rows))
      && r.quality == NoQuality(qualityRules)
  }

  /** The quality phase stops the batch: at the first blocking rule that flags a row. */
  ghost predicate QualityStops(
    qs: seq<Rule>, columns: seq<string>, judged: seq<Judged>, transform: TransformReport, r: Execution)
  {
    exists k: nat {:trigger SomeBlocks(qs, judged, k)} ::
      && k < |qs|
      && SomeBlocks(qs, judged, k)
      && (forall j: nat :: j < k ==> !SomeBlocks(qs, judged, j))
      && r.Raised? && r.stage == "quality" && r.rule == qs[k]
      && r.reason == QualityCheck(columns, qs[k]).reason
      && r.transform == transform
      && r.quality == QualityReport(|qs|, Some(|judged|), CountInvalid(judged), CountBlocking(qs, judged),
                                    multiset{}, "fail")
  }

  ghost predicate QualityDone(
    engine: Engine, qs: seq<Rule>, columns: seq<string>, judged: seq<Judged>, quarantined: multiset<Record>,
    transform: TransformReport, r: Execution)
  {
    var run := QualityRun(engine, qs, columns);
    && r.Done?
    && r.frame == Frame(columns, CellsOf(KeptRows(run, judged)))
    && Contents(r.quarantine) == quarantined + Records(run, judged)
    && r.transform == transform
    && r.quality == QualityReport(|qs|, Some(|judged|), CountInvalid(judged), 0, Tally(run, judged),
                                  if CountInvalid(judged) > 0 then "warn" else "pass")
  }

  /** The quality phase on a batch that came through the transforms. */
  ghost predicate QualityRowByRow(
    engine: Engine, frame: Frame, qs: seq<Rule>, quarantined: multiset<Record>, transform: TransformReport,
    r: Execution)
  {
    var judged := JudgeAll(engine, qs, frame.columns, frame.rows);
    if exists k: nat :: SomeBlocks(qs, judged, k) then QualityStops(qs, frame.columns, judged, transform, r)
    else QualityDone(engine, qs, frame.columns, judged, quarantined, transform, r)
  }

  /** `r` is what the rows of the frame give one at a time. */
  ghost predicate RowByRow(engine: Engine, frame: Frame, rules: seq<Rule>, r: Execution) {
    var ts, qs := Enabled(rules, "transform"), Enabled(rules, "quality");
    var run := TransformRun(engine, ts, frame.columns);
    if SomeFails(run, frame.rows) then TransformsStop(engine, frame, ts, |qs|, r)
    else QualityRowByRow(
           engine, Frame(ColumnsAfter(engine, ts, frame.columns), KeptRows(run, frame.rows)), qs,
           Records(run, frame.rows), TransformReport(|ts|, Tally(run, frame.rows)), r)
  }

  // ----- Whole-frame operators -----

  function WithColumn(engine: Engine, name: string, value: Expr, rows: seq<Cells>): (r: seq<Cells>)
    ensures |r| == |rows|
  {
    if rows == [] then []
    else [rows[0][name := Eval(engine, value, rows[0])]] + WithColumn(engine, name, value, rows[1..])
  }

  function RecordsOf(record: Cells -> Record, rows: seq<Cells>): seq<Record> {
    if rows == [] then [] else [record(rows[0])] + RecordsOf(record, rows[1..])
  }

  function Append(quarantine: Option<seq<Record>>, records: seq<Record>): (r: Option<seq<Record>>)
    ensures Contents(r) == Contents(quarantine) + multiset(records)
  {
    match quarantine
    case None => Some(records)
    case Some(earlier) => Some(earlier + records)
  }

  /** Rows with verdicts of all `n` rules, none of them NULL. */
  predicate WellJudged(rows: seq<Judged>, n: nat) {
    forall row :: row in rows ==> |row.flags| == n && forall i :: 0 <= i < n ==> IsBool(row.flags[i])
  }

  function FilterFlag(index: nat, wanted: bool, rows: seq<Judged>): (r: seq<Judged>)
    requires forall row :: row in rows ==> index < |row.flags|
    ensures |r| <= |rows|
  {
    if rows == [] then []
    else
      var flag := if wanted then rows[0].flags[index] else Not3(rows[0].flags[index]);
      var rest := FilterFlag(index, wanted, rows[1..]);
      if flag == TRUE then [rows[0]] + rest else rest
  }

  function WithFlag(engine: Engine, failure: Expr, rows: seq<Judged>): (r: seq<Judged>)
    ensures |r| == |rows|
  {
    seq(|rows|, i requires 0 <= i < |rows| =>
      rows[i].(flags := rows[i].flags + [Eval(engine, failure, rows[i].cells)]))
  }

  /** The disjunction of the flags, as the condition is chained from the first on. */
  function AnyFlag(flags: seq<Cell>): Cell
    requires flags != []
  {
    if |flags| == 1 then flags[0] else Or3(AnyFlag(flags[..|flags| - 1]), flags[|flags| - 1])
  }

  function FilterAnyFlag(rows: seq<Judged>): seq<Judged>
    requires forall row :: row in rows ==> row.flags != []
  {
    if rows == [] then []
    else
      var rest := FilterAnyFlag(rows[1..]);
      if AnyFlag(rows[0].flags) == TRUE then [rows[0]] + rest else rest
  }

  function NullColumn(target: string, index: nat, rows: seq<Judged>): (r: seq<Judged>)
    ensures |r| == |rows|
  {
    if rows == [] then []
    else [if Flagged(rows[0], index) then rows[0].(cells := rows[0].cells[target := Null]) else rows[0]]
         + NullColumn(target, index, rows[1..])
  }

  function Bump(counts: Counts, event: Event, n: nat): Counts {
    counts[event := counts[event] + n]
  }

  /** The records of the rows a filter lets through, first row first. */
  lemma RecordsFirst(record: Cells -> Record, row: Cells, rest: seq<Cells>)
    ensures multiset(RecordsOf(record, [row] + rest)) == multiset{record(row)} + multiset(RecordsOf(record, rest))
  {
    assert ([row] + rest)[1..] == rest;
    assert RecordsOf(record, [row] + rest) == [record(row)] + RecordsOf(record, rest);
  }
}
