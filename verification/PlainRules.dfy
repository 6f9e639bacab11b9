/**
 The plain reading of a rule list: each rule in turn on each row by itself, as its meaning says. Every execution of
 the rule engine is what the plain reading gives.
 */
module PlainRules {
  import opened Wrappers
  import opened Expressions
  import opened RuleExpressions
  import opened RowRuns
  import opened SnapshotRules
  import opened RuleMeanings
  import opened TransformPasses
  import Text

  predicate Active(rule: Rule, kind: string) {
    rule.enabled && rule.kind == kind
  }

  // ----- Transforms on one row -----

  function OutputFor(rule: Rule): string {
    Text.NormalizeName(Either(HeadOf(rule.outputColumns), HeadOf(rule.inputColumns)))
  }

  /** What becomes of a row a transform finds invalid. */
  function Turned(engine: Engine, columns: seq<string>, rule: Rule, cells: Cells): RowRun<Cells> {
    var name := OutputFor(rule);
    if rule.onError == "fail_batch" then RowRun(Failed(0), multiset{Error})
    else if rule.onError == "quarantine" then
      RowRun(Quarantined(PlainRecord(engine, columns, cells, "transform", rule, ReasonFor(rule))),
             multiset{Error, QuarantinedRow})
    else if rule.failureDisposition == "drop_row" then RowRun(Dropped, multiset{Error, DroppedRow})
    else if rule.failureDisposition == "set_null" then RowRun(Kept(cells[name := Null]), multiset{Error, SetToNull})
    else RowRun(Kept(cells[name := Input(columns, rule, cells)]), multiset{Error, Warned})
  }

  function PlainTransform(engine: Engine, columns: seq<string>, rule: Rule, cells: Cells): RowRun<Cells> {
    var name, m := OutputFor(rule), Transformed(engine, columns, rule, cells);
    if name == "" then RowRun(Kept(cells), multiset{})
    else if m.invalid then Turned(engine, columns, rule, cells)
    else RowRun(Kept(cells[name := m.value]), multiset{Applied})
  }

  function PlainColumns(columns: seq<string>, rule: Rule): seq<string> {
    if OutputFor(rule) == "" || OutputFor(rule) in columns then columns else columns + [OutputFor(rule)]
  }

  function PlainTransforms(engine: Engine, rules: seq<Rule>, columns: seq<string>, cells: Cells): RowRun<Cells> {
    if rules == [] then RowRun(Kept(cells), multiset{})
    else if !Active(rules[0], "transform") then PlainTransforms(engine, rules[1..], columns, cells)
    else
      var step := PlainTransform(engine, columns, rules[0], cells);
      match step.fate
      case Kept(next) =>
        PlainTransforms(engine, rules[1..], PlainColumns(columns, rules[0]), next).After(step.counts, 1)
      case _ => step
  }

  function ColumnsThrough(rules: seq<Rule>, columns: seq<string>): seq<string> {
    if rules == [] then columns
    else ColumnsThrough(rules[1..], if Active(rules[0], "transform") then PlainColumns(columns, rules[0]) else columns)
  }

  lemma OutputIs(rule: Rule)
    ensures OutputName(rule) == OutputFor(rule)
  {
  }

  lemma StepMeans(engine: Engine, columns: seq<string>, rule: Rule, cells: Cells)
    ensures PassOf(engine, columns, rule).Step(engine, cells) == PlainTransform(engine, columns, rule, cells)
  {
    OutputIs(rule);
    TransformMeans(engine, columns, rule, cells);
    TransformTells(engine, columns, rule, cells);
    RecordMeans(engine, columns, cells, "transform", rule, ReasonFor(rule));
    hide Eval, TransformExpression, Transformed, RecordOf, PlainRecord, ReasonFor, OutputName, OutputFor, Input;
  }

  lemma NextColumnsIs(columns: seq<string>, rule: Rule)
    ensures NextColumns(columns, rule) == PlainColumns(columns, rule)
  {
    OutputIs(rule);
  }

  lemma {:induction false} TransformsMean(engine: Engine, rules: seq<Rule>, columns: seq<string>, cells: Cells)
    ensures TransformRun(engine, Enabled(rules, "transform"), columns)(cells)
         == PlainTransforms(engine, rules, columns, cells)
    ensures ColumnsAfter(engine, Enabled(rules, "transform"), columns) == ColumnsThrough(rules, columns)
    decreases |rules|
  {
    hide PlainTransform, PassOf, NextColumns, PlainColumns;
    if rules != [] {
      var ts, m := Enabled(rules, "transform"), TransformMachine(engine);
      if Active(rules[0], "transform") {
        StepMeans(engine, columns, rules[0], cells);
        NextColumnsIs(columns, rules[0]);
        var step := PlainTransform(engine, columns, rules[0], cells);
        assert ts[0] == rules[0] && ts[1..] == Enabled(rules[1..], "transform");
        assert m.step(columns, ts[0], cells) == step && m.advance(columns, ts[0]) == PlainColumns(columns, rules[0]);
        TransformsMean(engine, rules[1..], PlainColumns(columns, rules[0]),
                       if step.fate.Kept? then step.fate.row else cells);
      } else {
        TransformsMean(engine, rules[1..], columns, cells);
      }
    }
  }

  // ----- Quality rules on one row -----

  /** What becomes of a row that fails a quality rule; `now` is the row as earlier quality rules left it. */
  function PlainGate(engine: Engine, columns: seq<string>, rule: Rule, now: Cells): RowRun<Cells> {
    var target := ColumnFor(columns, HeadOf(rule.inputColumns));
    if rule.onError == "fail_batch" then RowRun(Kept(now), multiset{Warned})
    else if rule.onError == "quarantine" then
      RowRun(Quarantined(PlainRecord(engine, columns, now, "quality", rule, QualityReason(rule))),
             multiset{QuarantinedRow})
    else if rule.failureDisposition == "drop_row" then RowRun(Dropped, multiset{DroppedRow})
    else if rule.failureDisposition == "set_null" then
      RowRun(Kept(if target.Some? then now[target.value := Null] else now), multiset{SetToNull})
    else RowRun(Kept(now), multiset{Warned})
  }

  /** The quality rules in turn, each judging the row as the transforms left it. */
  function PlainQualities(
    engine: Engine, rules: seq<Rule>, columns: seq<string>, judged: Cells, now: Cells): RowRun<Cells>
  {
    if rules == [] then RowRun(Kept(now), multiset{})
    else if !Active(rules[0], "quality") || !Fails(engine, columns, rules[0], judged) then
      PlainQualities(engine, rules[1..], columns, judged, now)
    else
      var step := PlainGate(engine, columns, rules[0], now);
      match step.fate
      case Kept(next) => PlainQualities(engine, rules[1..], columns, judged, next).After(step.counts, 1)
      case _ => step
  }

  /** The same run, seen without the verdicts. */
  predicate Alike(run: RowRun<Judged>, plain: RowRun<Cells>) {
    run.counts == plain.counts
    && match run.fate
       case Kept(row) => plain.fate == Kept(row.cells)
       case Dropped => plain.fate == Dropped
       case Quarantined(record) => plain.fate == Quarantined(record)
       case Failed(_) => false
  }

  lemma GateMeans(engine: Engine, columns: seq<string>, rule: Rule, index: nat, row: Judged)
    requires Flagged(row, index)
    ensures Alike(GateOf(engine, columns, rule).Step(index, row), PlainGate(engine, columns, rule, row.cells))
    ensures var fate := GateOf(engine, columns, rule).Step(index, row).fate; fate.Kept? ==> fate.row.flags == row.flags
  {
    ColumnResolved(columns, HeadOf(rule.inputColumns));
    RecordMeans(engine, columns, row.cells, "quality", rule, QualityReason(rule));
    QualityMeans(engine, columns, rule, row.cells);
    hide Eval, QualityCheck, RecordOf, PlainRecord, QualityReason, ResolveColumn, ColumnFor;
  }

  /** From `index` on, the verdicts of the row are those of the rules on the judged cells. */
  predicate VerdictsOn(engine: Engine, columns: seq<string>, qs: seq<Rule>, index: nat, row: Judged, judged: Cells) {
    |row.flags| == index + |qs|
    && forall i :: 0 <= i < |qs| ==> (Flagged(row, index + i) <==> Fails(engine, columns, qs[i], judged))
  }

  lemma AlikeAfter(run: RowRun<Judged>, plain: RowRun<Cells>, earlier: Counts)
    requires Alike(run, plain)
    ensures Alike(run.After(earlier, 1), plain.After(earlier, 1))
  {
  }

  lemma AfterNothing(run: RowRun<Judged>, plain: RowRun<Cells>)
    requires Alike(run, plain)
    ensures Alike(run.After(multiset{}, 1), plain)
  {
    assert multiset{} + run.counts == run.counts;
  }

  lemma VerdictsLater(
    engine: Engine, columns: seq<string>, qs: seq<Rule>, index: nat, row: Judged, next: Judged, judged: Cells)
    requires qs != [] && VerdictsOn(engine, columns, qs, index, row, judged) && next.flags == row.flags
    ensures VerdictsOn(engine, columns, qs[1..], index + 1, next, judged)
    ensures Flagged(row, index) <==> Fails(engine, columns, qs[0], judged)
  {
    hide Fails;
    assert Flagged(row, index + 0) <==> Fails(engine, columns, qs[0], judged);
    forall i | 0 <= i < |qs[1..]|
      ensures Flagged(next, index + 1 + i) <==> Fails(engine, columns, qs[1..][i], judged)
    {
      assert Flagged(row, index + (i + 1)) <==> Fails(engine, columns, qs[i + 1], judged);
    }
  }

  lemma QualityUnflagged(
    engine: Engine, columns: seq<string>, qs: seq<Rule>, index: nat, row: Judged, plain: RowRun<Cells>)
    requires qs != [] && !Flagged(row, index)
    requires Alike(RunAll(QualityMachine(engine, columns), qs[1..], index + 1, row), plain)
    ensures Alike(RunAll(QualityMachine(engine, columns), qs, index, row), plain)
  {
    hide Alike;
    var m := QualityMachine(engine, columns);
    assert m.step(index, qs[0], row) == GateOf(engine, columns, qs[0]).Step(index, row);
    AfterNothing(RunAll(m, qs[1..], index + 1, row), plain);
  }

  lemma QualityFlagged(
    engine: Engine, columns: seq<string>, qs: seq<Rule>, index: nat, row: Judged, rest: RowRun<Cells>)
    requires qs != [] && Flagged(row, index)
    requires var m, step := QualityMachine(engine, columns), PlainGate(engine, columns, qs[0], row.cells);
      step.fate.Kept? ==> Alike(RunAll(m, qs[1..], index + 1, Judged(step.fate.row, row.flags)), rest)
    ensures var step := PlainGate(engine, columns, qs[0], row.cells);
      Alike(RunAll(QualityMachine(engine, columns), qs, index, row),
            if step.fate.Kept? then rest.After(step.counts, 1) else step)
  {
    hide Alike, Flagged, PlainGate, GateOf;
    var m, plain := QualityMachine(engine, columns), PlainGate(engine, columns, qs[0], row.cells);
    var step := m.step(index, qs[0], row);
    assert step == GateOf(engine, columns, qs[0]).Step(index, row);
    GateMeans(engine, columns, qs[0], index, row);
    AlikeFates(step, plain);
    if plain.fate.Kept? {
      assert step.fate.row == Judged(plain.fate.row, row.flags);
      AlikeAfter(RunAll(m, qs[1..], index + 1, step.fate.row), rest, step.counts);
    }
  }

  lemma AlikeFates(run: RowRun<Judged>, plain: RowRun<Cells>)
    requires Alike(run, plain)
    ensures run.counts == plain.counts && (run.fate.Kept? <==> plain.fate.Kept?)
    ensures run.fate.Kept? ==> run.fate.row.cells == plain.fate.row
  {
  }

  lemma {:induction false} QualitiesMean(
    engine: Engine, rules: seq<Rule>, columns: seq<string>, index: nat, row: Judged, judged: Cells)
    requires VerdictsOn(engine, columns, Enabled(rules, "quality"), index, row, judged)
    ensures Alike(RunAll(QualityMachine(engine, columns), Enabled(rules, "quality"), index, row),
                  PlainQualities(engine, rules, columns, judged, row.cells))
    decreases |rules|
  {
    hide Fails, PlainGate, VerdictsOn, Flagged, Alike, RunAll, QualityMachine;
    var qs := Enabled(rules, "quality");
    if rules == [] {
      NoQualities(engine, columns, index, row);
    } else if !Active(rules[0], "quality") {
      QualitiesMean(engine, rules[1..], columns, index, row, judged);
    } else {
      assert qs[0] == rules[0] && qs[1..] == Enabled(rules[1..], "quality");
      VerdictsLater(engine, columns, qs, index, row, row, judged);
      if Flagged(row, index) {
        var step := PlainGate(engine, columns, rules[0], row.cells);
        if step.fate.Kept? {
          var next := Judged(step.fate.row, row.flags);
          VerdictsLater(engine, columns, qs, index, row, next, judged);
          QualitiesMean(engine, rules[1..], columns, index + 1, next, judged);
          QualityFlagged(engine, columns, qs, index, row, PlainQualities(engine, rules[1..], columns, judged, next.cells));
        } else {
          QualityFlagged(engine, columns, qs, index, row, step);
        }
      } else {
        QualitiesMean(engine, rules[1..], columns, index + 1, row, judged);
        QualityUnflagged(engine, columns, qs, index, row, PlainQualities(engine, rules[1..], columns, judged, row.cells));
      }
    }
  }

  lemma NoQualities(engine: Engine, columns: seq<string>, index: nat, row: Judged)
    ensures Alike(RunAll(QualityMachine(engine, columns), [], index, row), RowRun(Kept(row.cells), multiset{}))
  {
  }

  lemma JudgedAlike(engine: Engine, rules: seq<Rule>, columns: seq<string>, cells: Cells)
    ensures var qs := Enabled(rules, "quality");
      Alike(QualityRun(engine, qs, columns)(Judge(engine, qs, columns, cells)),
            PlainQualities(engine, rules, columns, cells, cells))
  {
    var qs := Enabled(rules, "quality");
    var row := Judge(engine, qs, columns, cells);
    forall i | 0 <= i < |qs|
      ensures Flagged(row, 0 + i) <==> Fails(engine, columns, qs[i], cells)
    {
      FlagMeans(engine, columns, qs, i, cells);
    }
    hide Fails, Judge, PlainQualities;
    QualitiesMean(engine, rules, columns, 0, row, cells);
  }

  /** A verdict is whether the row fails the rule. */
  lemma FlagMeans(engine: Engine, columns: seq<string>, qs: seq<Rule>, k: nat, cells: Cells)
    requires k < |qs|
    ensures Flagged(Judge(engine, qs, columns, cells), k) <==> Fails(engine, columns, qs[k], cells)
  {
    QualityMeans(engine, columns, qs[k], cells);
    hide Eval, QualityCheck, Fails;
  }

  // ----- A frame is its rows -----

  function Transforming(engine: Engine, rules: seq<Rule>, columns: seq<string>): Cells -> RowRun<Cells> {
    cells => PlainTransforms(engine, rules, columns, cells)
  }

  function Judging(engine: Engine, rules: seq<Rule>, columns: seq<string>): Cells -> RowRun<Cells> {
    cells => PlainQualities(engine, rules, columns, cells, cells)
  }

  function CountActive(rules: seq<Rule>, kind: string): nat {
    if rules == [] then 0 else (if Active(rules[0], kind) then 1 else 0) + CountActive(rules[1..], kind)
  }

  /** The row fails some quality rule. */
  predicate FailsSome(engine: Engine, rules: seq<Rule>, columns: seq<string>, cells: Cells) {
    exists rule :: rule in rules && Active(rule, "quality") && Fails(engine, columns, rule, cells)
  }

  function CountFailingSome(engine: Engine, rules: seq<Rule>, columns: seq<string>, rows: seq<Cells>): nat {
    if rows == [] then 0
    else (if FailsSome(engine, rules, columns, rows[0]) then 1 else 0)
         + CountFailingSome(engine, rules, columns, rows[1..])
  }

  function CountFailing(engine: Engine, rule: Rule, columns: seq<string>, rows: seq<Cells>): nat {
    if rows == [] then 0
    else (if Fails(engine, columns, rule, rows[0]) then 1 else 0) + CountFailing(engine, rule, columns, rows[1..])
  }

  /** How often a batch-failing rule fails a row. */
  function CountStopping(engine: Engine, rules: seq<Rule>, columns: seq<string>, rows: seq<Cells>): nat {
    if rules == [] then 0
    else (if Active(rules[0], "quality") && rules[0].onError == "fail_batch"
          then CountFailing(engine, rules[0], columns, rows) else 0)
         + CountStopping(engine, rules[1..], columns, rows)
  }

  /** Some row fails this quality rule, and the rule must fail the batch. */
  predicate Stopping(engine: Engine, rule: Rule, columns: seq<string>, rows: seq<Cells>) {
    && Active(rule, "quality") && rule.onError == "fail_batch"
    && exists row :: row in rows && Fails(engine, columns, rule, row)
  }

  /** A transform stops the batch: the first that some row fails on, counted up to and with it. */
  ghost predicate StopsAtTransform(engine: Engine, frame: Frame, rules: seq<Rule>, k: nat, r: Execution) {
    && k < |rules| && Active(rules[k], "transform")
    && SomeFails(Transforming(engine, rules[..k + 1], frame.columns), frame.rows)
    && !SomeFails(Transforming(engine, rules[..k], frame.columns), frame.rows)
    && r == Raised(
              "transform", rules[k], ReasonFor(rules[k]),
              TransformReport(CountActive(rules, "transform"),
                              Tally(Transforming(engine, rules[..k + 1], frame.columns), frame.rows)),
              QualityReport(CountActive(rules, "quality"), None, 0, 0, multiset{}, "pass"))
  }

  /** A quality rule stops the batch: the first batch-failing one that some row fails. */
  ghost predicate StopsAtQuality(
    engine: Engine, mid: Frame, rules: seq<Rule>, t: TransformReport, k: nat, r: Execution)
  {
    && k < |rules| && Stopping(engine, rules[k], mid.columns, mid.rows)
    && (forall j :: 0 <= j < k ==> !Stopping(engine, rules[j], mid.columns, mid.rows))
    && r == Raised(
              "quality", rules[k], QualityReason(rules[k]), t,
              QualityReport(CountActive(rules, "quality"), Some(|mid.rows|),
                            CountFailingSome(engine, rules, mid.columns, mid.rows),
                            CountStopping(engine, rules, mid.columns, mid.rows), multiset{}, "fail"))
  }

  /** Every row is judged, and what is kept, recorded and counted is what the rows give. */
  ghost predicate Finishes(
    engine: Engine, mid: Frame, rules: seq<Rule>, quarantined: multiset<Record>, t: TransformReport, r: Execution)
  {
    var judging := Judging(engine, rules, mid.columns);
    var invalid := CountFailingSome(engine, rules, mid.columns, mid.rows);
    && r.Done?
    && r.frame == Frame(mid.columns, KeptRows(judging, mid.rows))
    && Contents(r.quarantine) == quarantined + Records(judging, mid.rows)
    && r.transform == t
    && r.quality == QualityReport(CountActive(rules, "quality"), Some(|mid.rows|), invalid, 0,
                                  Tally(judging, mid.rows), if invalid > 0 then "warn" else "pass")
  }

  /** The plain reading of the quality rules on a frame that came through the transforms. */
  ghost predicate PlainQuality(
    engine: Engine, mid: Frame, rules: seq<Rule>, quarantined: multiset<Record>, t: TransformReport, r: Execution)
  {
    if exists rule :: rule in rules && Stopping(engine, rule, mid.columns, mid.rows) then
      exists k: nat :: StopsAtQuality(engine, mid, rules, t, k, r)
    else Finishes(engine, mid, rules, quarantined, t, r)
  }

  /** The plain reading of a rule list on a frame. */
  ghost predicate Plain(engine: Engine, frame: Frame, rules: seq<Rule>, r: Execution) {
    var run := Transforming(engine, rules, frame.columns);
    if SomeFails(run, frame.rows) then exists k: nat :: StopsAtTransform(engine, frame, rules, k, r)
    else PlainQuality(engine, Frame(ColumnsThrough(rules, frame.columns), KeptRows(run, frame.rows)), rules,
                      Records(run, frame.rows),
                      TransformReport(CountActive(rules, "transform"), Tally(run, frame.rows)), r)
  }

  // ----- Executions are plain -----

  lemma {:induction false} EnabledCount(rules: seq<Rule>, kind: string)
    ensures |Enabled(rules, kind)| == CountActive(rules, kind)
    ensures forall rule :: rule in Enabled(rules, kind) <==> rule in rules && Active(rule, kind)
  {
    if rules != [] {
      EnabledCount(rules[1..], kind);
      assert forall rule :: rule in rules <==> rule == rules[0] || rule in rules[1..];
    }
  }

  /** Where a selected rule stands in the whole list. */
  lemma {:induction false} EnabledAt(rules: seq<Rule>, kind: string, i: nat) returns (k: nat)
    requires i < |Enabled(rules, kind)|
    ensures k < |rules| && rules[k] == Enabled(rules, kind)[i] && Active(rules[k], kind)
    ensures Enabled(rules[..k], kind) == Enabled(rules, kind)[..i]
    ensures Enabled(rules[..k + 1], kind) == Enabled(rules, kind)[..i + 1]
  {
    var first, rest := rules[0], rules[1..];
    if Active(first, kind) && i == 0 {
      k := 0;
      assert rules[..1][1..] == [];
      assert Enabled(rules[..1], kind) == [first];
    } else {
      var j := EnabledAt(rest, kind, if Active(first, kind) then i - 1 else i);
      k := j + 1;
      assert rules[..k][1..] == rest[..j] && rules[..k + 1][1..] == rest[..j + 1];
      var all := Enabled(rules, kind);
      if Active(first, kind) {
        assert all == [first] + Enabled(rest, kind);
        assert all[..i] == [first] + Enabled(rest, kind)[..i - 1];
        assert all[..i + 1] == [first] + Enabled(rest, kind)[..i];
      }
    }
  }

  lemma RunsMean(engine: Engine, rules: seq<Rule>, columns: seq<string>, rows: seq<Cells>)
    ensures var run := TransformRun(engine, Enabled(rules, "transform"), columns);
      var plain := Transforming(engine, rules, columns);
      && KeptRows(run, rows) == KeptRows(plain, rows)
      && Records(run, rows) == Records(plain, rows)
      && Tally(run, rows) == Tally(plain, rows)
      && (SomeFails(run, rows) <==> SomeFails(plain, rows))
  {
    hide PlainTransforms, TransformRun;
    var run, plain := TransformRun(engine, Enabled(rules, "transform"), columns), Transforming(engine, rules, columns);
    forall cells
      ensures run(cells) == plain(cells)
    {
      TransformsMean(engine, rules, columns, cells);
    }
    SameRuns(run, plain, rows);
  }

  predicate AllAlike(
    run: Judged -> RowRun<Judged>, plain: Cells -> RowRun<Cells>, judged: seq<Judged>, rows: seq<Cells>)
  {
    |judged| == |rows| && forall i :: 0 <= i < |rows| ==> Alike(run(judged[i]), plain(rows[i]))
  }

  lemma AllAlikeRest(
    run: Judged -> RowRun<Judged>, plain: Cells -> RowRun<Cells>, judged: seq<Judged>, rows: seq<Cells>)
    requires AllAlike(run, plain, judged, rows) && rows != []
    ensures Alike(run(judged[0]), plain(rows[0])) && AllAlike(run, plain, judged[1..], rows[1..])
  {
    hide Alike;
  }

  lemma {:induction false} AlikeKept(
    run: Judged -> RowRun<Judged>, plain: Cells -> RowRun<Cells>, judged: seq<Judged>, rows: seq<Cells>)
    requires |judged| == |rows| && AllAlike(run, plain, judged, rows)
    ensures CellsOf(KeptRows(run, judged)) == KeptRows(plain, rows)
  {
    hide AllAlike, CellsOf;
    if rows != [] {
      AllAlikeRest(run, plain, judged, rows);
      AlikeKept(run, plain, judged[1..], rows[1..]);
      var fate := run(judged[0]).fate;
      if fate.Kept? {
        CellsFirst(fate.row, KeptRows(run, judged[1..]));
      }
    }
  }

  lemma CellsFirst(row: Judged, rest: seq<Judged>)
    ensures CellsOf([row] + rest) == [row.cells] + CellsOf(rest)
  {
  }

  lemma {:induction false} AlikeRecords(
    run: Judged -> RowRun<Judged>, plain: Cells -> RowRun<Cells>, judged: seq<Judged>, rows: seq<Cells>)
    requires |judged| == |rows| && AllAlike(run, plain, judged, rows)
    ensures Records(run, judged) == Records(plain, rows)
  {
    hide AllAlike;
    if rows != [] {
      AllAlikeRest(run, plain, judged, rows);
      AlikeRecords(run, plain, judged[1..], rows[1..]);
    }
  }

  lemma {:induction false} AlikeTally(
    run: Judged -> RowRun<Judged>, plain: Cells -> RowRun<Cells>, judged: seq<Judged>, rows: seq<Cells>)
    requires |judged| == |rows| && AllAlike(run, plain, judged, rows)
    ensures Tally(run, judged) == Tally(plain, rows)
  {
    hide AllAlike;
    if rows != [] {
      AllAlikeRest(run, plain, judged, rows);
      AlikeTally(run, plain, judged[1..], rows[1..]);
    }
  }

  lemma JudgedMean(engine: Engine, rules: seq<Rule>, columns: seq<string>, rows: seq<Cells>)
    ensures var qs := Enabled(rules, "quality");
      var run, plain := QualityRun(engine, qs, columns), Judging(engine, rules, columns);
      var judged := JudgeAll(engine, qs, columns, rows);
      && CellsOf(KeptRows(run, judged)) == KeptRows(plain, rows)
      && Records(run, judged) == Records(plain, rows)
      && Tally(run, judged) == Tally(plain, rows)
  {
    hide PlainQualities, QualityRun, Alike, Judge;
    var qs := Enabled(rules, "quality");
    var run, plain := QualityRun(engine, qs, columns), Judging(engine, rules, columns);
    var judged := JudgeAll(engine, qs, columns, rows);
    forall i | 0 <= i < |rows|
      ensures Alike(run(judged[i]), plain(rows[i]))
    {
      JudgedAlike(engine, rules, columns, rows[i]);
    }
    AlikeKept(run, plain, judged, rows);
    AlikeRecords(run, plain, judged, rows);
    AlikeTally(run, plain, judged, rows);
  }

  // ----- Counting the verdicts -----

  lemma InvalidMeans(engine: Engine, rules: seq<Rule>, columns: seq<string>, cells: Cells)
    ensures Invalid(Judge(engine, Enabled(rules, "quality"), columns, cells)) <==> FailsSome(engine, rules, columns, cells)
  {
    hide Fails;
    var qs := Enabled(rules, "quality");
    var row := Judge(engine, qs, columns, cells);
    EnabledCount(rules, "quality");
    forall i | 0 <= i < |qs|
      ensures row.flags[i] == TRUE <==> Fails(engine, columns, qs[i], cells)
    {
      FlagMeans(engine, columns, qs, i, cells);
    }
    if rule :| rule in rules && Active(rule, "quality") && Fails(engine, columns, rule, cells) {
      var i :| 0 <= i < |qs| && qs[i] == rule;
    }
    if i :| 0 <= i < |qs| && row.flags[i] == TRUE {
      assert qs[i] in qs;
    }
  }

  lemma {:induction false} CountInvalidMeans(engine: Engine, rules: seq<Rule>, columns: seq<string>, rows: seq<Cells>)
    ensures CountInvalid(JudgeAll(engine, Enabled(rules, "quality"), columns, rows))
         == CountFailingSome(engine, rules, columns, rows)
  {
    hide Judge, Invalid, FailsSome;
    if rows != [] {
      var qs := Enabled(rules, "quality");
      InvalidMeans(engine, rules, columns, rows[0]);
      CountInvalidMeans(engine, rules, columns, rows[1..]);
      assert JudgeAll(engine, qs, columns, rows)[1..] == JudgeAll(engine, qs, columns, rows[1..]);
    }
  }

  lemma {:induction false} CountFlaggedMeans(
    engine: Engine, qs: seq<Rule>, columns: seq<string>, rows: seq<Cells>, k: nat)
    requires k < |qs|
    ensures CountFlagged(JudgeAll(engine, qs, columns, rows), k) == CountFailing(engine, qs[k], columns, rows)
  {
    hide Judge, Flagged, Fails;
    if rows != [] {
      FlagMeans(engine, columns, qs, k, rows[0]);
      CountFlaggedMeans(engine, qs, columns, rows[1..], k);
      assert JudgeAll(engine, qs, columns, rows)[1..] == JudgeAll(engine, qs, columns, rows[1..]);
    }
  }

  lemma {:induction false} StoppingsAppend(
    engine: Engine, a: seq<Rule>, last: Rule, columns: seq<string>, rows: seq<Cells>)
    ensures CountStopping(engine, a + [last], columns, rows)
         == CountStopping(engine, a, columns, rows)
            + if Active(last, "quality") && last.onError == "fail_batch"
              then CountFailing(engine, last, columns, rows) else 0
  {
    hide CountFailing;
    if a == [] {
      assert a + [last] == [last] && [last][1..] == [];
    } else {
      assert (a + [last])[1..] == a[1..] + [last];
      StoppingsAppend(engine, a[1..], last, columns, rows);
    }
  }

  lemma {:induction false} EnabledStoppings(engine: Engine, rules: seq<Rule>, columns: seq<string>, rows: seq<Cells>)
    ensures CountStopping(engine, Enabled(rules, "quality"), columns, rows) == CountStopping(engine, rules, columns, rows)
  {
    hide CountFailing;
    if rules != [] {
      EnabledStoppings(engine, rules[1..], columns, rows);
      var qs := Enabled(rules[1..], "quality");
      assert ([rules[0]] + qs)[1..] == qs;
    }
  }

  lemma {:induction false} CountBlockingMeans(
    engine: Engine, qs: seq<Rule>, columns: seq<string>, rows: seq<Cells>, i: nat)
    requires i <= |qs| && forall q :: q in qs ==> Active(q, "quality")
    ensures CountBlocking(qs[..i], JudgeAll(engine, qs, columns, rows)) == CountStopping(engine, qs[..i], columns, rows)
  {
    hide CountFailing, CountFlagged, JudgeAll, CountStopping;
    if i == 0 {
      NoStoppings(engine, columns, rows);
    } else {
      CountBlockingMeans(engine, qs, columns, rows, i - 1);
      CountFlaggedMeans(engine, qs, columns, rows, i - 1);
      StoppingsAppend(engine, qs[..i - 1], qs[i - 1], columns, rows);
      assert qs[..i] == qs[..i - 1] + [qs[i - 1]] && qs[..i][..i - 1] == qs[..i - 1];
      assert qs[i - 1] in qs;
    }
  }

  lemma NoStoppings(engine: Engine, columns: seq<string>, rows: seq<Cells>)
    ensures CountStopping(engine, [], columns, rows) == 0
  {
  }

  lemma BlocksMeans(engine: Engine, qs: seq<Rule>, columns: seq<string>, rows: seq<Cells>, k: nat)
    requires k < |qs| && Active(qs[k], "quality")
    ensures SomeBlocks(qs, JudgeAll(engine, qs, columns, rows), k) <==> Stopping(engine, qs[k], columns, rows)
  {
    hide Judge, Fails, Flagged;
    var judged := JudgeAll(engine, qs, columns, rows);
    forall i | 0 <= i < |rows|
      ensures Flagged(judged[i], k) <==> Fails(engine, columns, qs[k], rows[i])
    {
      FlagMeans(engine, columns, qs, k, rows[i]);
    }
    if row :| row in judged && Blocks(qs, k, row) {
      var i :| 0 <= i < |rows| && judged[i] == row;
      assert rows[i] in rows;
    }
    if row :| row in rows && Fails(engine, columns, qs[k], row) {
      var i :| 0 <= i < |rows| && rows[i] == row;
      assert judged[i] in judged;
    }
  }

  lemma TransformStopMeans(engine: Engine, frame: Frame, rules: seq<Rule>, r: Execution)
    requires TransformsStop(engine, frame, Enabled(rules, "transform"), |Enabled(rules, "quality")|, r)
    ensures exists k: nat :: StopsAtTransform(engine, frame, rules, k, r)
  {
    hide RunAll, TransformExpression, ReasonFor;
    var ts := Enabled(rules, "transform");
    var i: nat :| i < |ts| && FirstFailure(TransformRun(engine, ts, frame.columns), frame.rows, i)
      && r.Raised? && r.stage == "transform" && r.rule == ts[i]
      && r.reason == TransformReason(engine, ts, frame.columns, i)
      && r.transform == TransformReport(|ts|, Tally(TransformRun(engine, ts[..i + 1], frame.columns), frame.rows))
      && r.quality == NoQuality(|Enabled(rules, "quality")|);
    var k := EnabledAt(rules, "transform", i);
    TransformsWellPlaced(engine);
    FailsFirstAt(TransformMachine(engine), ts, frame.columns, frame.rows, i);
    RunsMean(engine, rules[..k], frame.columns, frame.rows);
    RunsMean(engine, rules[..k + 1], frame.columns, frame.rows);
    EnabledCount(rules, "transform");
    EnabledCount(rules, "quality");
    TransformTells(engine, ColumnsAfter(engine, ts[..i], frame.columns), ts[i], map[]);
    assert StopsAtTransform(engine, frame, rules, k, r);
  }

  lemma SomeBlocksMeans(engine: Engine, rules: seq<Rule>, columns: seq<string>, rows: seq<Cells>)
    ensures var qs := Enabled(rules, "quality");
      (exists k: nat :: SomeBlocks(qs, JudgeAll(engine, qs, columns, rows), k))
      <==> exists rule :: rule in rules && Stopping(engine, rule, columns, rows)
  {
    hide Judge, JudgeAll, Stopping, SomeBlocks, Enabled;
    var qs := Enabled(rules, "quality");
    EnabledCount(rules, "quality");
    if k: nat :| SomeBlocks(qs, JudgeAll(engine, qs, columns, rows), k) {
      BlockedAt(qs, JudgeAll(engine, qs, columns, rows), k);
      assert qs[k] in qs;
      BlocksMeans(engine, qs, columns, rows, k);
    }
    if rule :| rule in rules && Stopping(engine, rule, columns, rows) {
      StoppingActive(engine, rule, columns, rows);
      var k: nat :| k < |qs| && qs[k] == rule;
      BlocksMeans(engine, qs, columns, rows, k);
    }
  }

  lemma BlockedAt(qs: seq<Rule>, judged: seq<Judged>, k: nat)
    requires SomeBlocks(qs, judged, k)
    ensures k < |qs|
  {
  }

  lemma StoppingActive(engine: Engine, rule: Rule, columns: seq<string>, rows: seq<Cells>)
    requires Stopping(engine, rule, columns, rows)
    ensures Active(rule, "quality")
  {
  }

  /** The first blocking rule of the selected ones is the first stopping rule of the whole list. */
  lemma FirstStopping(engine: Engine, rules: seq<Rule>, columns: seq<string>, rows: seq<Cells>, i: nat) returns (k: nat)
    requires i < |Enabled(rules, "quality")|
    requires var qs := Enabled(rules, "quality");
      var judged := JudgeAll(engine, qs, columns, rows);
      SomeBlocks(qs, judged, i) && forall j: nat :: j < i ==> !SomeBlocks(qs, judged, j)
    ensures k < |rules| && rules[k] == Enabled(rules, "quality")[i] && Stopping(engine, rules[k], columns, rows)
    ensures forall j :: 0 <= j < k ==> !Stopping(engine, rules[j], columns, rows)
  {
    hide Stopping, SomeBlocks, Enabled, JudgeAll;
    var qs := Enabled(rules, "quality");
    k := EnabledAt(rules, "quality", i);
    BlocksMeans(engine, qs, columns, rows, i);
    forall j | 0 <= j < k
      ensures !Stopping(engine, rules[j], columns, rows)
    {
      if Stopping(engine, rules[j], columns, rows) {
        StoppingActive(engine, rules[j], columns, rows);
        EnabledCount(rules[..k], "quality");
        assert rules[..k][j] == rules[j];
        assert rules[j] in qs[..i];
        var n: nat :| n < i && qs[n] == rules[j];
        BlocksMeans(engine, qs, columns, rows, n);
      }
    }
  }

  lemma StopReport(engine: Engine, rules: seq<Rule>, columns: seq<string>, rows: seq<Cells>)
    ensures var qs := Enabled(rules, "quality");
      var judged := JudgeAll(engine, qs, columns, rows);
      && |qs| == CountActive(rules, "quality") && |judged| == |rows|
      && CountInvalid(judged) == CountFailingSome(engine, rules, columns, rows)
      && CountBlocking(qs, judged) == CountStopping(engine, rules, columns, rows)
  {
    hide CountInvalid, CountBlocking, CountFailingSome, CountStopping, Enabled, CountActive, Judge;
    var qs := Enabled(rules, "quality");
    EnabledCount(rules, "quality");
    CountInvalidMeans(engine, rules, columns, rows);
    CountBlockingMeans(engine, qs, columns, rows, |qs|);
    assert qs[..|qs|] == qs;
    EnabledStoppings(engine, rules, columns, rows);
  }

  lemma QualityStopAt(engine: Engine, mid: Frame, rules: seq<Rule>, t: TransformReport, r: Execution, i: nat)
    returns (k: nat)
    requires i < |Enabled(rules, "quality")|
    requires var qs := Enabled(rules, "quality");
      var judged := JudgeAll(engine, qs, mid.columns, mid.rows);
      && SomeBlocks(qs, judged, i) && (forall j: nat :: j < i ==> !SomeBlocks(qs, judged, j))
      && r == Raised("quality", qs[i], QualityCheck(mid.columns, qs[i]).reason, t,
                     QualityReport(|qs|, Some(|judged|), CountInvalid(judged), CountBlocking(qs, judged),
                                   multiset{}, "fail"))
    ensures StopsAtQuality(engine, mid, rules, t, k, r)
  {
    hide Stopping, QualityReason, QualityCheck, SomeBlocks, Enabled, CountFailingSome, CountStopping, CountActive;
    hide JudgeAll, CountInvalid, CountBlocking;
    k := FirstStopping(engine, rules, mid.columns, mid.rows, i);
    StopReport(engine, rules, mid.columns, mid.rows);
    QualityMeans(engine, mid.columns, rules[k], map[]);
  }

  lemma QualityStopWhere(qs: seq<Rule>, columns: seq<string>, judged: seq<Judged>, t: TransformReport, r: Execution)
    returns (i: nat)
    requires QualityStops(qs, columns, judged, t, r)
    ensures i < |qs| && SomeBlocks(qs, judged, i) && (forall j: nat :: j < i ==> !SomeBlocks(qs, judged, j))
    ensures r == Raised("quality", qs[i], QualityCheck(columns, qs[i]).reason, t,
                        QualityReport(|qs|, Some(|judged|), CountInvalid(judged), CountBlocking(qs, judged),
                                      multiset{}, "fail"))
  {
    hide SomeBlocks, QualityCheck, CountInvalid, CountBlocking;
    i :| i < |qs| && SomeBlocks(qs, judged, i) && (forall j: nat :: j < i ==> !SomeBlocks(qs, judged, j))
      && r.Raised? && r.stage == "quality" && r.rule == qs[i]
      && r.reason == QualityCheck(columns, qs[i]).reason && r.transform == t
      && r.quality == QualityReport(|qs|, Some(|judged|), CountInvalid(judged), CountBlocking(qs, judged),
                                    multiset{}, "fail");
  }

  lemma QualityStopMeans(engine: Engine, mid: Frame, rules: seq<Rule>, t: TransformReport, r: Execution)
    requires var qs := Enabled(rules, "quality");
      QualityStops(qs, mid.columns, JudgeAll(engine, qs, mid.columns, mid.rows), t, r)
    ensures exists k: nat :: StopsAtQuality(engine, mid, rules, t, k, r)
  {
    hide *;
    var qs := Enabled(rules, "quality");
    var i := QualityStopWhere(qs, mid.columns, JudgeAll(engine, qs, mid.columns, mid.rows), t, r);
    var k := QualityStopAt(engine, mid, rules, t, r, i);
  }

  lemma QualityDoneMeans(
    engine: Engine, mid: Frame, rules: seq<Rule>, quarantined: multiset<Record>, t: TransformReport, r: Execution)
    requires var qs := Enabled(rules, "quality");
      QualityDone(engine, qs, mid.columns, JudgeAll(engine, qs, mid.columns, mid.rows), quarantined, t, r)
    ensures Finishes(engine, mid, rules, quarantined, t, r)
  {
    hide Judge, QualityRun, Judging, CountInvalid, CountFailingSome, Enabled, CountActive;
    EnabledCount(rules, "quality");
    JudgedMean(engine, rules, mid.columns, mid.rows);
    CountInvalidMeans(engine, rules, mid.columns, mid.rows);
  }

  lemma QualityPhaseMeans(
    engine: Engine, mid: Frame, rules: seq<Rule>, quarantined: multiset<Record>, t: TransformReport, r: Execution)
    requires QualityRowByRow(engine, mid, Enabled(rules, "quality"), quarantined, t, r)
    ensures PlainQuality(engine, mid, rules, quarantined, t, r)
  {
    hide QualityStops, QualityDone, SomeBlocks, Stopping, Finishes, StopsAtQuality, Enabled;
    SomeBlocksMeans(engine, rules, mid.columns, mid.rows);
    if exists rule :: rule in rules && Stopping(engine, rule, mid.columns, mid.rows) {
      QualityStopMeans(engine, mid, rules, t, r);
    } else {
      QualityDoneMeans(engine, mid, rules, quarantined, t, r);
    }
  }

  /** Whatever the rows give one at a time is what the plain reading of the rules gives. */
  lemma ExecutionMeans(engine: Engine, frame: Frame, rules: seq<Rule>, r: Execution)
    requires RowByRow(engine, frame, rules, r)
    ensures Plain(engine, frame, rules, r)
  {
    hide QualityRowByRow, PlainQuality, TransformsStop, StopsAtTransform, TransformRun, Transforming, Enabled, ColumnsAfter;
    var ts := Enabled(rules, "transform");
    RunsMean(engine, rules, frame.columns, frame.rows);
    EnabledCount(rules, "transform");
    if SomeFails(TransformRun(engine, ts, frame.columns), frame.rows) {
      TransformStopMeans(engine, frame, rules, r);
    } else {
      var run := Transforming(engine, rules, frame.columns);
      TransformsMean(engine, rules, frame.columns, map[]);
      QualityPhaseMeans(engine, Frame(ColumnsThrough(rules, frame.columns), KeptRows(run, frame.rows)), rules,
                        Records(run, frame.rows),
                        TransformReport(CountActive(rules, "transform"), Tally(run, frame.rows)), r);
    }
  }

  // ----- One quarantining rule -----

  /** The rows that pass a quality rule, in order. */
  function Passing(engine: Engine, columns: seq<string>, rule: Rule, rows: seq<Cells>): seq<Cells> {
    if rows == [] then []
    else
      var rest := Passing(engine, columns, rule, rows[1..]);
      if Fails(engine, columns, rule, rows[0]) then rest else [rows[0]] + rest
  }

  /** The records of the rows that fail a quality rule. */
  function FailingRecords(engine: Engine, columns: seq<string>, rule: Rule, rows: seq<Cells>): multiset<Record> {
    if rows == [] then multiset{}
    else
      var rest := FailingRecords(engine, columns, rule, rows[1..]);
      if Fails(engine, columns, rule, rows[0])
      then multiset{PlainRecord(engine, columns, rows[0], "quality", rule, QualityReason(rule))} + rest
      else rest
  }

  predicate Quarantining(rule: Rule) {
    Active(rule, "quality") && rule.onError == "quarantine"
  }

  lemma OneGate(engine: Engine, columns: seq<string>, rule: Rule, cells: Cells)
    requires Quarantining(rule)
    ensures PlainQualities(engine, [rule], columns, cells, cells)
         == if Fails(engine, columns, rule, cells)
            then RowRun(Quarantined(PlainRecord(engine, columns, cells, "quality", rule, QualityReason(rule))),
                        multiset{QuarantinedRow})
            else RowRun(Kept(cells), multiset{})
  {
    hide Fails, PlainRecord, QualityReason, ColumnFor;
    assert [rule][0] == rule && [rule][1..] == [];
    assert PlainQualities(engine, [], columns, cells, cells) == RowRun(Kept(cells), multiset{});
  }

  lemma {:induction false} OneGateRows(engine: Engine, columns: seq<string>, rule: Rule, rows: seq<Cells>)
    requires Quarantining(rule)
    ensures var judging := Judging(engine, [rule], columns);
      && KeptRows(judging, rows) == Passing(engine, columns, rule, rows)
      && Records(judging, rows) == FailingRecords(engine, columns, rule, rows)
  {
    hide Fails, PlainRecord, PlainQualities;
    if rows != [] {
      OneGate(engine, columns, rule, rows[0]);
      OneGateRows(engine, columns, rule, rows[1..]);
    }
  }

  lemma {:induction false} NoTransform(engine: Engine, rule: Rule, columns: seq<string>, rows: seq<Cells>)
    requires rule.kind == "quality"
    ensures var run := Transforming(engine, [rule], columns);
      && ColumnsThrough([rule], columns) == columns && KeptRows(run, rows) == rows && Records(run, rows) == multiset{}
      && !SomeFails(run, rows)
  {
    assert [rule][0] == rule && [rule][1..] == [];
    assert ColumnsThrough([], columns) == columns;
    if rows != [] {
      NoTransform(engine, rule, columns, rows[1..]);
      assert PlainTransforms(engine, [], columns, rows[0]) == RowRun(Kept(rows[0]), multiset{});
      assert forall row :: row in rows <==> row == rows[0] || row in rows[1..];
    }
  }

  /** A quarantining quality rule alone keeps the rows that pass and quarantines the ones that fail. */
  lemma OneQuarantiningRule(engine: Engine, frame: Frame, rule: Rule, r: Execution)
    requires RowByRow(engine, frame, [rule], r) && Quarantining(rule)
    ensures r.Done?
    ensures r.frame == Frame(frame.columns, Passing(engine, frame.columns, rule, frame.rows))
    ensures Contents(r.quarantine) == FailingRecords(engine, frame.columns, rule, frame.rows)
  {
    hide Fails, FailingRecords, Passing, PlainTransforms, PlainQualities, KeptRows, Records, RowByRow;
    ExecutionMeans(engine, frame, [rule], r);
    NoTransform(engine, rule, frame.columns, frame.rows);
    OneGateRows(engine, frame.columns, rule, frame.rows);
    assert forall x :: x in [rule] ==> !Stopping(engine, x, frame.columns, frame.rows);
  }

  const PRESENT: Cells := map["user_id" := Value(Datum.Text("u1"))]
  const MISSING: Cells := map["user_id" := Null]

  function RequiredUser(): Rule {
    Rule("r1", "quality", true, NotNull, ["user_id"], [], "quarantine", "", "",
         Parameters("", Null, "", "", "", Absent, Absent, true, "", false, []))
  }

  lemma UserVerdicts(engine: Engine)
    requires engine.trim("u1") != ""
    ensures !Fails(engine, ["user_id"], RequiredUser(), PRESENT) && Fails(engine, ["user_id"], RequiredUser(), MISSING)
  {
    assert Input(["user_id"], RequiredUser(), PRESENT) == Value(Datum.Text("u1"));
    assert Input(["user_id"], RequiredUser(), MISSING) == Null;
  }

  lemma MissingUserRecord(engine: Engine) returns (record: Record)
    ensures record == PlainRecord(engine, ["user_id"], MISSING, "quality", RequiredUser(), QualityReason(RequiredUser()))
    ensures record.record == [("user_id", Null)] && record.targetColumn == "user_id"
    ensures record.reason == "missing_required_value" && record.ruleId == "r1"
  {
    hide Named, FirstNamed, EventId, As;
    record := PlainRecord(engine, ["user_id"], MISSING, "quality", RequiredUser(), QualityReason(RequiredUser()));
    assert record.record == [("user_id", Null)];
  }

  lemma OneOfTwo(engine: Engine, columns: seq<string>, rule: Rule, a: Cells, b: Cells)
    requires !Fails(engine, columns, rule, a) && Fails(engine, columns, rule, b)
    ensures Passing(engine, columns, rule, [a, b]) == [a]
    ensures FailingRecords(engine, columns, rule, [a, b])
         == multiset{PlainRecord(engine, columns, b, "quality", rule, QualityReason(rule))}
  {
    hide Fails, PlainRecord, QualityReason;
    assert [a, b][1..] == [b] && [b][1..] == [];
    assert Passing(engine, columns, rule, [b]) == [];
    assert FailingRecords(engine, columns, rule, [b])
        == multiset{PlainRecord(engine, columns, b, "quality", rule, QualityReason(rule))} + multiset{};
  }

  /** With a required user id the row that has one is kept, and the row without it is quarantined. */
  lemma MissingUserQuarantined(engine: Engine, r: Execution)
    requires RowByRow(engine, Frame(["user_id"], [PRESENT, MISSING]), [RequiredUser()], r) && engine.trim("u1") != ""
    ensures r.Done? && r.frame.rows == [PRESENT]
    ensures exists record :: Contents(r.quarantine) == multiset{record}
              && record.record == [("user_id", Null)] && record.targetColumn == "user_id"
              && record.reason == "missing_required_value" && record.ruleId == "r1"
  {
    assert Quarantining(RequiredUser());
    hide *;
    UserVerdicts(engine);
    OneQuarantiningRule(engine, Frame(["user_id"], [PRESENT, MISSING]), RequiredUser(), r);
    OneOfTwo(engine, ["user_id"], RequiredUser(), PRESENT, MISSING);
    var record := MissingUserRecord(engine);
  }
}
