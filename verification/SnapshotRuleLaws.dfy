/** What follows for a whole execution of the snapshot rules. */
module SnapshotRuleLaws {
  import opened Wrappers
  import opened Expressions
  import opened RuleExpressions
  import opened RowRuns
  import opened SnapshotRules
  import opened TransformPasses
  import opened QualityPasses
  import opened RuleEngine

  // ----- Conservation -----

  lemma {:induction false} TransformAccounted(engine: Engine, rules: seq<Rule>, columns: seq<string>, cells: Cells)
    ensures TransformRun(engine, rules, columns)(cells).Accounted()
    decreases |rules|
  {
    if rules != [] {
      var step := TransformMachine(engine).step(columns, rules[0], cells);
      assert step == PassOf(engine, columns, rules[0]).Step(engine, cells);
      StepAccounted(engine, PassOf(engine, columns, rules[0]), cells);
      if step.fate.Kept? {
        TransformAccounted(engine, rules[1..], NextColumns(columns, rules[0]), step.fate.row);
      }
    }
  }

  lemma StepAccounted(engine: Engine, p: Pass, cells: Cells)
    ensures p.Step(engine, cells).Accounted()
  {
  }

  /** One row's quality run: how it ended is counted, and it reports something exactly when it is flagged. */
  ghost predicate QualityAccounted(run: RowRun<Judged>, invalid: bool) {
    var c := run.counts;
    && !run.fate.Failed?
    && c[DroppedRow] == (if run.fate.Dropped? then 1 else 0)
    && c[QuarantinedRow] == (if run.fate.Quarantined? then 1 else 0)
    && (c[DroppedRow] + c[QuarantinedRow] + c[SetToNull] + c[Warned] > 0 <==> invalid)
  }

  lemma {:induction false} QualityRunAccounted(
    engine: Engine, columns: seq<string>, qs: seq<Rule>, from: nat, row: Judged)
    ensures QualityAccounted(
              RunAll(QualityMachine(engine, columns), qs, from, row),
              exists j :: from <= j < from + |qs| && Flagged(row, j))
    decreases |qs|
  {
    if qs != [] {
      var g := GateOf(engine, columns, qs[0]);
      var step := QualityMachine(engine, columns).step(from, qs[0], row);
      assert step == g.Step(from, row);
      GateStepAccounted(g, from, row);
      if step.fate.Kept? {
        var next := step.fate.row;
        QualityRunAccounted(engine, columns, qs[1..], from + 1, next);
        assert forall j :: Flagged(next, j) <==> Flagged(row, j);
        if j :| from <= j < from + |qs| && Flagged(row, j) && j != from {
          assert from + 1 <= j < from + 1 + |qs[1..]| && Flagged(next, j);
        }
      }
    }
  }

  lemma GateStepAccounted(g: Gate, index: nat, row: Judged)
    ensures QualityAccounted(g.Step(index, row), Flagged(row, index))
    ensures g.Step(index, row).fate.Kept? ==> g.Step(index, row).fate.row.flags == row.flags
  {
  }

  lemma {:induction false} QualityBounds(run: Judged -> RowRun<Judged>, rows: seq<Judged>)
    requires forall row :: row in rows ==> QualityAccounted(run(row), Invalid(row))
    ensures var c := Tally(run, rows);
      && |rows| == |KeptRows(run, rows)| + c[DroppedRow] + c[QuarantinedRow]
      && |Records(run, rows)| == c[QuarantinedRow]
      && c[DroppedRow] + c[QuarantinedRow] <= CountInvalid(rows)
      && CountInvalid(rows) <= c[DroppedRow] + c[QuarantinedRow] + c[SetToNull] + c[Warned]
  {
    if rows != [] {
      assert rows[0] in rows;
      assert forall row :: row in rows[1..] ==> row in rows;
      QualityBounds(run, rows[1..]);
    }
  }

  lemma TransformsConserve(engine: Engine, ts: seq<Rule>, columns: seq<string>, rows: seq<Cells>)
    requires !SomeFails(TransformRun(engine, ts, columns), rows)
    ensures var run := TransformRun(engine, ts, columns);
      var t := Tally(run, rows);
      && |rows| == |KeptRows(run, rows)| + t[DroppedRow] + t[QuarantinedRow]
      && |Records(run, rows)| == t[QuarantinedRow]
      && t[Error] == t[DroppedRow] + t[QuarantinedRow] + t[SetToNull] + t[Warned]
  {
    var run := TransformRun(engine, ts, columns);
    forall row | row in rows
      ensures run(row).Accounted() && !run(row).fate.Failed?
    {
      TransformAccounted(engine, ts, columns, row);
    }
    RowRuns.Conservation(run, rows);
  }

  lemma QualityConserves(engine: Engine, qs: seq<Rule>, columns: seq<string>, judged: seq<Judged>)
    requires WellJudged(judged, |qs|)
    ensures var run := QualityRun(engine, qs, columns);
      var q := Tally(run, judged);
      && |judged| == |KeptRows(run, judged)| + q[DroppedRow] + q[QuarantinedRow]
      && |Records(run, judged)| == q[QuarantinedRow]
      && q[DroppedRow] + q[QuarantinedRow] <= CountInvalid(judged)
      && CountInvalid(judged) <= q[DroppedRow] + q[QuarantinedRow] + q[SetToNull] + q[Warned]
  {
    var run := QualityRun(engine, qs, columns);
    forall row | row in judged
      ensures QualityAccounted(run(row), Invalid(row))
    {
      QualityRunAccounted(engine, columns, qs, 0, row);
      assert |row.flags| == |qs|;
      assert forall j :: 0 <= j < |qs| ==> Flagged(row, j) == (row.flags[j] == TRUE);
    }
    QualityBounds(run, judged);
  }

  lemma QualityPhaseConserves(
    engine: Engine, mid: Frame, qs: seq<Rule>, quarantined: multiset<Record>, t: TransformReport, r: Execution)
    requires QualityRowByRow(engine, mid, qs, quarantined, t, r) && r.Done?
    ensures var q := r.quality.counts;
      && r.transform == t
      && |mid.rows| == |r.frame.rows| + q[DroppedRow] + q[QuarantinedRow]
      && |Contents(r.quarantine)| == |quarantined| + q[QuarantinedRow]
      && r.quality.evaluated == Some(|mid.rows|)
      && q[DroppedRow] + q[QuarantinedRow] <= r.quality.invalidRows
      && r.quality.invalidRows <= q[DroppedRow] + q[QuarantinedRow] + q[SetToNull] + q[Warned]
  {
    JudgesAreBool(engine, qs, mid.columns, mid.rows);
    QualityConserves(engine, qs, mid.columns, JudgeAll(engine, qs, mid.columns, mid.rows));
  }

  /**
   On normal return no row is lost or invented over the two phases: input = output + dropped + quarantined,
   the quarantine holds exactly the rows counted, transform errors are all accounted for, and the number of
   invalid rows lies between the rows removed and the rows touched.
   */
  lemma Conservation(engine: Engine, frame: Frame, rules: seq<Rule>, r: Execution)
    requires RowByRow(engine, frame, rules, r) && r.Done?
    ensures var t, q := r.transform.counts, r.quality.counts;
      && |frame.rows|
         == |r.frame.rows| + t[DroppedRow] + t[QuarantinedRow] + q[DroppedRow] + q[QuarantinedRow]
      && |Contents(r.quarantine)| == t[QuarantinedRow] + q[QuarantinedRow]
      && t[Error] == t[DroppedRow] + t[QuarantinedRow] + t[SetToNull] + t[Warned]
      && r.quality.evaluated == Some(|frame.rows| - t[DroppedRow] - t[QuarantinedRow])
      && q[DroppedRow] + q[QuarantinedRow] <= r.quality.invalidRows
      && r.quality.invalidRows <= q[DroppedRow] + q[QuarantinedRow] + q[SetToNull] + q[Warned]
  {
    var ts, qs := Enabled(rules, "transform"), Enabled(rules, "quality");
    var run := TransformRun(engine, ts, frame.columns);
    var mid := Frame(ColumnsAfter(engine, ts, frame.columns), KeptRows(run, frame.rows));
    TransformsConserve(engine, ts, frame.columns, frame.rows);
    QualityPhaseConserves(
      engine, mid, qs, Records(run, frame.rows), TransformReport(|ts|, Tally(run, frame.rows)), r);
  }

  // ----- Quality verdicts are those of the post-transform values -----

  predicate Removes(rule: Rule) {
    FailureAction(rule) == Quarantine || FailureAction(rule) == DropRow
  }

  /** Rule `k` flags the row and nulls the column. */
  predicate Nulls(qs: seq<Rule>, k: nat, columns: seq<string>, row: Judged, column: string) {
    && k < |qs| && Flagged(row, k) && FailureAction(qs[k]) == SetNull
    && ResolveColumn(columns, First(qs[k].inputColumns)) == column != ""
  }

  predicate RemovesRow(qs: seq<Rule>, k: nat, row: Judged) {
    k < |qs| && Removes(qs[k]) && Flagged(row, k)
  }

  /** The post-transform values with the targets of the flagged `set_null` rules, from `from` on, nulled. */
  ghost predicate NulledFrom(qs: seq<Rule>, from: nat, columns: seq<string>, row: Judged, after: Judged) {
    && after.flags == row.flags
    && forall c :: Get(after.cells, c)
         == if exists k :: from <= k && Nulls(qs, k, columns, row, c) then Some(Null) else Get(row.cells, c)
  }

  function Get(cells: Cells, c: string): Option<Cell> {
    if c in cells then Some(cells[c]) else None
  }

  lemma GateStepMeaning(g: Gate, columns: seq<string>, qs: seq<Rule>, k: nat, row: Judged)
    requires k < |qs| && g.action == FailureAction(qs[k])
    requires g.target == ResolveColumn(columns, First(qs[k].inputColumns))
    ensures var fate := g.Step(k, row).fate;
      && (fate.Kept? <==> !RemovesRow(qs, k, row))
      && (fate.Kept? ==>
            && fate.row.flags == row.flags
            && forall c :: Get(fate.row.cells, c)
                 == if Nulls(qs, k, columns, row, c) then Some(Null) else Get(row.cells, c))
  {
  }

  /** The rules from one on, by what that one does to the row. */
  lemma QualityUnfold(engine: Engine, columns: seq<string>, qs: seq<Rule>, from: nat, row: Judged)
    requires from < |qs|
    ensures var m, g := QualityMachine(engine, columns), GateOf(engine, columns, qs[from]);
      var fate, step := RunAll(m, qs[from..], from, row).fate, g.Step(from, row).fate;
      if step.Kept? then
        var rest := RunAll(m, qs[from + 1..], from + 1, step.row).fate;
        (fate.Kept? <==> rest.Kept?) && (rest.Kept? ==> fate == rest)
      else !fate.Kept?
  {
    var m := QualityMachine(engine, columns);
    assert qs[from..][0] == qs[from] && qs[from..][1..] == qs[from + 1..];
    assert m.step(from, qs[from], row) == GateOf(engine, columns, qs[from]).Step(from, row);
  }

  lemma {:induction false} QualityFrom(
    engine: Engine, columns: seq<string>, qs: seq<Rule>, from: nat, row: Judged)
    requires from <= |qs|
    ensures var fate := RunAll(QualityMachine(engine, columns), qs[from..], from, row).fate;
      && (fate.Kept? <==> forall k :: from <= k < |qs| ==> !RemovesRow(qs, k, row))
      && (fate.Kept? ==> NulledFrom(qs, from, columns, row, fate.row))
    decreases |qs| - from
  {
    if from < |qs| {
      var g := GateOf(engine, columns, qs[from]);
      var step := g.Step(from, row).fate;
      QualityUnfold(engine, columns, qs, from, row);
      GateStepMeaning(g, columns, qs, from, row);
      if step.Kept? {
        QualityFrom(engine, columns, qs, from + 1, step.row);
        SameVerdicts(qs, columns, row, step.row);
        var rest := RunAll(QualityMachine(engine, columns), qs[from + 1..], from + 1, step.row).fate;
        if rest.Kept? {
          NulledStep(qs, from, columns, row, step.row, rest.row);
        }
      }
    }
  }

  lemma SameVerdicts(qs: seq<Rule>, columns: seq<string>, row: Judged, next: Judged)
    requires next.flags == row.flags
    ensures forall k :: RemovesRow(qs, k, next) == RemovesRow(qs, k, row)
    ensures forall k, c :: Nulls(qs, k, columns, next, c) == Nulls(qs, k, columns, row, c)
  {
  }

  lemma NulledStep(qs: seq<Rule>, from: nat, columns: seq<string>, row: Judged, next: Judged, after: Judged)
    requires from < |qs| && next.flags == row.flags && NulledFrom(qs, from + 1, columns, next, after)
    requires forall c :: Get(next.cells, c) == if Nulls(qs, from, columns, row, c) then Some(Null) else Get(row.cells, c)
    ensures NulledFrom(qs, from, columns, row, after)
  {
    SameVerdicts(qs, columns, row, next);
    forall c
      ensures (exists k :: from <= k && Nulls(qs, k, columns, row, c))
         <==> Nulls(qs, from, columns, row, c) || (exists k :: from + 1 <= k && Nulls(qs, k, columns, next, c))
    {
      if k :| from + 1 <= k && Nulls(qs, k, columns, next, c) {
        assert Nulls(qs, k, columns, row, c);
      }
      if k :| from <= k && Nulls(qs, k, columns, row, c) && k != from {
        assert Nulls(qs, k, columns, next, c);
      }
    }
  }

  /**
   A row leaves the quality phase exactly when some removing rule finds its post-transform values failing,
   whatever earlier rules edited; if it stays, its values are the post-transform ones with the targets of the
   failing `set_null` rules nulled.
   */
  lemma QualityIsOrderFree(engine: Engine, columns: seq<string>, qs: seq<Rule>, cells: Cells)
    ensures var fate := QualityRun(engine, qs, columns)(Judge(engine, qs, columns, cells)).fate;
      && (fate.Kept? <==> forall k :: 0 <= k < |qs| && Removes(qs[k])
                            ==> !Holds(engine, QualityCheck(columns, qs[k]).failure, cells))
      && (fate.Kept? ==> NulledFrom(qs, 0, columns, Judge(engine, qs, columns, cells), fate.row))
  {
    assert qs[0..] == qs;
    var row := Judge(engine, qs, columns, cells);
    QualityFrom(engine, columns, qs, 0, row);
    assert forall k :: 0 <= k < |qs| ==>
        (RemovesRow(qs, k, row) <==> Removes(qs[k]) && Holds(engine, QualityCheck(columns, qs[k]).failure, cells));
  }

  // ----- The row-by-row reading determines the execution -----

  /** The same outcome up to the order in which quarantine frames were united. */
  ghost predicate SameOutcome(a: Execution, b: Execution) {
    && a.transform == b.transform && a.quality == b.quality
    && if a.Done? then b.Done? && a.frame == b.frame && Contents(a.quarantine) == Contents(b.quarantine)
       else b.Raised? && a.stage == b.stage && a.rule == b.rule && a.reason == b.reason
  }

  lemma TransformsStopOnce(
    engine: Engine, frame: Frame, ts: seq<Rule>, qualityRules: nat, a: Execution, b: Execution)
    requires TransformsStop(engine, frame, ts, qualityRules, a) && TransformsStop(engine, frame, ts, qualityRules, b)
    ensures SameOutcome(a, b)
  {
    var run := TransformRun(engine, ts, frame.columns);
    forall j: nat, k: nat | FirstFailure(run, frame.rows, j) && FirstFailure(run, frame.rows, k)
      ensures j == k
    {
      OneFirstFailure(run, frame.rows, j, k);
    }
  }

  lemma QualityStopsOnce(
    qs: seq<Rule>, columns: seq<string>, judged: seq<Judged>, t: TransformReport, a: Execution, b: Execution)
    requires QualityStops(qs, columns, judged, t, a) && QualityStops(qs, columns, judged, t, b)
    ensures SameOutcome(a, b)
  {
  }

  lemma QualityPhaseDetermines(
    engine: Engine, mid: Frame, qs: seq<Rule>, quarantined: multiset<Record>, t: TransformReport,
    a: Execution, b: Execution)
    requires QualityRowByRow(engine, mid, qs, quarantined, t, a) && QualityRowByRow(engine, mid, qs, quarantined, t, b)
    ensures SameOutcome(a, b)
  {
    var judged := JudgeAll(engine, qs, mid.columns, mid.rows);
    if exists k: nat :: SomeBlocks(qs, judged, k) {
      QualityStopsOnce(qs, mid.columns, judged, t, a, b);
    }
  }

  /** Any two executions that agree with the rows one at a time agree with each other. */
  lemma RowByRowDetermines(engine: Engine, frame: Frame, rules: seq<Rule>, a: Execution, b: Execution)
    requires RowByRow(engine, frame, rules, a) && RowByRow(engine, frame, rules, b)
    ensures SameOutcome(a, b)
  {
    var ts, qs := Enabled(rules, "transform"), Enabled(rules, "quality");
    var run := TransformRun(engine, ts, frame.columns);
    if SomeFails(run, frame.rows) {
      TransformsStopOnce(engine, frame, ts, |qs|, a, b);
    } else {
      QualityPhaseDetermines(
        engine, Frame(ColumnsAfter(engine, ts, frame.columns), KeptRows(run, frame.rows)), qs,
        Records(run, frame.rows), TransformReport(|ts|, Tally(run, frame.rows)), a, b);
    }
  }
}
