/** The transform rules as passes over the whole frame, against what they do to its rows. */
module TransformPasses {
  import opened Wrappers
  import opened Expressions
  import opened RuleExpressions
  import opened RowRuns
  import opened SnapshotRules

  // ----- Passes over the frame against steps on its rows -----

  lemma TransformsWellPlaced(engine: Engine)
    ensures WellPlaced(TransformMachine(engine))
  {
  }

  /** A pass whose test is boolean on every row, as every compiled transform is. */
  ghost predicate Total(engine: Engine, invalid: Expr) {
    forall cells :: IsBool(Eval(engine, invalid, cells))
  }

  lemma PassTotal(engine: Engine, columns: seq<string>, rule: Rule)
    ensures Total(engine, PassOf(engine, columns, rule).built.invalid)
  {
    forall cells
      ensures IsBool(Eval(engine, TransformExpression(columns, rule).invalid, cells))
    {
      TransformInvalidIsBool(engine, columns, rule, cells);
    }
  }

  lemma NegationHolds(engine: Engine, invalid: Expr, row: Cells)
    requires Total(engine, invalid)
    ensures Holds(engine, Not(invalid), row) <==> !Holds(engine, invalid, row)
  {
    assert IsBool(Eval(engine, invalid, row));
    assert Eval(engine, Not(invalid), row) == Not3(Eval(engine, invalid, row));
  }

  /** `filter(invalid)` and `filter(~invalid)` split every frame: no row is lost, none is in both. */
  lemma {:induction false} FilterSplits(engine: Engine, invalid: Expr, rows: seq<Cells>)
    requires Total(engine, invalid)
    ensures var bad, good := Filter(engine, invalid, rows), Filter(engine, Not(invalid), rows);
      && |bad| + |good| == |rows|
      && multiset(bad) + multiset(good) == multiset(rows)
      && (forall row :: row in bad ==> Holds(engine, invalid, row))
      && (forall row :: row in good ==> !Holds(engine, invalid, row))
  {
    if rows != [] {
      FilterSplits(engine, invalid, rows[1..]);
      NegationHolds(engine, invalid, rows[0]);
      var bad, good := Filter(engine, invalid, rows[1..]), Filter(engine, Not(invalid), rows[1..]);
      assert multiset(rows) == multiset{rows[0]} + multiset(rows[1..]) by {
        assert rows == [rows[0]] + rows[1..];
      }
      if Holds(engine, invalid, rows[0]) {
        assert multiset([rows[0]] + bad) == multiset{rows[0]} + multiset(bad);
      } else {
        assert multiset([rows[0]] + good) == multiset{rows[0]} + multiset(good);
      }
    }
  }

  /** How often a pass over `rows` rows, `bad` of them invalid, reports each event. */
  function EventCount(action: Action, event: Event, rows: nat, bad: nat): nat
    requires bad <= rows
  {
    match event
    case Applied => rows - bad
    case Error => bad
    case QuarantinedRow => if action == Quarantine then bad else 0
    case DroppedRow => if action == DropRow then bad else 0
    case SetToNull => if action == SetNull then bad else 0
    case Warned => if action == Keep then bad else 0
  }

  lemma StepCount(engine: Engine, p: Pass, row: Cells, event: Event)
    requires p.output != ""
    ensures p.Step(engine, row).counts[event]
         == EventCount(p.action, event, 1, if Holds(engine, p.built.invalid, row) then 1 else 0)
  {
  }

  lemma EventCountAdds(action: Action, event: Event, rows: nat, bad: nat, one: nat)
    requires bad <= rows && one <= 1
    ensures EventCount(action, event, 1, one) + EventCount(action, event, rows, bad)
         == EventCount(action, event, rows + 1, bad + one)
  {
  }

  /** The counters of one pass over the frame are those of its rows. */
  lemma {:induction false} PassCounts(engine: Engine, p: Pass, rows: seq<Cells>, event: Event)
    requires p.output != ""
    ensures Tally(p.Run(engine), rows)[event]
         == EventCount(p.action, event, |rows|, |Filter(engine, p.built.invalid, rows)|)
  {
    if rows != [] {
      var bad := |Filter(engine, p.built.invalid, rows[1..])|;
      PassCounts(engine, p, rows[1..], event);
      StepCount(engine, p, rows[0], event);
      EventCountAdds(p.action, event, |rows| - 1, bad, if Holds(engine, p.built.invalid, rows[0]) then 1 else 0);
    }
  }

  lemma StepRecord(engine: Engine, p: Pass, row: Cells)
    requires p.output != ""
    ensures var fate := p.Run(engine)(row).fate;
      && (fate.Quarantined? <==> p.action == Quarantine && Holds(engine, p.built.invalid, row))
      && (fate.Quarantined? ==> fate.record == p.record(row))
  {
  }

  lemma {:induction false} PassRecords(engine: Engine, p: Pass, rows: seq<Cells>)
    requires p.output != ""
    ensures Records(p.Run(engine), rows)
         == (if p.action == Quarantine then multiset(RecordsOf(p.record, Filter(engine, p.built.invalid, rows)))
             else multiset{})
  {
    if rows != [] {
      PassRecords(engine, p, rows[1..]);
      StepRecord(engine, p, rows[0]);
      RecordsFirst(p.record, rows[0], Filter(engine, p.built.invalid, rows[1..]));
    }
  }

  /** The frame after a pass that removes invalid rows. */
  lemma {:induction false} PassRemoves(engine: Engine, p: Pass, rows: seq<Cells>)
    requires p.output != "" && p.action != SetNull && p.action != Keep && Total(engine, p.built.invalid)
    ensures KeptRows(p.Run(engine), rows)
         == WithColumn(engine, p.output, p.built.expression, Filter(engine, Not(p.built.invalid), rows))
  {
    if rows != [] {
      PassRemoves(engine, p, rows[1..]);
      NegationHolds(engine, p.built.invalid, rows[0]);
      var rest := Filter(engine, Not(p.built.invalid), rows[1..]);
      assert ([rows[0]] + rest)[1..] == rest;
    }
  }

  function Replaced(p: Pass): Expr {
    When(p.built.invalid, if p.action == SetNull then Lit(Null) else p.built.source, p.built.expression)
  }

  lemma StepReplaces(engine: Engine, p: Pass, row: Cells)
    requires p.output != "" && (p.action == SetNull || p.action == Keep)
    ensures p.Run(engine)(row).fate == Kept(row[p.output := Eval(engine, Replaced(p), row)])
  {
    assert Eval(engine, Lit(Null), row) == Null;
  }

  /** The frame after a pass that replaces the values of invalid rows. */
  lemma {:induction false} PassReplaces(engine: Engine, p: Pass, rows: seq<Cells>)
    requires p.output != "" && (p.action == SetNull || p.action == Keep)
    ensures KeptRows(p.Run(engine), rows) == WithColumn(engine, p.output, Replaced(p), rows)
  {
    if rows != [] {
      PassReplaces(engine, p, rows[1..]);
      StepReplaces(engine, p, rows[0]);
    }
  }

  /** Without invalid rows every action is the same plain pass. */
  lemma {:induction false} PassAllValid(engine: Engine, p: Pass, rows: seq<Cells>)
    requires p.output != "" && Filter(engine, p.built.invalid, rows) == []
    ensures KeptRows(p.Run(engine), rows) == WithColumn(engine, p.output, p.built.expression, rows)
    ensures !SomeFails(p.Run(engine), rows)
  {
    if rows != [] {
      PassAllValid(engine, p, rows[1..]);
      assert forall row :: row in rows <==> row == rows[0] || row in rows[1..];
    }
  }

  /** A pass stops the batch exactly when it must fail the batch and some row is invalid. */
  lemma {:induction false} PassFails(engine: Engine, p: Pass, rows: seq<Cells>)
    requires p.output != ""
    ensures SomeFails(p.Run(engine), rows)
       <==> p.action == FailBatch && Filter(engine, p.built.invalid, rows) != []
  {
    if rows != [] {
      PassFails(engine, p, rows[1..]);
      assert forall row :: row in rows <==> row == rows[0] || row in rows[1..];
      assert p.Run(engine)(rows[0]) == p.Step(engine, rows[0]);
    }
  }

  /** A transform rule in its place is its compiled pass. */
  lemma StepIsPass(engine: Engine, ts: seq<Rule>, i: nat, columns: seq<string>, p: Pass)
    requires i < |ts| && p == PassOf(engine, ColumnsAfter(engine, ts[..i], columns), ts[i])
    ensures var m := TransformMachine(engine);
      forall row :: m.step(ContextAfter(m, ts[..i], columns), ts[i], row) == p.Run(engine)(row)
  {
  }

  /** The frame after a pass, by the branch the pass takes. */
  lemma PassKept(engine: Engine, p: Pass, rows: seq<Cells>)
    requires p.output != "" && Total(engine, p.built.invalid)
    ensures var bad := Filter(engine, p.built.invalid, rows) != [];
      var kept := KeptRows(p.Run(engine), rows);
      && (!bad ==> kept == WithColumn(engine, p.output, p.built.expression, rows))
      && (bad && (p.action == Quarantine || p.action == DropRow) ==>
            kept == WithColumn(engine, p.output, p.built.expression, Filter(engine, Not(p.built.invalid), rows)))
      && (bad && (p.action == SetNull || p.action == Keep) ==> kept == WithColumn(engine, p.output, Replaced(p), rows))
  {
    if Filter(engine, p.built.invalid, rows) == [] {
      PassAllValid(engine, p, rows);
    } else if (p.action == SetNull || p.action == Keep) {
      PassReplaces(engine, p, rows);
    } else {
      PassRemoves(engine, p, rows);
    }
  }

  /** The event under which an action counts the invalid rows, besides the error itself. */
  function Heading(action: Action): Event
    requires action != FailBatch
  {
    match action
    case Quarantine => QuarantinedRow
    case DropRow => DroppedRow
    case SetNull => SetToNull
    case Keep => Warned
  }

  /** The counters after a pass, bumped as the pass bumps them. */
  function Bumped(action: Action, earlier: Counts, rows: nat, bad: nat): Counts
    requires bad <= rows
  {
    var counts := Bump(Bump(earlier, Applied, rows - bad), Error, bad);
    if action == FailBatch then counts else Bump(counts, Heading(action), bad)
  }

  lemma BumpedEvent(action: Action, earlier: Counts, rows: nat, bad: nat, event: Event)
    requires bad <= rows
    ensures Bumped(action, earlier, rows, bad)[event] == earlier[event] + EventCount(action, event, rows, bad)
  {
  }

  lemma PassTally(engine: Engine, p: Pass, rows: seq<Cells>, earlier: Counts)
    requires p.output != ""
    ensures earlier + Tally(p.Run(engine), rows)
         == Bumped(p.action, earlier, |rows|, |Filter(engine, p.built.invalid, rows)|)
  {
    var t, after := Tally(p.Run(engine), rows),
                    Bumped(p.action, earlier, |rows|, |Filter(engine, p.built.invalid, rows)|);
    forall e: Event
      ensures (earlier + t)[e] == after[e]
    {
      PassCounts(engine, p, rows, e);
      BumpedEvent(p.action, earlier, |rows|, |Filter(engine, p.built.invalid, rows)|, e);
    }
  }

  /** What `run` makes of the rows, in the terms a pass computes it. */
  ghost predicate PassIs(
    engine: Engine, p: Pass, rows: seq<Cells>, earlier: Counts, run: Cells -> RowRun<Cells>)
  {
    var invalid := Filter(engine, p.built.invalid, rows);
    var valid := Filter(engine, Not(p.built.invalid), rows);
    var kept := KeptRows(run, rows);
    && |invalid| + |valid| == |rows|
    && earlier + Tally(run, rows) == Bumped(p.action, earlier, |rows|, |invalid|)
    && Records(run, rows) == (if p.action == Quarantine then multiset(RecordsOf(p.record, invalid)) else multiset{})
    && (SomeFails(run, rows) <==> p.action == FailBatch && invalid != [])
    && (invalid == [] ==> kept == WithColumn(engine, p.output, p.built.expression, rows))
    && (invalid != [] && (p.action == Quarantine || p.action == DropRow) ==>
          kept == WithColumn(engine, p.output, p.built.expression, valid))
    && (invalid != [] && (p.action == SetNull || p.action == Keep) ==>
          kept == WithColumn(engine, p.output, Replaced(p), rows))
  }

  lemma PassMeans(engine: Engine, p: Pass, rows: seq<Cells>, earlier: Counts)
    requires p.output != "" && Total(engine, p.built.invalid)
    ensures PassIs(engine, p, rows, earlier, p.Run(engine))
  {
    FilterSplits(engine, p.built.invalid, rows);
    PassTally(engine, p, rows, earlier);
    PassRecords(engine, p, rows);
    PassFails(engine, p, rows);
    PassKept(engine, p, rows);
  }

  /** One more transform rule of the list is its compiled pass over the rows kept so far. */
  lemma PassAdvances(engine: Engine, ts: seq<Rule>, i: nat, columns: seq<string>, rows: seq<Cells>, p: Pass)
    requires i < |ts| && p == PassOf(engine, ColumnsAfter(engine, ts[..i], columns), ts[i])
    requires !SomeFails(TransformRun(engine, ts[..i], columns), rows)
    ensures var run, next := TransformRun(engine, ts[..i], columns), TransformRun(engine, ts[..i + 1], columns);
      var kept := KeptRows(run, rows);
      && KeptRows(next, rows) == KeptRows(p.Run(engine), kept)
      && Records(next, rows) == Records(run, rows) + Records(p.Run(engine), kept)
      && Tally(next, rows) == Tally(run, rows) + Tally(p.Run(engine), kept)
      && (SomeFails(next, rows) <==> SomeFails(p.Run(engine), kept))
      && (SomeFails(p.Run(engine), kept) ==> FirstFailure(TransformRun(engine, ts, columns), rows, i))
    ensures ColumnsAfter(engine, ts[..i + 1], columns) == NextColumns(ColumnsAfter(engine, ts[..i], columns), ts[i])
  {
    TransformsWellPlaced(engine);
    StepIsPass(engine, ts, i, columns, p);
    OneMorePass(TransformMachine(engine), ts, i, columns, rows, p.Run(engine));
  }

  /** The pieces of a stopped transform phase. */
  lemma StopsAt(engine: Engine, frame: Frame, ts: seq<Rule>, k: nat, qualityRules: nat, p: Pass)
    requires k < |ts| && p == PassOf(engine, ColumnsAfter(engine, ts[..k], frame.columns), ts[k])
    requires FirstFailure(TransformRun(engine, ts, frame.columns), frame.rows, k)
    ensures var t := Tally(TransformRun(engine, ts[..k + 1], frame.columns), frame.rows);
      TransformsStop(engine, frame, ts, qualityRules,
        Raised("transform", ts[k], p.built.reason, TransformReport(|ts|, t), NoQuality(qualityRules)))
  {
  }

  // ----- The transform phase -----

  /** One transform rule as passes over the whole frame. */
  method TransformPass(
    engine: Engine, p: Pass, frame: Frame, rowCount: nat, quarantine: Option<seq<Record>>, earlier: Counts,
    ghost run: Cells -> RowRun<Cells>)
    returns (stop: bool, current: Frame, currentRowCount: nat, quarantined: Option<seq<Record>>, counts: Counts)
    requires PassIs(engine, p, frame.rows, earlier, run) && rowCount == |frame.rows|
    ensures stop <==> SomeFails(run, frame.rows)
    ensures counts == earlier + Tally(run, frame.rows)
    ensures !stop ==>
      && current == Frame(WithName(frame.columns, p.output), KeptRows(run, frame.rows))
      && currentRowCount == |current.rows|
      && Contents(quarantined) == Contents(quarantine) + Records(run, frame.rows)
      && (quarantined.None? <==> quarantine.None? && Records(run, frame.rows) == multiset{})
  {
    var columns := WithName(frame.columns, p.output);
    var invalid := Filter(engine, p.built.invalid, frame.rows);
    var invalidCount := |invalid|;
    counts := Bump(Bump(earlier, Applied, rowCount - invalidCount), Error, invalidCount);
    currentRowCount := if invalidCount > 0 && (p.action == Quarantine || p.action == DropRow)
                       then rowCount - invalidCount else rowCount;
    stop, current, quarantined := false, frame, quarantine;
    if invalidCount > 0 && p.action == FailBatch {
      stop := true;
    } else if invalidCount > 0 && p.action == Quarantine {
      quarantined := Append(quarantine, RecordsOf(p.record, invalid));
      counts := Bump(counts, QuarantinedRow, invalidCount);
      var valid := Filter(engine, Not(p.built.invalid), frame.rows);
      current := Frame(columns, WithColumn(engine, p.output, p.built.expression, valid));
    } else if invalidCount > 0 && p.action == DropRow {
      counts := Bump(counts, DroppedRow, invalidCount);
      var valid := Filter(engine, Not(p.built.invalid), frame.rows);
      current := Frame(columns, WithColumn(engine, p.output, p.built.expression, valid));
    } else if invalidCount > 0 && p.action == SetNull {
      counts := Bump(counts, SetToNull, invalidCount);
      var value := When(p.built.invalid, Lit(Null), p.built.expression);
      current := Frame(columns, WithColumn(engine, p.output, value, frame.rows));
    } else if invalidCount > 0 {
      counts := Bump(counts, Warned, invalidCount);
      var value := When(p.built.invalid, p.built.source, p.built.expression);
      current := Frame(columns, WithColumn(engine, p.output, value, frame.rows));
    } else {
      current := Frame(columns, WithColumn(engine, p.output, p.built.expression, frame.rows));
    }
  }

  /** The transform phase: one pass per rule, with the row count of the frame carried along once known. */
  method ApplyTransforms(engine: Engine, frame: Frame, ts: seq<Rule>, qualityRules: nat, inputRowCount: Option<nat>)
    returns (stopped: Option<Execution>, current: Frame, currentRowCount: Option<nat>,
             quarantine: Option<seq<Record>>, transform: TransformReport)
    requires inputRowCount.Some? ==> inputRowCount.value == |frame.rows|
    ensures stopped.Some? <==> SomeFails(TransformRun(engine, ts, frame.columns), frame.rows)
    ensures stopped.Some? ==> TransformsStop(engine, frame, ts, qualityRules, stopped.value)
    ensures stopped.None? ==>
      var run := TransformRun(engine, ts, frame.columns);
      && current == Frame(ColumnsAfter(engine, ts, frame.columns), KeptRows(run, frame.rows))
      && (currentRowCount.Some? ==> currentRowCount.value == |current.rows|)
      && Contents(quarantine) == Records(run, frame.rows)
      && (quarantine.None? <==> Contents(quarantine) == multiset{})
      && transform == TransformReport(|ts|, Tally(run, frame.rows))
  {
    hide TransformExpression, OutputName;
    stopped, current, currentRowCount, quarantine := None, frame, inputRowCount, None;
    transform := TransformReport(|ts|, multiset{});
    NoRules(engine, frame.columns, frame.rows);
    assert ts[..0] == [];
    for i := 0 to |ts|
      invariant !SomeFails(TransformRun(engine, ts[..i], frame.columns), frame.rows)
      invariant current == Frame(ColumnsAfter(engine, ts[..i], frame.columns),
                                 KeptRows(TransformRun(engine, ts[..i], frame.columns), frame.rows))
      invariant currentRowCount.Some? ==> currentRowCount.value == |current.rows|
      invariant Contents(quarantine) == Records(TransformRun(engine, ts[..i], frame.columns), frame.rows)
      invariant quarantine.None? <==> Contents(quarantine) == multiset{}
      invariant transform == TransformReport(|ts|, Tally(TransformRun(engine, ts[..i], frame.columns), frame.rows))
    {
      var pass := PassOf(engine, current.columns, ts[i]);
      PassAdvances(engine, ts, i, frame.columns, frame.rows, pass);
      if pass.output == "" {
        SilentPass(engine, pass, current.rows);
        continue;
      }
      PassTotal(engine, current.columns, ts[i]);
      PassMeans(engine, pass, current.rows, transform.counts);
      var rowCount := if currentRowCount.Some? then currentRowCount.value else |current.rows|;
      var stop, next, nextRowCount, quarantined, counts :=
        TransformPass(engine, pass, current, rowCount, quarantine, transform.counts, pass.Run(engine));
      transform := transform.(counts := counts);
      if stop {
        StopsAt(engine, frame, ts, i, qualityRules, pass);
        stopped := Some(Raised("transform", ts[i], pass.built.reason, transform, NoQuality(qualityRules)));
        return;
      }
      current, currentRowCount, quarantine := next, Some(nextRowCount), quarantined;
    }
    assert ts[..|ts|] == ts;
  }

  lemma {:induction false} NoRules(engine: Engine, columns: seq<string>, rows: seq<Cells>)
    ensures var run := TransformRun(engine, [], columns);
      && KeptRows(run, rows) == rows
      && Records(run, rows) == multiset{}
      && Tally(run, rows) == multiset{}
      && !SomeFails(run, rows)
  {
    if rows != [] {
      NoRules(engine, columns, rows[1..]);
    }
  }

  lemma {:induction false} SilentPass(engine: Engine, p: Pass, rows: seq<Cells>)
    requires p.output == ""
    ensures KeptRows(p.Run(engine), rows) == rows
    ensures Records(p.Run(engine), rows) == multiset{}
    ensures Tally(p.Run(engine), rows) == multiset{}
    ensures !SomeFails(p.Run(engine), rows)
  {
    if rows != [] {
      SilentPass(engine, p, rows[1..]);
    }
  }
}
