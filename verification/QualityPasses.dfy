/** The quality rules as passes over the flagged frame, against what they do to its rows. */
module QualityPasses {
  import opened Wrappers
  import opened Expressions
  import opened RuleExpressions
  import opened RowRuns
  import opened SnapshotRules

  lemma {:induction false} AnyFlagIsInvalid(flags: seq<Cell>)
    requires flags != []
    ensures AnyFlag(flags) == TRUE <==> exists i :: 0 <= i < |flags| && flags[i] == TRUE
  {
    if |flags| > 1 {
      var last := |flags| - 1;
      AnyFlagIsInvalid(flags[..last]);
      if i :| 0 <= i < |flags| && flags[i] == TRUE && i < last {
        assert flags[..last][i] == TRUE;
      }
    }
  }

  lemma {:induction false} AnyFlagCounts(rows: seq<Judged>)
    requires forall row :: row in rows ==> row.flags != []
    ensures |FilterAnyFlag(rows)| == CountInvalid(rows)
  {
    if rows != [] {
      AnyFlagCounts(rows[1..]);
      AnyFlagIsInvalid(rows[0].flags);
    }
  }

  lemma {:induction false} FlagCounts(index: nat, rows: seq<Judged>)
    requires forall row :: row in rows ==> index < |row.flags|
    ensures |FilterFlag(index, true, rows)| == CountFlagged(rows, index)
    ensures FilterFlag(index, true, rows) != [] <==> exists row :: row in rows && Flagged(row, index)
  {
    if rows != [] {
      FlagCounts(index, rows[1..]);
      assert forall row :: row in rows <==> row == rows[0] || row in rows[1..];
    }
  }

  lemma {:induction false} NothingInvalid(rows: seq<Judged>)
    requires forall row :: row in rows ==> row.flags == []
    ensures CountInvalid(rows) == 0
  {
    if rows != [] {
      NothingInvalid(rows[1..]);
    }
  }

  lemma StepGates(g: Gate, index: nat, row: Judged)
    requires index < |row.flags|
    ensures var fate := g.Run(index)(row).fate;
      && !fate.Failed?
      && (fate.Kept? ==> fate.row.flags == row.flags)
      && (fate.Quarantined? <==> g.action == Quarantine && row.flags[index] == TRUE)
      && (fate.Quarantined? ==> fate.record == g.record(row.cells))
  {
  }

  lemma {:induction false} GateRecords(g: Gate, index: nat, rows: seq<Judged>)
    requires forall row :: row in rows ==> index < |row.flags|
    ensures Records(g.Run(index), rows)
         == (if g.action == Quarantine then multiset(RecordsOf(g.record, CellsOf(FilterFlag(index, true, rows))))
             else multiset{})
  {
    if rows != [] {
      GateRecords(g, index, rows[1..]);
      StepGates(g, index, rows[0]);
      FlaggedRecords(g.record, rows[0], FilterFlag(index, true, rows[1..]));
    }
  }

  lemma FlaggedRecords(record: Cells -> Record, row: Judged, rest: seq<Judged>)
    ensures multiset(RecordsOf(record, CellsOf([row] + rest)))
         == multiset{record(row.cells)} + multiset(RecordsOf(record, CellsOf(rest)))
  {
    RecordsFirst(record, row.cells, CellsOf(rest));
    assert CellsOf([row] + rest) == [row.cells] + CellsOf(rest);
  }

  lemma {:induction false} GateJudged(g: Gate, index: nat, n: nat, rows: seq<Judged>)
    requires WellJudged(rows, n) && index < n
    ensures WellJudged(KeptRows(g.Run(index), rows), n)
    ensures !SomeFails(g.Run(index), rows)
  {
    if rows != [] {
      GateJudged(g, index, n, rows[1..]);
      assert rows[0] in rows;
      StepGates(g, index, rows[0]);
    }
  }

  lemma {:induction false} GateRemoves(g: Gate, index: nat, n: nat, rows: seq<Judged>)
    requires WellJudged(rows, n) && index < n && (g.action == Quarantine || g.action == DropRow)
    ensures KeptRows(g.Run(index), rows) == FilterFlag(index, false, rows)
  {
    if rows != [] {
      GateRemoves(g, index, n, rows[1..]);
      assert rows[0] in rows && IsBool(rows[0].flags[index]);
    }
  }

  lemma {:induction false} GateNulls(g: Gate, index: nat, rows: seq<Judged>)
    requires g.action == SetNull
    ensures KeptRows(g.Run(index), rows) == if g.target == "" then rows else NullColumn(g.target, index, rows)
  {
    if rows != [] {
      GateNulls(g, index, rows[1..]);
    }
  }

  lemma {:induction false} GateKeeps(g: Gate, index: nat, rows: seq<Judged>)
    requires forall row :: row in rows ==> index < |row.flags|
    requires g.action == Keep || g.action == FailBatch || FilterFlag(index, true, rows) == []
    ensures KeptRows(g.Run(index), rows) == rows
  {
    if rows != [] {
      GateKeeps(g, index, rows[1..]);
    }
  }

  function GateHeading(action: Action): Event {
    match action
    case Quarantine => QuarantinedRow
    case DropRow => DroppedRow
    case SetNull => SetToNull
    case _ => Warned
  }

  lemma {:induction false} GateTally(g: Gate, index: nat, rows: seq<Judged>)
    requires forall row :: row in rows ==> index < |row.flags|
    ensures Tally(g.Run(index), rows) == Bump(multiset{}, GateHeading(g.action), |FilterFlag(index, true, rows)|)
  {
    if rows != [] {
      GateTally(g, index, rows[1..]);
      var one := g.Step(index, rows[0]).counts;
      assert one == Bump(multiset{}, GateHeading(g.action), if Flagged(rows[0], index) then 1 else 0);
    }
  }

  lemma BumpAdds(earlier: Counts, event: Event, n: nat)
    ensures earlier + Bump(multiset{}, event, n) == Bump(earlier, event, n)
  {
  }

  /** One quality rule as passes over the flagged frame. */
  method QualityPass(
    g: Gate, index: nat, ghost n: nat, rows: seq<Judged>, quarantine: Option<seq<Record>>, earlier: Counts)
    returns (current: seq<Judged>, quarantined: Option<seq<Record>>, counts: Counts)
    requires WellJudged(rows, n) && index < n
    ensures current == KeptRows(g.Run(index), rows)
    ensures Contents(quarantined) == Contents(quarantine) + Records(g.Run(index), rows)
    ensures quarantined.None? <==> quarantine.None? && Records(g.Run(index), rows) == multiset{}
    ensures counts == earlier + Tally(g.Run(index), rows)
  {
    GateRecords(g, index, rows);
    GateTally(g, index, rows);
    current, quarantined, counts := rows, quarantine, earlier;
    var invalid := FilterFlag(index, true, rows);
    BumpAdds(earlier, GateHeading(g.action), |invalid|);
    if |invalid| == 0 {
      GateKeeps(g, index, rows);
    } else if g.action == Quarantine {
      GateRemoves(g, index, n, rows);
      quarantined := Append(quarantine, RecordsOf(g.record, CellsOf(invalid)));
      counts := Bump(counts, QuarantinedRow, |invalid|);
      current := FilterFlag(index, false, rows);
    } else if g.action == DropRow {
      GateRemoves(g, index, n, rows);
      counts := Bump(counts, DroppedRow, |invalid|);
      current := FilterFlag(index, false, rows);
    } else if g.action == SetNull {
      GateNulls(g, index, rows);
      if g.target != "" {
        current := NullColumn(g.target, index, rows);
      }
      counts := Bump(counts, SetToNull, |invalid|);
    } else {
      GateKeeps(g, index, rows);
      counts := Bump(counts, Warned, |invalid|);
    }
  }

  lemma {:induction false} IndexAfter(engine: Engine, columns: seq<string>, qs: seq<Rule>, from: nat)
    ensures ContextAfter(QualityMachine(engine, columns), qs, from) == from + |qs|
  {
    if qs != [] {
      IndexAfter(engine, columns, qs[1..], from + 1);
    }
  }

  lemma JudgesAreBool(engine: Engine, qs: seq<Rule>, columns: seq<string>, rows: seq<Cells>)
    ensures WellJudged(JudgeAll(engine, qs, columns, rows), |qs|)
  {
    forall r, i | 0 <= r < |rows| && 0 <= i < |qs|
      ensures IsBool(JudgeAll(engine, qs, columns, rows)[r].flags[i])
    {
      QualityFailureIsBool(engine, columns, qs[i], rows[r]);
    }
  }

  lemma VerdictOneMore(engine: Engine, qs: seq<Rule>, i: nat, columns: seq<string>, cells: Cells)
    requires i < |qs|
    ensures Judge(engine, qs[..i], columns, cells).flags + [Eval(engine, QualityCheck(columns, qs[i]).failure, cells)]
         == Judge(engine, qs[..i + 1], columns, cells).flags
  {
  }

  lemma JudgeOneMore(engine: Engine, qs: seq<Rule>, i: nat, columns: seq<string>, rows: seq<Cells>, failure: Expr)
    requires i < |qs| && failure == QualityCheck(columns, qs[i]).failure
    ensures WithFlag(engine, failure, JudgeAll(engine, qs[..i], columns, rows))
         == JudgeAll(engine, qs[..i + 1], columns, rows)
  {
    var longer, flagged := JudgeAll(engine, qs[..i + 1], columns, rows),
                           WithFlag(engine, failure, JudgeAll(engine, qs[..i], columns, rows));
    forall r | 0 <= r < |rows|
      ensures flagged[r] == longer[r]
    {
      VerdictOneMore(engine, qs, i, columns, rows[r]);
    }
  }

  /** A quality rule in its place is its compiled gate. */
  lemma StepIsGate(engine: Engine, qs: seq<Rule>, j: nat, columns: seq<string>, g: Gate)
    requires j < |qs| && g == GateOf(engine, columns, qs[j])
    ensures var m := QualityMachine(engine, columns);
      forall row :: m.step(ContextAfter(m, qs[..j], 0), qs[j], row) == g.Run(j)(row)
  {
    IndexAfter(engine, columns, qs[..j], 0);
  }

  lemma GatesWellPlaced(engine: Engine, columns: seq<string>)
    ensures WellPlaced(QualityMachine(engine, columns))
  {
  }

  lemma GateAdvances(
    engine: Engine, qs: seq<Rule>, j: nat, columns: seq<string>, rows: seq<Judged>, g: Gate)
    requires j < |qs| && g == GateOf(engine, columns, qs[j])
    requires !SomeFails(QualityRun(engine, qs[..j], columns), rows)
    ensures Advances(QualityRun(engine, qs[..j], columns), QualityRun(engine, qs[..j + 1], columns), g.Run(j), rows)
  {
    GatesWellPlaced(engine, columns);
    StepIsGate(engine, qs, j, columns, g);
    OneMorePass(QualityMachine(engine, columns), qs, j, 0, rows, g.Run(j));
  }

  /** `next` is `run` followed by one pass over the rows it keeps. */
  ghost predicate Advances(
    run: Judged -> RowRun<Judged>, next: Judged -> RowRun<Judged>, pass: Judged -> RowRun<Judged>, rows: seq<Judged>)
  {
    var kept := KeptRows(run, rows);
    && KeptRows(next, rows) == KeptRows(pass, kept)
    && Records(next, rows) == Records(run, rows) + Records(pass, kept)
    && Tally(next, rows) == Tally(run, rows) + Tally(pass, kept)
    && (SomeFails(next, rows) <==> SomeFails(pass, kept))
  }

  /** Where the gates so far have left the frame, the quarantine and the counters. */
  ghost predicate GatesAt(
    run: Judged -> RowRun<Judged>, rows: seq<Judged>, n: nat, before: multiset<Record>,
    current: seq<Judged>, quarantined: Option<seq<Record>>, counts: Counts)
  {
    && !SomeFails(run, rows) && current == KeptRows(run, rows) && WellJudged(current, n)
    && Contents(quarantined) == before + Records(run, rows)
    && (quarantined.None? <==> Contents(quarantined) == multiset{})
    && counts == Tally(run, rows)
  }

  lemma GatesStep(
    run: Judged -> RowRun<Judged>, next: Judged -> RowRun<Judged>, pass: Judged -> RowRun<Judged>,
    rows: seq<Judged>, n: nat, before: multiset<Record>,
    current: seq<Judged>, quarantined: Option<seq<Record>>, counts: Counts,
    nextCurrent: seq<Judged>, nextQuarantined: Option<seq<Record>>, nextCounts: Counts)
    requires GatesAt(run, rows, n, before, current, quarantined, counts) && Advances(run, next, pass, rows)
    requires !SomeFails(pass, current) && WellJudged(nextCurrent, n)
    requires nextCurrent == KeptRows(pass, current)
    requires Contents(nextQuarantined) == Contents(quarantined) + Records(pass, current)
    requires nextQuarantined.None? <==> quarantined.None? && Records(pass, current) == multiset{}
    requires nextCounts == counts + Tally(pass, current)
    ensures GatesAt(next, rows, n, before, nextCurrent, nextQuarantined, nextCounts)
  {
    assert before + Records(run, rows) + Records(pass, current) == before + (Records(run, rows) + Records(pass, current));
  }

  lemma {:induction false} NoGates(engine: Engine, columns: seq<string>, rows: seq<Judged>)
    ensures var run := QualityRun(engine, [], columns);
      && KeptRows(run, rows) == rows
      && Records(run, rows) == multiset{}
      && Tally(run, rows) == multiset{}
      && !SomeFails(run, rows)
  {
    if rows != [] {
      NoGates(engine, columns, rows[1..]);
    }
  }

  /** Every rule's verdict on every row, each computed on the values the quality phase starts from. */
  method FlagRows(engine: Engine, frame: Frame, qs: seq<Rule>) returns (flagged: seq<Judged>, invalidRows: nat)
    ensures flagged == JudgeAll(engine, qs, frame.columns, frame.rows)
    ensures WellJudged(flagged, |qs|)
    ensures invalidRows == CountInvalid(flagged)
  {
    flagged := seq(|frame.rows|, i requires 0 <= i < |frame.rows| => Judged(frame.rows[i], []));
    forall r | 0 <= r < |frame.rows|
      ensures flagged[r] == JudgeAll(engine, qs[..0], frame.columns, frame.rows)[r]
    {
      assert JudgeAll(engine, qs[..0], frame.columns, frame.rows)[r].flags == [];
    }
    for i := 0 to |qs|
      invariant flagged == JudgeAll(engine, qs[..i], frame.columns, frame.rows)
    {
      var check := QualityCheck(frame.columns, qs[i]);
      JudgeOneMore(engine, qs, i, frame.columns, frame.rows, check.failure);
      flagged := WithFlag(engine, check.failure, flagged);
    }
    assert qs[..|qs|] == qs;
    JudgesAreBool(engine, qs, frame.columns, frame.rows);
    invalidRows := 0;
    if |qs| > 0 {
      AnyFlagCounts(flagged);
      invalidRows := |FilterAnyFlag(flagged)|;
    } else {
      NothingInvalid(flagged);
    }
  }

  /** The rows flagged by batch-failing rules, and the first such rule that flags any. */
  method FindBlocking(qs: seq<Rule>, flagged: seq<Judged>) returns (blocking: Option<nat>, failures: nat)
    requires WellJudged(flagged, |qs|)
    ensures failures == CountBlocking(qs, flagged)
    ensures blocking.None? ==> failures == 0
    ensures blocking.None? <==> forall k: nat :: !SomeBlocks(qs, flagged, k)
    ensures blocking.Some? ==>
      && blocking.value < |qs| && SomeBlocks(qs, flagged, blocking.value)
      && forall k: nat :: k < blocking.value ==> !SomeBlocks(qs, flagged, k)
  {
    blocking, failures := None, 0;
    for j := 0 to |qs|
      invariant failures == CountBlocking(qs[..j], flagged)
      invariant blocking.None? ==> failures == 0
      invariant blocking.None? ==> forall k: nat :: k < j ==> !SomeBlocks(qs, flagged, k)
      invariant blocking.Some? ==>
        && blocking.value < j && SomeBlocks(qs, flagged, blocking.value)
        && forall k: nat :: k < blocking.value ==> !SomeBlocks(qs, flagged, k)
    {
      assert qs[..j + 1][..j] == qs[..j];
      FlagCounts(j, flagged);
      if FailureAction(qs[j]) == FailBatch {
        var failed := |FilterFlag(j, true, flagged)|;
        failures := failures + failed;
        if failed > 0 && blocking.None? {
          blocking := Some(j);
        }
      }
    }
    assert qs[..|qs|] == qs;
  }

  /** The quality rules on the flagged frame, one pass per rule. */
  method ApplyGates(
    engine: Engine, columns: seq<string>, qs: seq<Rule>, flagged: seq<Judged>, quarantine: Option<seq<Record>>)
    returns (current: seq<Judged>, quarantined: Option<seq<Record>>, counts: Counts)
    requires WellJudged(flagged, |qs|)
    requires quarantine.None? <==> Contents(quarantine) == multiset{}
    ensures var run := QualityRun(engine, qs, columns);
      && current == KeptRows(run, flagged)
      && Contents(quarantined) == Contents(quarantine) + Records(run, flagged)
      && (quarantined.None? <==> Contents(quarantined) == multiset{})
      && counts == Tally(run, flagged)
  {
    current, quarantined, counts := flagged, quarantine, multiset{};
    NoGates(engine, columns, flagged);
    assert qs[..0] == [];
    for j := 0 to |qs|
      invariant GatesAt(QualityRun(engine, qs[..j], columns), flagged, |qs|, Contents(quarantine),
                        current, quarantined, counts)
    {
      var gate := GateOf(engine, columns, qs[j]);
      ghost var run, next := QualityRun(engine, qs[..j], columns), QualityRun(engine, qs[..j + 1], columns);
      GateAdvances(engine, qs, j, columns, flagged, gate);
      GateJudged(gate, j, |qs|, current);
      var kept, records, tally := QualityPass(gate, j, |qs|, current, quarantined, counts);
      GatesStep(run, next, gate.Run(j), flagged, |qs|, Contents(quarantine),
                current, quarantined, counts, kept, records, tally);
      current, quarantined, counts := kept, records, tally;
    }
    assert qs[..|qs|] == qs;
  }

  /** The quality phase: verdicts first, then the blocking rules, then the edits. */
  method ApplyQuality(
    engine: Engine, frame: Frame, qs: seq<Rule>, inputCount: Option<nat>, quarantine: Option<seq<Record>>,
    transform: TransformReport)
    returns (r: Execution)
    requires inputCount.Some? ==> inputCount.value == |frame.rows|
    requires quarantine.None? <==> Contents(quarantine) == multiset{}
    ensures QualityRowByRow(engine, frame, qs, Contents(quarantine), transform, r)
    ensures r.Done? ==> (r.quarantine.None? <==> Contents(r.quarantine) == multiset{})
  {
    var evaluated := if inputCount.Some? then inputCount.value else |frame.rows|;
    var flagged, invalidRows := FlagRows(engine, frame, qs);
    var blocking, failures := FindBlocking(qs, flagged);
    if blocking.Some? {
      var rule := qs[blocking.value];
      return Raised("quality", rule, QualityCheck(frame.columns, rule).reason, transform,
                    QualityReport(|qs|, Some(evaluated), invalidRows, failures, multiset{}, "fail"));
    }
    var current, quarantined, counts := ApplyGates(engine, frame.columns, qs, flagged, quarantine);
    r := Done(Frame(frame.columns, CellsOf(current)), quarantined, transform,
              QualityReport(|qs|, Some(evaluated), invalidRows, failures, counts,
                            if invalidRows > 0 then "warn" else "pass"));
  }
}
