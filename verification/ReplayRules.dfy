/**
 What the rules make of a replayed row. A replay knows a row only by its verdict; here the verdict is what the
 snapshot rules do to the row alone, and a rule execution over the batch is what the verdicts of its rows say.
 */
module ReplayRules {
  import opened Expressions
  import opened RuleExpressions
  import opened RowRuns
  import opened SnapshotRules
  import Q = QuarantineReplay

  /** How a row leaves the rules: with these cells, not at all, or stopping its batch. */
  datatype Ending = Leaves(cells: Cells) | Removed | Stopping

  /** The two phases of a rule list on the columns of a frame. */
  datatype Phases = Phases(
    transform: Cells -> RowRun<Cells>,
    judge: Cells -> Judged,
    blocks: Judged -> bool,
    quality: Judged -> RowRun<Judged>)
  {
    function EndingOf(cells: Cells): Ending {
      match transform(cells).fate
      case Failed(_) => Stopping
      case Kept(next) =>
        if blocks(judge(next)) then Stopping
        else (match quality(judge(next)).fate
              case Kept(row) => Leaves(row.cells)
              case _ => Removed)
      case _ => Removed
    }
  }

  function PhasesOf(engine: Engine, columns: seq<string>, rules: seq<Rule>): Phases {
    var ts, qs := Enabled(rules, "transform"), Enabled(rules, "quality");
    var after := ColumnsAfter(engine, ts, columns);
    Phases(TransformRun(engine, ts, columns),
           cells => Judge(engine, qs, after, cells),
           row => exists k :: 0 <= k < |qs| && Blocks(qs, k, row),
           QualityRun(engine, qs, after))
  }

  function VerdictOf(ending: Ending): Q.Verdict {
    match ending
    case Leaves(_) => Q.Accept
    case Removed => Q.Reject
    case Stopping => Q.Stop
  }

  /** The cells of the rows that leave the rules, in order. */
  function Leaving(p: Phases, rows: seq<Cells>): seq<Cells> {
    if rows == [] then []
    else
      var rest := Leaving(p, rows[1..]);
      match p.EndingOf(rows[0])
      case Leaves(cells) => [cells] + rest
      case _ => rest
  }

  predicate Judges(p: Phases, rows: seq<Cells>, judged: seq<Judged>) {
    |judged| == |rows| && forall i :: 0 <= i < |rows| ==> judged[i] == p.judge(rows[i])
  }

  /** Both phases over a batch in which no row stops give the cells of the rows that leave. */
  lemma {:induction false} PhasesCompose(p: Phases, rows: seq<Cells>, judged: seq<Judged>)
    requires Judges(p, KeptRows(p.transform, rows), judged)
    requires forall row :: row in rows ==> !p.EndingOf(row).Stopping?
    ensures CellsOf(KeptRows(p.quality, judged)) == Leaving(p, rows)
  {
    if rows != [] {
      assert rows[0] in rows && forall row :: row in rows[1..] ==> row in rows;
      if p.transform(rows[0]).fate.Kept? {
        PhasesCompose(p, rows[1..], judged[1..]);
        assert judged[0] == p.judge(p.transform(rows[0]).fate.row);
      } else {
        PhasesCompose(p, rows[1..], judged);
      }
    }
  }

  /** Some row stops exactly if the transforms fail on a row, or a row they keep is blocked. */
  lemma StopsIff(p: Phases, rows: seq<Cells>, judged: seq<Judged>)
    requires Judges(p, KeptRows(p.transform, rows), judged)
    ensures (exists row :: row in rows && p.EndingOf(row).Stopping?)
       <==> SomeFails(p.transform, rows) || exists row :: row in judged && p.blocks(row)
  {
    var kept := KeptRows(p.transform, rows);
    forall row | row in rows && p.transform(row).fate.Kept?
      ensures p.judge(p.transform(row).fate.row) in judged
    {
      KeptMember(p.transform, rows, p.transform(row).fate.row);
      var i :| 0 <= i < |kept| && kept[i] == p.transform(row).fate.row;
      assert judged[i] == p.judge(kept[i]);
    }
    forall one | one in judged && p.blocks(one)
      ensures exists row :: row in rows && p.EndingOf(row).Stopping?
    {
      var i :| 0 <= i < |judged| && judged[i] == one;
      KeptMember(p.transform, rows, kept[i]);
      var row :| row in rows && p.transform(row).fate == Kept(kept[i]);
      assert p.EndingOf(row).Stopping?;
    }
  }

  /** A rule execution raises exactly if a row stops, and otherwise ends with the cells of the rows that leave. */
  lemma ExecutionIsEndings(engine: Engine, frame: Frame, rules: seq<Rule>, r: Execution)
    requires RowByRow(engine, frame, rules, r)
    ensures var p := PhasesOf(engine, frame.columns, rules);
      && (r.Raised? <==> exists row :: row in frame.rows && p.EndingOf(row).Stopping?)
      && (r.Done? ==> r.frame.rows == Leaving(p, frame.rows))
  {
    var p, qs := PhasesOf(engine, frame.columns, rules), Enabled(rules, "quality");
    var after := ColumnsAfter(engine, Enabled(rules, "transform"), frame.columns);
    var judged := JudgeAll(engine, qs, after, KeptRows(p.transform, frame.rows));
    StopsIff(p, frame.rows, judged);
    SomeBlocksIff(p, engine, qs, after, judged);
    if !r.Raised? {
      PhasesCompose(p, frame.rows, judged);
    }
  }

  lemma SomeBlocksIff(p: Phases, engine: Engine, qs: seq<Rule>, after: seq<string>, judged: seq<Judged>)
    requires forall row :: p.blocks(row) <==> exists k :: 0 <= k < |qs| && Blocks(qs, k, row)
    ensures (exists k: nat :: SomeBlocks(qs, judged, k)) <==> exists row :: row in judged && p.blocks(row)
  {
    if row :| row in judged && p.blocks(row) {
      var k :| 0 <= k < |qs| && Blocks(qs, k, row);
      assert SomeBlocks(qs, judged, k);
    }
  }

  // ----- The batch of a replay -----

  function Projected(project: Q.QRow -> Cells, rows: seq<Q.QRow>): (r: seq<Cells>)
    ensures |r| == |rows|
  {
    seq(|rows|, i requires 0 <= i < |rows| => project(rows[i]))
  }

  /** The verdicts of the settings are what the rules make of each row. */
  ghost predicate RulesDecide(s: Q.Settings, p: Phases, project: Q.QRow -> Cells) {
    forall row :: s.verdict(row) == VerdictOf(p.EndingOf(project(row)))
  }

  lemma {:induction false} AcceptedLeave(s: Q.Settings, p: Phases, project: Q.QRow -> Cells, batch: seq<Q.QRow>)
    requires RulesDecide(s, p, project)
    ensures Leaving(p, Projected(project, batch)) == Leaving(p, Projected(project, Q.Accepted(s, batch)))
    ensures |Leaving(p, Projected(project, batch))| == |Q.Accepted(s, batch)|
  {
    if batch != [] {
      AcceptedLeave(s, p, project, batch[1..]);
      assert Projected(project, batch)[1..] == Projected(project, batch[1..]);
      var rest := Q.Accepted(s, batch[1..]);
      assert Projected(project, [batch[0]] + rest)[1..] == Projected(project, rest);
    }
  }

  lemma StoppingRows(s: Q.Settings, p: Phases, project: Q.QRow -> Cells, batch: seq<Q.QRow>)
    requires RulesDecide(s, p, project)
    ensures (exists cells :: cells in Projected(project, batch) && p.EndingOf(cells).Stopping?)
       <==> Q.StopsRules(s, batch)
  {
    forall row | row in batch
      ensures project(row) in Projected(project, batch)
    {
      var i :| 0 <= i < |batch| && batch[i] == row;
      assert Projected(project, batch)[i] == project(row);
    }
    forall cells | cells in Projected(project, batch) && p.EndingOf(cells).Stopping?
      ensures Q.StopsRules(s, batch)
    {
      var i :| 0 <= i < |batch| && project(batch[i]) == cells;
      assert s.verdict(batch[i]).Stop?;
    }
  }

  /**
   The rules over the batch of a replay: they raise exactly if a row's verdict is Stop, and else keep one row
   for each accepted row, in order, with what the rules make of it.
   */
  lemma VerdictsAreRuleRuns(
    engine: Engine, columns: seq<string>, rules: seq<Rule>, project: Q.QRow -> Cells, s: Q.Settings,
    batch: seq<Q.QRow>, r: Execution)
    requires RulesDecide(s, PhasesOf(engine, columns, rules), project)
    requires RowByRow(engine, Frame(columns, Projected(project, batch)), rules, r)
    ensures r.Raised? <==> Q.StopsRules(s, batch)
    ensures r.Done? ==>
      && |r.frame.rows| == |Q.Accepted(s, batch)|
      && r.frame.rows == Leaving(PhasesOf(engine, columns, rules), Projected(project, Q.Accepted(s, batch)))
  {
    hide RowByRow, PhasesOf;
    var p, rows := PhasesOf(engine, columns, rules), Projected(project, batch);
    ExecutionIsEndings(engine, Frame(columns, rows), rules, r);
    AcceptedLeave(s, p, project, batch);
    StoppingRows(s, p, project, batch);
  }
}
