/**
 What becomes of one row under a list of rules, and what a batch of rows adds up to: the rows kept, the
 quarantine records and the counters of the batch are by definition those of its rows taken one at a time.
 */
module RowRuns {
  import opened Wrappers
  import opened Expressions

  datatype Record = Record(
    topic: Cell,
    partition: Cell,
    offset: Cell,
    kafkaTimestamp: Cell,
    rawPayload: Cell,
    eventId: Cell,
    record: seq<(string, Cell)>,
    reason: string,
    ruleId: string,
    stage: string,
    targetColumn: string)

  /** What one rule reports about one row; a counter of the batch is the multiplicity of its event. */
  datatype Event = Applied | Error | DroppedRow | QuarantinedRow | SetToNull | Warned

  type Counts = multiset<Event>

  /** `Failed(at)` carries the position of the rule that stops the batch. */
  datatype Fate<T> = Kept(row: T) | Dropped | Quarantined(record: Record) | Failed(at: nat)

  datatype RowRun<T> = RowRun(fate: Fate<T>, counts: Counts)
  {
    /** This run seen from `steps` rules earlier, with the counters collected there. */
    function After(earlier: Counts, steps: nat): RowRun<T> {
      RowRun(if fate.Failed? then Failed(fate.at + steps) else fate, earlier + counts)
    }

    /** Goes on with `rest` if the row is still there. */
    function Then(steps: nat, rest: T -> RowRun<T>): RowRun<T> {
      match fate
      case Kept(row) => rest(row).After(counts, steps)
      case _ => this
    }

    /** Exactly the way the row ended is counted, and every error is counted under one heading. */
    predicate Accounted() {
      && counts[DroppedRow] == (if fate.Dropped? then 1 else 0)
      && counts[QuarantinedRow] == (if fate.Quarantined? then 1 else 0)
      && counts[Error] == counts[DroppedRow] + counts[QuarantinedRow] + counts[SetToNull] + counts[Warned]
                          + (if fate.Failed? then 1 else 0)
    }
  }

  /** Collecting earlier counters and going on commute. */
  lemma AfterThen<T>(run: RowRun<T>, earlier: Counts, steps: nat, more: nat, rest: T -> RowRun<T>)
    ensures run.After(earlier, steps).Then(steps + more, rest) == run.Then(more, rest).After(earlier, steps)
  {
    if run.fate.Kept? {
      assert earlier + run.counts + rest(run.fate.row).counts == earlier + (run.counts + rest(run.fate.row).counts);
    }
  }

  function KeptRows<T>(run: T -> RowRun<T>, rows: seq<T>): seq<T> {
    if rows == [] then []
    else
      var rest := KeptRows(run, rows[1..]);
      match run(rows[0]).fate
      case Kept(row) => [row] + rest
      case _ => rest
  }

  function Records<T>(run: T -> RowRun<T>, rows: seq<T>): multiset<Record> {
    if rows == [] then multiset{}
    else
      var rest := Records(run, rows[1..]);
      match run(rows[0]).fate
      case Quarantined(record) => multiset{record} + rest
      case _ => rest
  }

  function Tally<T>(run: T -> RowRun<T>, rows: seq<T>): Counts {
    if rows == [] then multiset{} else run(rows[0]).counts + Tally(run, rows[1..])
  }

  /** Only what a run does to rows matters. */
  lemma {:induction false} SameRuns<T(!new)>(f: T -> RowRun<T>, g: T -> RowRun<T>, rows: seq<T>)
    requires forall row :: f(row) == g(row)
    ensures KeptRows(f, rows) == KeptRows(g, rows)
    ensures Records(f, rows) == Records(g, rows)
    ensures Tally(f, rows) == Tally(g, rows)
  {
    if rows != [] {
      SameRuns(f, g, rows[1..]);
    }
  }

  ghost predicate SomeFails<T>(run: T -> RowRun<T>, rows: seq<T>) {
    exists row :: row in rows && run(row).fate.Failed?
  }

  /** `k` is the earliest rule at which any row of the batch fails. */
  ghost predicate FirstFailure<T>(run: T -> RowRun<T>, rows: seq<T>, k: nat) {
    && (exists row :: row in rows && run(row).fate == Failed(k))
    && (forall row :: row in rows && run(row).fate.Failed? ==> k <= run(row).fate.at)
  }

  lemma {:induction false} KeptMember<T>(run: T -> RowRun<T>, rows: seq<T>, kept: T)
    ensures kept in KeptRows(run, rows) <==> exists row :: row in rows && run(row).fate == Kept(kept)
  {
    if rows != [] {
      KeptMember(run, rows[1..], kept);
      assert forall row :: row in rows <==> row == rows[0] || row in rows[1..];
    }
  }

  lemma Unfold<T>(run: T -> RowRun<T>, row: T, rest: seq<T>)
    ensures KeptRows(run, [row] + rest)
        == (if run(row).fate.Kept? then [run(row).fate.row] else []) + KeptRows(run, rest)
    ensures Records(run, [row] + rest)
        == (if run(row).fate.Quarantined? then multiset{run(row).fate.record} else multiset{}) + Records(run, rest)
    ensures Tally(run, [row] + rest) == run(row).counts + Tally(run, rest)
  {
    assert ([row] + rest)[1..] == rest;
  }

  ghost predicate TwoStages<T(!new)>(
    first: T -> RowRun<T>, steps: nat, second: T -> RowRun<T>, both: T -> RowRun<T>, rows: seq<T>)
  {
    forall row :: row in rows ==> both(row) == first(row).Then(steps, second)
  }

  lemma {:induction false} ComposeKept<T(!new)>(
    first: T -> RowRun<T>, steps: nat, second: T -> RowRun<T>, both: T -> RowRun<T>, rows: seq<T>)
    requires TwoStages(first, steps, second, both, rows)
    ensures KeptRows(both, rows) == KeptRows(second, KeptRows(first, rows))
  {
    if rows != [] {
      ComposeKept(first, steps, second, both, rows[1..]);
      assert both(rows[0]) == first(rows[0]).Then(steps, second);
      if first(rows[0]).fate.Kept? {
        Unfold(second, first(rows[0]).fate.row, KeptRows(first, rows[1..]));
      }
    }
  }

  lemma {:induction false} ComposeRecords<T(!new)>(
    first: T -> RowRun<T>, steps: nat, second: T -> RowRun<T>, both: T -> RowRun<T>, rows: seq<T>)
    requires TwoStages(first, steps, second, both, rows)
    ensures Records(both, rows) == Records(first, rows) + Records(second, KeptRows(first, rows))
  {
    if rows != [] {
      ComposeRecords(first, steps, second, both, rows[1..]);
      assert both(rows[0]) == first(rows[0]).Then(steps, second);
      if first(rows[0]).fate.Kept? {
        Unfold(second, first(rows[0]).fate.row, KeptRows(first, rows[1..]));
      }
    }
  }

  lemma {:induction false} ComposeTally<T(!new)>(
    first: T -> RowRun<T>, steps: nat, second: T -> RowRun<T>, both: T -> RowRun<T>, rows: seq<T>)
    requires TwoStages(first, steps, second, both, rows)
    ensures Tally(both, rows) == Tally(first, rows) + Tally(second, KeptRows(first, rows))
  {
    if rows != [] {
      var row, rest := rows[0], rows[1..];
      var here, kept := first(row), KeptRows(first, rest);
      ComposeTally(first, steps, second, both, rest);
      assert both(row) == here.Then(steps, second);
      if here.fate.Kept? {
        Unfold(second, here.fate.row, kept);
      }
    }
  }

  /** Running two stages over a batch is running both over each row. */
  lemma {:induction false} Compose<T(!new)>(
    first: T -> RowRun<T>, steps: nat, second: T -> RowRun<T>, both: T -> RowRun<T>, rows: seq<T>)
    requires TwoStages(first, steps, second, both, rows)
    ensures KeptRows(both, rows) == KeptRows(second, KeptRows(first, rows))
    ensures Records(both, rows) == Records(first, rows) + Records(second, KeptRows(first, rows))
    ensures Tally(both, rows) == Tally(first, rows) + Tally(second, KeptRows(first, rows))
  {
    ComposeKept(first, steps, second, both, rows);
    ComposeRecords(first, steps, second, both, rows);
    ComposeTally(first, steps, second, both, rows);
  }

  lemma KeptRow<T>(run: T -> RowRun<T>, rows: seq<T>, row: T)
    requires row in rows && run(row).fate.Kept?
    ensures run(row).fate.row in KeptRows(run, rows)
  {
    KeptMember(run, rows, run(row).fate.row);
  }

  lemma KeptFrom<T>(run: T -> RowRun<T>, rows: seq<T>, kept: T) returns (row: T)
    requires kept in KeptRows(run, rows)
    ensures row in rows && run(row).fate == Kept(kept)
  {
    KeptMember(run, rows, kept);
    row :| row in rows && run(row).fate == Kept(kept);
  }

  lemma FirstStageFails<T(!new)>(
    first: T -> RowRun<T>, steps: nat, second: T -> RowRun<T>, both: T -> RowRun<T>, rows: seq<T>, k: nat)
    requires TwoStages(first, steps, second, both, rows) && FirstFailure(first, rows, k)
    requires forall row :: row in rows && first(row).fate.Failed? ==> first(row).fate.at < steps
    ensures FirstFailure(both, rows, k)
  {
    var row :| row in rows && first(row).fate == Failed(k);
    assert both(row).fate == Failed(k);
    forall r | r in rows && both(r).fate.Failed?
      ensures k <= both(r).fate.at
    {
      assert both(r) == first(r).Then(steps, second);
    }
  }

  lemma SecondStageFails<T(!new)>(
    first: T -> RowRun<T>, steps: nat, second: T -> RowRun<T>, both: T -> RowRun<T>, rows: seq<T>, k: nat)
    requires TwoStages(first, steps, second, both, rows) && !SomeFails(first, rows)
    requires FirstFailure(second, KeptRows(first, rows), k)
    ensures FirstFailure(both, rows, k + steps)
  {
    var kept := KeptRows(first, rows);
    var row :| row in kept && second(row).fate == Failed(k);
    var from := KeptFrom(first, rows, row);
    assert both(from).fate == Failed(k + steps);
    forall r | r in rows && both(r).fate.Failed?
      ensures k + steps <= both(r).fate.at
    {
      assert both(r) == first(r).Then(steps, second) && !first(r).fate.Failed?;
      KeptRow(first, rows, r);
    }
  }

  lemma EitherStageFails<T(!new)>(
    first: T -> RowRun<T>, steps: nat, second: T -> RowRun<T>, both: T -> RowRun<T>, rows: seq<T>)
    requires TwoStages(first, steps, second, both, rows)
    ensures SomeFails(both, rows) <==> SomeFails(first, rows) || SomeFails(second, KeptRows(first, rows))
  {
    forall row | row in rows && both(row).fate.Failed?
      ensures SomeFails(first, rows) || SomeFails(second, KeptRows(first, rows))
    {
      assert both(row) == first(row).Then(steps, second);
      if first(row).fate.Kept? {
        KeptRow(first, rows, row);
      }
    }
    forall row | row in rows && first(row).fate.Failed?
      ensures both(row).fate.Failed?
    {
      assert both(row) == first(row).Then(steps, second);
    }
    forall row | row in KeptRows(first, rows) && second(row).fate.Failed?
      ensures SomeFails(both, rows)
    {
      var from := KeptFrom(first, rows, row);
      assert both(from) == first(from).Then(steps, second);
    }
  }

  /** The two-stage batch first fails where the first stage does, else where the second does. */
  lemma {:induction false} ComposeFailure<T(!new)>(
    first: T -> RowRun<T>, steps: nat, second: T -> RowRun<T>, both: T -> RowRun<T>, rows: seq<T>)
    requires TwoStages(first, steps, second, both, rows)
    requires forall row :: row in rows && first(row).fate.Failed? ==> first(row).fate.at < steps
    ensures forall k: nat :: FirstFailure(first, rows, k) ==> FirstFailure(both, rows, k)
    ensures forall k: nat :: !SomeFails(first, rows) && FirstFailure(second, KeptRows(first, rows), k)
              ==> FirstFailure(both, rows, k + steps)
    ensures SomeFails(both, rows) <==> SomeFails(first, rows) || SomeFails(second, KeptRows(first, rows))
  {
    forall k: nat | FirstFailure(first, rows, k)
      ensures FirstFailure(both, rows, k)
    {
      FirstStageFails(first, steps, second, both, rows, k);
    }
    forall k: nat | !SomeFails(first, rows) && FirstFailure(second, KeptRows(first, rows), k)
      ensures FirstFailure(both, rows, k + steps)
    {
      SecondStageFails(first, steps, second, both, rows, k);
    }
    EitherStageFails(first, steps, second, both, rows);
  }

  /** If every row is accounted for and none fails, rows are conserved and so are error counts. */
  lemma {:induction false} Conservation<T>(run: T -> RowRun<T>, rows: seq<T>)
    requires forall row :: row in rows ==> run(row).Accounted() && !run(row).fate.Failed?
    ensures var c := Tally(run, rows);
      && |rows| == |KeptRows(run, rows)| + c[DroppedRow] + c[QuarantinedRow]
      && |Records(run, rows)| == c[QuarantinedRow]
      && c[Error] == c[DroppedRow] + c[QuarantinedRow] + c[SetToNull] + c[Warned]
  {
    if rows != [] {
      assert rows[0] in rows;
      assert forall row :: row in rows[1..] ==> row in rows;
      Conservation(run, rows[1..]);
    }
  }

  // ----- Lists of rules -----

  /**
   What one rule does to a row, in a context (the columns, or the position of the rule) that every rule of
   the list advances in the same way whatever the row.
   */
  datatype Machine<!C, !R, !T> = Machine(step: (C, R, T) -> RowRun<T>, advance: (C, R) -> C)

  function ContextAfter<C, R, T>(m: Machine<C, R, T>, rules: seq<R>, context: C): C {
    if rules == [] then context else ContextAfter(m, rules[1..], m.advance(context, rules[0]))
  }

  /** The rules on one row, left to right, until the row is gone or the batch must stop. */
  function RunAll<C, R, T>(m: Machine<C, R, T>, rules: seq<R>, context: C, row: T): RowRun<T> {
    if rules == [] then RowRun(Kept(row), multiset{})
    else
      var first := m.step(context, rules[0], row);
      match first.fate
      case Kept(next) => RunAll(m, rules[1..], m.advance(context, rules[0]), next).After(first.counts, 1)
      case _ => first
  }

  function Runner<C, R, T>(m: Machine<C, R, T>, rules: seq<R>, context: C): T -> RowRun<T> {
    row => RunAll(m, rules, context, row)
  }

  function StepRunner<C, R, T>(m: Machine<C, R, T>, context: C, rule: R): T -> RowRun<T> {
    row => m.step(context, rule, row)
  }

  /** A step that stops the batch does so at its own rule. */
  ghost predicate WellPlaced<C(!new), R(!new), T(!new)>(m: Machine<C, R, T>) {
    forall c, r, row :: m.step(c, r, row).fate.Failed? ==> m.step(c, r, row).fate.at == 0
  }

  lemma {:induction false} ContextAppend<C, R, T>(m: Machine<C, R, T>, a: seq<R>, b: seq<R>, context: C)
    ensures ContextAfter(m, a + b, context) == ContextAfter(m, b, ContextAfter(m, a, context))
    decreases |a|
  {
    if a == [] {
      assert a + b == b;
    } else {
      assert (a + b)[1..] == a[1..] + b;
      ContextAppend(m, a[1..], b, m.advance(context, a[0]));
    }
  }

  /** Segmentation of one row's run: the rules A, then the rules B on what A made of the row. */
  lemma {:induction false} RunAppend<C(!new), R(!new), T(!new)>(
    m: Machine<C, R, T>, a: seq<R>, b: seq<R>, context: C, row: T)
    requires WellPlaced(m)
    ensures RunAll(m, a + b, context, row)
         == RunAll(m, a, context, row).Then(|a|, Runner(m, b, ContextAfter(m, a, context)))
    ensures RunAll(m, a, context, row).fate.Failed? ==> RunAll(m, a, context, row).fate.at < |a|
    decreases |a|
  {
    var second := Runner(m, b, ContextAfter(m, a, context));
    if a == [] {
      assert a + b == b;
      assert multiset{} + second(row).counts == second(row).counts;
    } else {
      assert (a + b)[1..] == a[1..] + b;
      var first := m.step(context, a[0], row);
      if first.fate.Kept? {
        var next := m.advance(context, a[0]);
        RunAppend(m, a[1..], b, next, first.fate.row);
        AfterThen(RunAll(m, a[1..], next, first.fate.row), first.counts, 1, |a| - 1, second);
      }
    }
  }

  /** Segmentation of a batch: kept rows pass through, quarantines are united, counters are added. */
  lemma {:induction false} Segmentation<C(!new), R(!new), T(!new)>(
    m: Machine<C, R, T>, a: seq<R>, b: seq<R>, context: C, rows: seq<T>)
    requires WellPlaced(m)
    ensures var first, both := Runner(m, a, context), Runner(m, a + b, context);
      var second, kept := Runner(m, b, ContextAfter(m, a, context)), KeptRows(first, rows);
      && KeptRows(both, rows) == KeptRows(second, kept)
      && Records(both, rows) == Records(first, rows) + Records(second, kept)
      && Tally(both, rows) == Tally(first, rows) + Tally(second, kept)
      && (SomeFails(both, rows) <==> SomeFails(first, rows) || SomeFails(second, kept))
      && (forall k: nat :: FirstFailure(first, rows, k) ==> FirstFailure(both, rows, k))
      && (forall k: nat :: !SomeFails(first, rows) && FirstFailure(second, kept, k)
            ==> FirstFailure(both, rows, k + |a|))
  {
    var first, both := Runner(m, a, context), Runner(m, a + b, context);
    var second := Runner(m, b, ContextAfter(m, a, context));
    forall row
      ensures both(row) == first(row).Then(|a|, second)
      ensures first(row).fate.Failed? ==> first(row).fate.at < |a|
    {
      RunAppend(m, a, b, context, row);
    }
    Compose(first, |a|, second, both, rows);
    ComposeFailure(first, |a|, second, both, rows);
  }

  lemma RunSingle<C(!new), R(!new), T(!new)>(m: Machine<C, R, T>, context: C, rule: R, row: T)
    ensures RunAll(m, [rule], context, row) == m.step(context, rule, row)
  {
    var first := m.step(context, rule, row);
    if first.fate.Kept? {
      assert RunAll(m, [rule][1..], m.advance(context, rule), first.fate.row)
          == RowRun(Kept(first.fate.row), multiset{});
      assert first.counts + multiset{} == first.counts;
    }
  }

  /** One more rule: its pass over the rows the list has kept so far. */
  lemma {:induction false} OneMoreRule<C(!new), R(!new), T(!new)>(
    m: Machine<C, R, T>, rules: seq<R>, i: nat, context: C, rows: seq<T>)
    requires WellPlaced(m) && i < |rules|
    ensures var run, next := Runner(m, rules[..i], context), Runner(m, rules[..i + 1], context);
      var here := ContextAfter(m, rules[..i], context);
      var step, kept := StepRunner(m, here, rules[i]), KeptRows(run, rows);
      && KeptRows(next, rows) == KeptRows(step, kept)
      && Records(next, rows) == Records(run, rows) + Records(step, kept)
      && Tally(next, rows) == Tally(run, rows) + Tally(step, kept)
      && (SomeFails(next, rows) <==> SomeFails(run, rows) || SomeFails(step, kept))
      && (!SomeFails(run, rows) && SomeFails(step, kept) ==> FirstFailure(next, rows, i))
      && ContextAfter(m, rules[..i + 1], context) == m.advance(here, rules[i])
  {
    var run, next := Runner(m, rules[..i], context), Runner(m, rules[..i + 1], context);
    var here := ContextAfter(m, rules[..i], context);
    var step, kept := StepRunner(m, here, rules[i]), KeptRows(run, rows);
    assert rules[..i + 1] == rules[..i] + [rules[i]];
    ContextAppend(m, rules[..i], [rules[i]], context);
    forall row
      ensures next(row) == run(row).Then(i, step)
      ensures run(row).fate.Failed? ==> run(row).fate.at < i
    {
      RunAppend(m, rules[..i], [rules[i]], context, row);
      if run(row).fate.Kept? {
        RunSingle(m, here, rules[i], run(row).fate.row);
      }
    }
    Compose(run, i, step, next, rows);
    ComposeFailure(run, i, step, next, rows);
    if SomeFails(step, kept) {
      assert FirstFailure(step, kept, 0);
    }
  }

  /** The first failing rule of a prefix is the first failing rule of the whole list. */
  lemma {:induction false} PrefixFailure<C(!new), R(!new), T(!new)>(
    m: Machine<C, R, T>, rules: seq<R>, i: nat, context: C, rows: seq<T>, k: nat)
    requires WellPlaced(m) && i <= |rules|
    requires FirstFailure(Runner(m, rules[..i], context), rows, k)
    ensures FirstFailure(Runner(m, rules, context), rows, k)
  {
    assert rules[..i] + rules[i..] == rules;
    Segmentation(m, rules[..i], rules[i..], context, rows);
  }

  lemma {:induction false} SomeFirstFailure<T>(run: T -> RowRun<T>, rows: seq<T>) returns (k: nat)
    requires SomeFails(run, rows)
    ensures FirstFailure(run, rows, k)
  {
    assert forall row :: row in rows <==> row == rows[0] || row in rows[1..];
    if SomeFails(run, rows[1..]) {
      k := SomeFirstFailure(run, rows[1..]);
      var fate := run(rows[0]).fate;
      if fate.Failed? && fate.at < k {
        k := fate.at;
      }
    } else {
      k := run(rows[0]).fate.at;
    }
  }

  lemma OneFirstFailure<T>(run: T -> RowRun<T>, rows: seq<T>, j: nat, k: nat)
    requires FirstFailure(run, rows, j) && FirstFailure(run, rows, k)
    ensures j == k
  {
    var a :| a in rows && run(a).fate == Failed(j);
    var b :| b in rows && run(b).fate == Failed(k);
  }

  /** The first failing rule is where the rows of some prefix fail for the first time. */
  lemma {:induction false} FailsFirstAt<C(!new), R(!new), T(!new)>(
    m: Machine<C, R, T>, rules: seq<R>, context: C, rows: seq<T>, k: nat)
    requires WellPlaced(m) && k < |rules| && FirstFailure(Runner(m, rules, context), rows, k)
    ensures SomeFails(Runner(m, rules[..k + 1], context), rows) && !SomeFails(Runner(m, rules[..k], context), rows)
  {
    hide RunAll;
    var front := rules[..k];
    if SomeFails(Runner(m, front, context), rows) {
      var j := SomeFirstFailure(Runner(m, front, context), rows);
      var row :| row in rows && Runner(m, front, context)(row).fate == Failed(j);
      assert front + [] == front;
      RunAppend(m, front, [], context, row);
      PrefixFailure(m, rules, k, context, rows, j);
      OneFirstFailure(Runner(m, rules, context), rows, j, k);
    }
    if !SomeFails(Runner(m, rules[..k + 1], context), rows) {
      assert rules[..k + 1] + rules[k + 1..] == rules;
      Segmentation(m, rules[..k + 1], rules[k + 1..], context, rows);
      var second := Runner(m, rules[k + 1..], ContextAfter(m, rules[..k + 1], context));
      var j := SomeFirstFailure(second, KeptRows(Runner(m, rules[..k + 1], context), rows));
    }
  }

  /** One more rule, given as any function that does to a row what the rule does in its place. */
  lemma {:induction false} OneMorePass<C(!new), R(!new), T(!new)>(
    m: Machine<C, R, T>, rules: seq<R>, i: nat, context: C, rows: seq<T>, pass: T -> RowRun<T>)
    requires WellPlaced(m) && i < |rules| && !SomeFails(Runner(m, rules[..i], context), rows)
    requires forall row :: m.step(ContextAfter(m, rules[..i], context), rules[i], row) == pass(row)
    ensures var run, next := Runner(m, rules[..i], context), Runner(m, rules[..i + 1], context);
      var kept := KeptRows(run, rows);
      && KeptRows(next, rows) == KeptRows(pass, kept)
      && Records(next, rows) == Records(run, rows) + Records(pass, kept)
      && Tally(next, rows) == Tally(run, rows) + Tally(pass, kept)
      && (SomeFails(next, rows) <==> SomeFails(pass, kept))
      && (SomeFails(pass, kept) ==> FirstFailure(Runner(m, rules, context), rows, i))
    ensures ContextAfter(m, rules[..i + 1], context)
         == m.advance(ContextAfter(m, rules[..i], context), rules[i])
  {
    var kept := KeptRows(Runner(m, rules[..i], context), rows);
    var step := StepRunner(m, ContextAfter(m, rules[..i], context), rules[i]);
    OneMoreRule(m, rules, i, context, rows);
    SameRuns(step, pass, kept);
    assert forall row :: step(row) == pass(row);
    if SomeFails(pass, kept) {
      PrefixFailure(m, rules, i + 1, context, rows, i);
    }
  }
}
