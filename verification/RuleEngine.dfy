/**
 The rule engine runs the rules one whole-frame pass per rule. It is proved to give, for every frame and rule
 list, what the rows of the frame give one at a time.
 */
module RuleEngine {
  import opened Wrappers
  import opened Expressions
  import opened RuleExpressions
  import opened RowRuns
  import opened SnapshotRules
  import opened TransformPasses
  import opened QualityPasses
  import opened PlainRules

  /**
   The rule engine: whole-frame passes, one per rule. On every frame and rule list it returns, or raises,
   what the rows of the frame give one at a time, and that is what the rules say in plain terms.
   */
  method ApplySnapshotRules(engine: Engine, frame: Frame, rules: seq<Rule>, inputRowCount: Option<nat>)
    returns (r: Execution)
    requires inputRowCount.Some? ==> inputRowCount.value == |frame.rows|
    ensures RowByRow(engine, frame, rules, r)
    ensures Plain(engine, frame, rules, r)
    ensures r.Done? ==> (r.quarantine.None? <==> Contents(r.quarantine) == multiset{})
  {
    var transforms := Enabled(rules, "transform");
    var qualityRules := Enabled(rules, "quality");
    var stopped, current, currentRowCount, quarantine, transform :=
      ApplyTransforms(engine, frame, transforms, |qualityRules|, inputRowCount);
    if stopped.Some? {
      r := stopped.value;
    } else {
      r := ApplyQuality(engine, current, qualityRules, currentRowCount, quarantine, transform);
    }
    ExecutionMeans(engine, frame, rules, r);
  }
}
