/**
 The expressions a rule compiles to: for a transform the new value, the test that finds invalid rows, and
 the untouched source; for a quality rule the failure test.
 */
module RuleExpressions {
  import opened Wrappers
  import opened Expressions
  import Text

  datatype Bound = Absent | NotNumeric | Limit(n: Number)

  datatype Parameters = Parameters(
    targetType: string,
    value: Cell,
    path: string,
    policy: string,
    format: string,
    minimum: Bound,
    maximum: Bound,
    inclusive: bool,
    pattern: string,
    patternCompiles: bool,
    values: seq<string>)

  datatype Operation =
    | NullGuard | DefaultValue | LowercaseTrim | JsonExtract | MaskDigits | ParseTimestamp
    | PlainCast | PlainCopy | Rename | SqlExpression
    | NotNull | InRange | MatchesRegex | AcceptedValues
    | OtherOperation(name: string)

  datatype Rule = Rule(
    id: string,
    kind: string,
    enabled: bool,
    operation: Operation,
    inputColumns: seq<string>,
    outputColumns: seq<string>,
    onError: string,
    failureDisposition: string,
    outputType: string,
    parameters: Parameters)

  datatype Action = FailBatch | Quarantine | DropRow | SetNull | Keep

  /** `onError` wins over `failureDisposition`; anything unknown keeps the row. */
  function FailureAction(rule: Rule): Action {
    if rule.onError == "fail_batch" then FailBatch
    else if rule.onError == "quarantine" then Quarantine
    else if rule.failureDisposition == "drop_row" then DropRow
    else if rule.failureDisposition == "set_null" then SetNull
    else Keep
  }

  function First(values: seq<string>): string {
    if values == [] then "" else values[0]
  }

  function FirstOf(preferred: seq<string>, fallback: seq<string>): string {
    if First(preferred) != "" then First(preferred) else First(fallback)
  }

  function OutputName(rule: Rule): string {
    Text.NormalizeName(FirstOf(rule.outputColumns, rule.inputColumns))
  }

  /** The exact name if the frame has it, else the normalized one, else "". */
  function ResolveColumn(columns: seq<string>, name: string): string {
    if name in columns then name
    else if Text.NormalizeName(name) in columns then Text.NormalizeName(name)
    else ""
  }

  function ColumnOrNull(resolved: string): Expr {
    if resolved != "" then Col(resolved) else Lit(Null)
  }

  const INTEGER_PATTERN := "^[+-]?\\d+$"
  const NUMBER_PATTERN := "^[+-]?(?:\\d+(?:\\.\\d*)?|\\.\\d+)(?:[eE][+-]?\\d+)?$"

  function IsMissing(e: Expr): Expr {
    Or(IsNull(e), IsEmpty(Trim(CastString(e))))
  }

  datatype Cast = Cast(expression: Expr, invalid: Expr)

  function CheckedCast(source: Expr, expression: Expr): Cast {
    Cast(expression, And(Not(IsMissing(source)), IsNull(expression)))
  }

  function PatternCast(source: Expr, pattern: string, converted: Expr): Cast {
    var valid := RLike(Trim(CastString(source)), pattern);
    var expression := When(valid, converted, Lit(Null));
    Cast(expression, And(Not(IsMissing(source)), Or(Not(valid), IsNull(expression))))
  }

  function CastColumn(source: Expr, targetType: string): Cast {
    var normalized := Text.Lower(Text.Strip(targetType));
    var text := Trim(CastString(source));
    if normalized == "" then Cast(source, Lit(FALSE))
    else if Text.Contains(normalized, "bool") then
      var lowered := Lower(text);
      CheckedCast(source,
        When(IsIn(lowered, ["true", "1", "yes", "y"]), Lit(TRUE),
          When(IsIn(lowered, ["false", "0", "no", "n"]), Lit(FALSE), Lit(Null))))
    else if Text.ContainsAny(normalized, ["integer", "int", "long", "bigint"]) then
      PatternCast(source, INTEGER_PATTERN, CastLong(text))
    else if Text.ContainsAny(normalized, ["float", "double", "decimal", "number", "numeric", "real"]) then
      PatternCast(source, NUMBER_PATTERN, CastDouble(text))
    else if Text.ContainsAny(normalized, ["timestamp", "datetime"]) then CheckedCast(source, ToTimestamp(text))
    else if normalized == "date" then CheckedCast(source, ToDate(text))
    else Cast(CastString(source), Lit(FALSE))
  }

  datatype Built = Built(expression: Expr, invalid: Expr, reason: string, source: Expr)

  function TransformExpression(columns: seq<string>, rule: Rule): Built {
    var source := ColumnOrNull(ResolveColumn(columns, First(rule.inputColumns)));
    var p := rule.parameters;
    var outputType := if rule.outputType != "" then rule.outputType else p.targetType;
    var missing := IsMissing(source);
    match rule.operation
    case NullGuard =>
      var c := CastColumn(source, outputType);
      Built(c.expression, Or(missing, c.invalid), "missing_required_value", source)
    case DefaultValue =>
      var c := CastColumn(When(missing, Lit(p.value), source), outputType);
      Built(c.expression, c.invalid, "default_value_cast_failed", source)
    case LowercaseTrim =>
      Built(Lower(Trim(CastString(source))), Lit(FALSE), "", source)
    case JsonExtract =>
      var expression := JsonObject(JsonText(source), if p.path != "" then p.path else "$");
      Built(expression, IsNull(expression), "json_path_not_found", source)
    case MaskDigits =>
      if Text.Lower(Text.Strip(p.policy)) !in ["phone", "keep first 3 digits"]
      then Built(source, Lit(TRUE), "unsupported_mask_policy", source)
      else Built(MaskPhone(CastString(source)), Lit(FALSE), "", source)
    case ParseTimestamp =>
      if Text.Upper(Text.Strip(p.format)) !in ["ISO-8601", "UTC"]
      then Built(source, Lit(TRUE), "unsupported_timestamp_format", source)
      else
        var c := CheckedCast(source, ToTimestamp(CastString(source)));
        Built(c.expression, c.invalid, "timestamp_cast_failed", source)
    case PlainCast | PlainCopy | Rename =>
      var c := CastColumn(source, outputType);
      Built(c.expression, c.invalid, "cast_failed", source)
    case _ => Built(source, Lit(TRUE), "unsupported_transform_operation", source)
  }

  datatype Check = Check(failure: Expr, reason: string)

  function BelowMinimum(numeric: Expr, bound: Bound, inclusive: bool): Expr
    requires bound.Limit?
  {
    var limit := Lit(Value(Double(bound.n)));
    if inclusive then Less(numeric, limit) else LessEqual(numeric, limit)
  }

  function AboveMaximum(numeric: Expr, bound: Bound, inclusive: bool): Expr
    requires bound.Limit?
  {
    var limit := Lit(Value(Double(bound.n)));
    if inclusive then Less(limit, numeric) else LessEqual(limit, numeric)
  }

  function RangeCheck(value: Expr, p: Parameters): Check {
    var text := Trim(CastString(value));
    var numeric := When(RLike(text, NUMBER_PATTERN), CastDouble(text), Lit(Null));
    if p.minimum.Absent? && p.maximum.Absent? then Check(Lit(TRUE), "range_bounds_missing")
    else if p.minimum.NotNumeric? || p.maximum.NotNumeric? then Check(Lit(TRUE), "numeric_range_check_failed")
    else
      var low := if p.minimum.Absent? then IsNull(numeric)
                 else Or(IsNull(numeric), BelowMinimum(numeric, p.minimum, p.inclusive));
      var both := if p.maximum.Absent? then low
                  else Or(low, AboveMaximum(numeric, p.maximum, p.inclusive));
      Check(both, "numeric_range_check_failed")
  }

  function QualityCheck(columns: seq<string>, rule: Rule): Check {
    var value := ColumnOrNull(ResolveColumn(columns, First(rule.inputColumns)));
    var p := rule.parameters;
    match rule.operation
    case NotNull => Check(IsMissing(value), "missing_required_value")
    case InRange => RangeCheck(value, p)
    case MatchesRegex =>
      if p.pattern == "" then Check(Lit(TRUE), "regex_pattern_missing")
      else if !p.patternCompiles then Check(Lit(TRUE), "invalid_regex_pattern")
      else Check(Or(IsNull(value), Not(RLike(CastString(value), p.pattern))), "regex_match_failed")
    case AcceptedValues =>
      if p.values == [] then Check(Lit(TRUE), "accepted_values_missing")
      else Check(Or(IsNull(value), Not(IsIn(CastString(value), p.values))), "value_not_accepted")
    case _ => Check(Lit(TRUE), "unsupported_quality_operation")
  }

  // ----- Three-valued totality: no failure test is ever NULL -----

  lemma {:induction false} MissingIsBool(engine: Engine, e: Expr, cells: Cells)
    ensures IsBool(Eval(engine, IsMissing(e), cells))
    ensures Eval(engine, IsMissing(e), cells) == FALSE ==> TextOf(Eval(engine, Trim(CastString(e)), cells)).Some?
    ensures Eval(engine, e, cells).Null? ==> Eval(engine, IsMissing(e), cells) == TRUE
  {
    var text := CastString(e);
    assert Eval(engine, text, cells) == AsText(engine, Eval(engine, e, cells));
    assert Eval(engine, Trim(text), cells) == Mapped(TextOf(Eval(engine, text, cells)), engine.trim);
    assert Eval(engine, IsEmpty(Trim(text)), cells) == EmptyCell(TextOf(Eval(engine, Trim(text), cells)));
  }

  /** A cast condition of the form "not missing, and ..." is boolean as soon as its tail is so on present values. */
  lemma {:induction false} GuardedIsBool(engine: Engine, e: Expr, tail: Expr, cells: Cells)
    requires Eval(engine, IsMissing(e), cells) == FALSE ==> IsBool(Eval(engine, tail, cells))
    ensures IsBool(Eval(engine, And(Not(IsMissing(e)), tail), cells))
  {
    MissingIsBool(engine, e, cells);
    assert Eval(engine, Not(IsMissing(e)), cells) == Not3(Eval(engine, IsMissing(e), cells));
  }

  lemma {:induction false} PatternCastIsBool(
    engine: Engine, source: Expr, pattern: string, converted: Expr, cells: Cells)
    ensures IsBool(Eval(engine, PatternCast(source, pattern, converted).invalid, cells))
  {
    var text := Trim(CastString(source));
    var valid := RLike(text, pattern);
    var expression := When(valid, converted, Lit(Null));
    MissingIsBool(engine, source, cells);
    assert Eval(engine, Not(valid), cells) == Not3(Eval(engine, valid, cells));
    assert Eval(engine, valid, cells) == MatchCell(engine, TextOf(Eval(engine, text, cells)), pattern);
    assert IsBool(Eval(engine, IsNull(expression), cells));
    GuardedIsBool(engine, source, Or(Not(valid), IsNull(expression)), cells);
  }

  lemma {:induction false} CastInvalidIsBool(engine: Engine, source: Expr, targetType: string, cells: Cells)
    ensures IsBool(Eval(engine, CastColumn(source, targetType).invalid, cells))
  {
    var text := Trim(CastString(source));
    var c := CastColumn(source, targetType);
    if c == PatternCast(source, INTEGER_PATTERN, CastLong(text)) {
      PatternCastIsBool(engine, source, INTEGER_PATTERN, CastLong(text), cells);
    } else if c == PatternCast(source, NUMBER_PATTERN, CastDouble(text)) {
      PatternCastIsBool(engine, source, NUMBER_PATTERN, CastDouble(text), cells);
    } else if c.invalid != Lit(FALSE) {
      GuardedIsBool(engine, source, IsNull(c.expression), cells);
    }
  }

  lemma {:induction false} OrIsBool(engine: Engine, a: Expr, b: Expr, cells: Cells)
    requires IsBool(Eval(engine, a, cells)) && IsBool(Eval(engine, b, cells))
    ensures IsBool(Eval(engine, Or(a, b), cells))
  {
  }

  lemma {:induction false} NullTestIsBool(engine: Engine, e: Expr, cells: Cells)
    ensures IsBool(Eval(engine, IsNull(e), cells))
  {
  }

  /** For every operation, parameter and row, the invalid test of a transform is true or false. */
  lemma {:induction false} TransformInvalidIsBool(engine: Engine, columns: seq<string>, rule: Rule, cells: Cells)
    ensures IsBool(Eval(engine, TransformExpression(columns, rule).invalid, cells))
  {
    var source := ColumnOrNull(ResolveColumn(columns, First(rule.inputColumns)));
    var p := rule.parameters;
    var outputType := if rule.outputType != "" then rule.outputType else p.targetType;
    match rule.operation {
      case NullGuard =>
        MissingIsBool(engine, source, cells);
        CastInvalidIsBool(engine, source, outputType, cells);
        OrIsBool(engine, IsMissing(source), CastColumn(source, outputType).invalid, cells);
      case DefaultValue =>
        CastInvalidIsBool(engine, When(IsMissing(source), Lit(p.value), source), outputType, cells);
      case JsonExtract =>
        NullTestIsBool(engine, JsonObject(JsonText(source), if p.path != "" then p.path else "$"), cells);
      case ParseTimestamp =>
        GuardedIsBool(engine, source, IsNull(ToTimestamp(CastString(source))), cells);
      case PlainCast | PlainCopy | Rename =>
        CastInvalidIsBool(engine, source, outputType, cells);
      case _ =>
    }
  }

  /** A test that is already true on NULL may be or-ed with anything that is boolean on present values. */
  lemma {:induction false} NullOrTailIsBool(engine: Engine, e: Expr, head: Expr, tail: Expr, cells: Cells)
    requires IsBool(Eval(engine, head, cells))
    requires Eval(engine, e, cells).Null? ==> Eval(engine, head, cells) == TRUE
    requires Eval(engine, e, cells).Value? ==> IsBool(Eval(engine, tail, cells))
    ensures IsBool(Eval(engine, Or(head, tail), cells))
    ensures Eval(engine, e, cells).Null? ==> Eval(engine, Or(head, tail), cells) == TRUE
  {
  }

  lemma {:induction false} RangeFailureIsBool(engine: Engine, value: Expr, p: Parameters, cells: Cells)
    ensures IsBool(Eval(engine, RangeCheck(value, p).failure, cells))
  {
    var text := Trim(CastString(value));
    var numeric := When(RLike(text, NUMBER_PATTERN), CastDouble(text), Lit(Null));
    assert Eval(engine, CastDouble(text), cells) == DoubleCell(engine, TextOf(Eval(engine, text, cells)));
    assert Eval(engine, numeric, cells).Value? ==> Eval(engine, numeric, cells).v.Double?;
    if !p.minimum.NotNumeric? && !p.maximum.NotNumeric? {
      var low := IsNull(numeric);
      if p.minimum.Limit? {
        var below := BelowMinimum(numeric, p.minimum, p.inclusive);
        NullOrTailIsBool(engine, numeric, low, below, cells);
        low := Or(low, below);
      }
      if p.maximum.Limit? {
        NullOrTailIsBool(engine, numeric, low, AboveMaximum(numeric, p.maximum, p.inclusive), cells);
      }
    }
  }

  lemma {:induction false} MatchFailureIsBool(engine: Engine, value: Expr, test: Expr, cells: Cells)
    requires test.RLike? || test.IsIn?
    requires test.e == CastString(value)
    ensures IsBool(Eval(engine, Or(IsNull(value), Not(test)), cells))
  {
    var text := CastString(value);
    assert Eval(engine, text, cells) == AsText(engine, Eval(engine, value, cells));
    assert Eval(engine, Not(test), cells) == Not3(Eval(engine, test, cells));
    NullOrTailIsBool(engine, value, IsNull(value), Not(test), cells);
  }

  /** For every operation, parameter and row, the failure test of a quality rule is true or false. */
  lemma {:induction false} QualityFailureIsBool(engine: Engine, columns: seq<string>, rule: Rule, cells: Cells)
    ensures IsBool(Eval(engine, QualityCheck(columns, rule).failure, cells))
  {
    var value := ColumnOrNull(ResolveColumn(columns, First(rule.inputColumns)));
    var p := rule.parameters;
    MissingIsBool(engine, value, cells);
    RangeFailureIsBool(engine, value, p, cells);
    MatchFailureIsBool(engine, value, RLike(CastString(value), p.pattern), cells);
    MatchFailureIsBool(engine, value, IsIn(CastString(value), p.values), cells);
  }
}
