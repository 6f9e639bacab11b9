/**
 What rules mean, said of the cells of a row and of nothing a rule compiles to: which values a quality rule fails,
 what a transform makes of a value and when it finds it invalid, what becomes of the row, and what a quarantined
 row leaves. The compiled rules are proved to mean this, and so is every execution.
 */
module RuleMeanings {
  import opened Wrappers
  import opened Expressions
  import opened RuleExpressions
  import opened RowRuns
  import opened SnapshotRules
  import Text

  // ----- Cells and their texts -----

  function Held(cells: Cells, name: string): Cell {
    if name in cells then cells[name] else Null
  }

  /** The column a name stands for: itself, or its normalized form; none if the frame has neither. */
  function ColumnFor(columns: seq<string>, name: string): Option<string> {
    if name == "" then None
    else if name in columns then Some(name)
    else if Text.NormalizeName(name) in columns && Text.NormalizeName(name) != "" then Some(Text.NormalizeName(name))
    else None
  }

  function Named(columns: seq<string>, name: string, cells: Cells): Cell {
    match ColumnFor(columns, name)
    case Some(column) => Held(cells, column)
    case None => Null
  }

  function HeadOf(names: seq<string>): string {
    if names == [] then "" else names[0]
  }

  /** The cell a rule reads. */
  function Input(columns: seq<string>, rule: Rule, cells: Cells): Cell {
    Named(columns, HeadOf(rule.inputColumns), cells)
  }

  /** A value as text; None for NULL. */
  function Shown(engine: Engine, c: Cell): Option<string> {
    match c
    case Null => None
    case Value(Text(s)) => Some(s)
    case Value(v) => Some(engine.render(v))
  }

  function Trimmed(engine: Engine, c: Cell): Option<string> {
    match Shown(engine, c)
    case Some(s) => Some(engine.trim(s))
    case None => None
  }

  /** NULL, or blank. */
  predicate Missing(engine: Engine, c: Cell) {
    c == Null || Trimmed(engine, c) == Some("")
  }

  /** A sign or none, then digits, and nothing else. */
  predicate WrittenAsInteger(engine: Engine, s: string) {
    engine.matches(s, "^[+-]?\\d+$")
  }

  /** A sign or none, then digits with a point or none among them, then an exponent or none, and nothing else. */
  predicate WrittenAsNumber(engine: Engine, s: string) {
    engine.matches(s, "^[+-]?(?:\\d+(?:\\.\\d*)?|\\.\\d+)(?:[eE][+-]?\\d+)?$")
  }

  /** The number a value reads as, if it is written like one. */
  function Numeric(engine: Engine, c: Cell): Option<Number> {
    match Trimmed(engine, c)
    case Some(s) => if WrittenAsNumber(engine, s) then engine.toDouble(s) else None
    case None => None
  }

  // ----- Quality rules -----

  predicate TooLow(n: Number, bound: Bound, inclusive: bool) {
    bound.Limit? && (NumberLess(n, bound.n) || (!inclusive && n == bound.n))
  }

  predicate TooHigh(n: Number, bound: Bound, inclusive: bool) {
    bound.Limit? && (NumberLess(bound.n, n) || (!inclusive && n == bound.n))
  }

  /** The value fails the range: no bound is given, one is no number, the value is none, or it is outside. */
  predicate OutOfRange(engine: Engine, p: Parameters, c: Cell) {
    var n := Numeric(engine, c);
    || (p.minimum.Absent? && p.maximum.Absent?)
    || p.minimum.NotNumeric? || p.maximum.NotNumeric?
    || n.None?
    || TooLow(n.value, p.minimum, p.inclusive)
    || TooHigh(n.value, p.maximum, p.inclusive)
  }

  /** The row fails the quality rule. */
  predicate Fails(engine: Engine, columns: seq<string>, rule: Rule, cells: Cells) {
    var c, p := Input(columns, rule, cells), rule.parameters;
    match rule.operation
    case NotNull => Missing(engine, c)
    case InRange => OutOfRange(engine, p, c)
    case MatchesRegex =>
      p.pattern == "" || !p.patternCompiles || c == Null || !engine.matches(Shown(engine, c).value, p.pattern)
    case AcceptedValues => p.values == [] || c == Null || Shown(engine, c).value !in p.values
    case _ => true
  }

  function QualityReason(rule: Rule): string {
    var p := rule.parameters;
    match rule.operation
    case NotNull => "missing_required_value"
    case InRange =>
      if p.minimum.Absent? && p.maximum.Absent? then "range_bounds_missing" else "numeric_range_check_failed"
    case MatchesRegex =>
      if p.pattern == "" then "regex_pattern_missing"
      else if !p.patternCompiles then "invalid_regex_pattern"
      else "regex_match_failed"
    case AcceptedValues => if p.values == [] then "accepted_values_missing" else "value_not_accepted"
    case _ => "unsupported_quality_operation"
  }

  lemma ColumnResolved(columns: seq<string>, name: string)
    ensures ResolveColumn(columns, name) == (match ColumnFor(columns, name) case Some(column) => column case None => "")
    ensures ColumnFor(columns, name) != Some("")
  {
    if name == "" {
      assert Text.NormalizeName("") == "" by {
        assert Text.Strip("") == "" && Text.Lower("") == "";
      }
    }
  }

  lemma SourceIs(engine: Engine, columns: seq<string>, name: string, cells: Cells)
    ensures Eval(engine, ColumnOrNull(ResolveColumn(columns, name)), cells) == Named(columns, name, cells)
  {
    ColumnResolved(columns, name);
  }

  lemma TextIs(engine: Engine, e: Expr, cells: Cells)
    ensures var c := Eval(engine, e, cells);
      && TextOf(Eval(engine, CastString(e), cells)) == Shown(engine, c)
      && TextOf(Eval(engine, Trim(CastString(e)), cells)) == Trimmed(engine, c)
      && Eval(engine, CastString(e), cells)
         == (match Shown(engine, c) case Some(s) => Value(Text(s)) case None => Null)
  {
    var c := Eval(engine, e, cells);
    assert Eval(engine, CastString(e), cells) == AsText(engine, c);
    assert Eval(engine, Trim(CastString(e)), cells) == Mapped(TextOf(AsText(engine, c)), engine.trim);
  }

  lemma MissingIs(engine: Engine, e: Expr, cells: Cells)
    ensures Eval(engine, IsMissing(e), cells) == Truth(Missing(engine, Eval(engine, e, cells)))
  {
    TextIs(engine, e, cells);
    var text := Trim(CastString(e));
    assert Eval(engine, IsEmpty(text), cells) == EmptyCell(TextOf(Eval(engine, text, cells)));
    assert Eval(engine, IsNull(e), cells) == Truth(Eval(engine, e, cells).Null?);
    assert Eval(engine, IsMissing(e), cells) == Or3(Eval(engine, IsNull(e), cells), Eval(engine, IsEmpty(text), cells));
  }

  lemma NumericIs(engine: Engine, e: Expr, cells: Cells)
    ensures var text := Trim(CastString(e));
      Eval(engine, When(RLike(text, NUMBER_PATTERN), CastDouble(text), Lit(Null)), cells)
      == match Numeric(engine, Eval(engine, e, cells))
         case Some(n) => Value(Double(n))
         case None => Null
  {
    var text := Trim(CastString(e));
    TextIs(engine, e, cells);
    assert Eval(engine, RLike(text, NUMBER_PATTERN), cells)
      == MatchCell(engine, TextOf(Eval(engine, text, cells)), NUMBER_PATTERN);
    assert Eval(engine, CastDouble(text), cells) == DoubleCell(engine, TextOf(Eval(engine, text, cells)));
  }

  lemma OrHolds(engine: Engine, l: Expr, r: Expr, cells: Cells)
    ensures Holds(engine, Or(l, r), cells) <==> Holds(engine, l, cells) || Holds(engine, r, cells)
  {
    assert Eval(engine, Or(l, r), cells) == Or3(Eval(engine, l, cells), Eval(engine, r, cells));
  }

  lemma AndHolds(engine: Engine, l: Expr, r: Expr, cells: Cells)
    ensures Holds(engine, And(l, r), cells) <==> Holds(engine, l, cells) && Holds(engine, r, cells)
  {
    assert Eval(engine, And(l, r), cells) == And3(Eval(engine, l, cells), Eval(engine, r, cells));
  }

  lemma NotHolds(engine: Engine, e: Expr, cells: Cells)
    ensures Holds(engine, Not(e), cells) <==> Eval(engine, e, cells) == FALSE
  {
    assert Eval(engine, Not(e), cells) == Not3(Eval(engine, e, cells));
  }

  lemma NullHolds(engine: Engine, e: Expr, cells: Cells)
    ensures Holds(engine, IsNull(e), cells) <==> Eval(engine, e, cells).Null?
  {
    assert Eval(engine, IsNull(e), cells) == Truth(Eval(engine, e, cells).Null?);
  }

  lemma RangeIs(engine: Engine, e: Expr, p: Parameters, cells: Cells)
    ensures Holds(engine, RangeCheck(e, p).failure, cells) <==> OutOfRange(engine, p, Eval(engine, e, cells))
  {
    if (p.minimum.Absent? && p.maximum.Absent?) || p.minimum.NotNumeric? || p.maximum.NotNumeric? {
      assert Eval(engine, Lit(TRUE), cells) == TRUE;
    } else {
      var text := Trim(CastString(e));
      var numeric := When(RLike(text, NUMBER_PATTERN), CastDouble(text), Lit(Null));
      var n := Numeric(engine, Eval(engine, e, cells));
      NumericIs(engine, e, cells);
      hide Eval, Holds, Numeric, BelowMinimum, AboveMaximum;
      NullHolds(engine, numeric, cells);
      var low := IsNull(numeric);
      if p.minimum.Limit? {
        BoundIs(engine, numeric, n, p.minimum, p.inclusive, cells);
        OrHolds(engine, low, BelowMinimum(numeric, p.minimum, p.inclusive), cells);
        low := Or(low, BelowMinimum(numeric, p.minimum, p.inclusive));
      }
      if p.maximum.Limit? {
        BoundIs(engine, numeric, n, p.maximum, p.inclusive, cells);
        OrHolds(engine, low, AboveMaximum(numeric, p.maximum, p.inclusive), cells);
      }
    }
  }

  lemma BoundIs(engine: Engine, numeric: Expr, n: Option<Number>, bound: Bound, inclusive: bool, cells: Cells)
    requires bound.Limit?
    requires Eval(engine, numeric, cells) == (match n case Some(x) => Value(Double(x)) case None => Null)
    ensures Holds(engine, BelowMinimum(numeric, bound, inclusive), cells)
       <==> n.Some? && TooLow(n.value, bound, inclusive)
    ensures Holds(engine, AboveMaximum(numeric, bound, inclusive), cells)
       <==> n.Some? && TooHigh(n.value, bound, inclusive)
  {
    var limit := Lit(Value(Double(bound.n)));
    assert Eval(engine, limit, cells) == Value(Double(bound.n));
    hide Eval, Holds;
    LessIs(engine, numeric, limit, cells);
    LessIs(engine, limit, numeric, cells);
  }

  lemma LessIs(engine: Engine, l: Expr, r: Expr, cells: Cells)
    requires forall c :: c in {Eval(engine, l, cells), Eval(engine, r, cells)} ==> c.Null? || c.v.Double?
    ensures var a, b := Eval(engine, l, cells), Eval(engine, r, cells);
      && (Holds(engine, Less(l, r), cells) <==> a.Value? && b.Value? && NumberLess(a.v.d, b.v.d))
      && (Holds(engine, LessEqual(l, r), cells) <==> a.Value? && b.Value? && (NumberLess(a.v.d, b.v.d) || a == b))
  {
    assert Eval(engine, Less(l, r), cells) == Less3(Eval(engine, l, cells), Eval(engine, r, cells), false);
    assert Eval(engine, LessEqual(l, r), cells) == Less3(Eval(engine, l, cells), Eval(engine, r, cells), true);
  }

  /** A quality rule's compiled failure test holds of a row exactly if the row fails the rule. */
  lemma QualityMeans(engine: Engine, columns: seq<string>, rule: Rule, cells: Cells)
    ensures Holds(engine, QualityCheck(columns, rule).failure, cells) <==> Fails(engine, columns, rule, cells)
    ensures QualityCheck(columns, rule).reason == QualityReason(rule)
  {
    var value, p := ColumnOrNull(ResolveColumn(columns, First(rule.inputColumns))), rule.parameters;
    SourceIs(engine, columns, First(rule.inputColumns), cells);
    assert Eval(engine, Lit(TRUE), cells) == TRUE;
    MissingIs(engine, value, cells);
    hide Eval, ResolveColumn, ColumnOrNull, RangeCheck, IsMissing, OutOfRange, Named;
    match rule.operation {
      case NotNull =>
      case InRange => RangeIs(engine, value, p, cells);
      case MatchesRegex =>
        TextIs(engine, value, cells);
        TestIs(engine, value, RLike(CastString(value), p.pattern), cells);
      case AcceptedValues =>
        TextIs(engine, value, cells);
        TestIs(engine, value, IsIn(CastString(value), p.values), cells);
      case _ =>
    }
  }

  lemma TestIs(engine: Engine, value: Expr, test: Expr, cells: Cells)
    requires (test.RLike? || test.IsIn?) && test.e == CastString(value)
    ensures Holds(engine, Or(IsNull(value), Not(test)), cells) <==>
      match Shown(engine, Eval(engine, value, cells))
      case None => true
      case Some(s) => if test.RLike? then !engine.matches(s, test.pattern) else s !in test.values
  {
    TextIs(engine, value, cells);
    var text := CastString(value);
    assert Eval(engine, Not(test), cells) == Not3(Eval(engine, test, cells));
    assert Eval(engine, test, cells)
      == if test.RLike? then MatchCell(engine, TextOf(Eval(engine, text, cells)), test.pattern)
         else MemberCell(TextOf(Eval(engine, text, cells)), test.values);
    assert Eval(engine, IsNull(value), cells) == Truth(Eval(engine, value, cells).Null?);
  }

  // ----- Transforms -----

  /** What a value becomes, and whether the row is invalid for it. */
  datatype Meaning = Meaning(value: Cell, invalid: bool)

  /** A value that must be present if the old one is. */
  function Checked(engine: Engine, source: Cell, value: Cell): Meaning {
    Meaning(value, !Missing(engine, source) && value == Null)
  }

  function Truthful(lowered: string): Cell {
    if lowered in ["true", "1", "yes", "y"] then TRUE
    else if lowered in ["false", "0", "no", "n"] then FALSE
    else Null
  }

  function Integral(engine: Engine, text: string): Cell {
    match engine.toLong(text)
    case Some(n) => if WrittenAsInteger(engine, text) then Value(Long(n)) else Null
    case None => Null
  }

  function Fractional(engine: Engine, text: string): Cell {
    match engine.toDouble(text)
    case Some(n) => if WrittenAsNumber(engine, text) then Value(Double(n)) else Null
    case None => Null
  }

  datatype Kind = Unchanged | Boolean | Whole | Decimal | Moment | Calendar | Textual

  /** The kind of value a type name asks for; the first that fits. */
  function KindOf(targetType: string): Kind {
    var t := Text.Lower(Text.Strip(targetType));
    if t == "" then Unchanged
    else if Text.Contains(t, "bool") then Boolean
    else if Text.Contains(t, "int") || Text.Contains(t, "long") then Whole
    else if || Text.Contains(t, "float") || Text.Contains(t, "double") || Text.Contains(t, "decimal")
            || Text.Contains(t, "number") || Text.Contains(t, "numeric") || Text.Contains(t, "real") then Decimal
    else if Text.Contains(t, "timestamp") || Text.Contains(t, "datetime") then Moment
    else if t == "date" then Calendar
    else Textual
  }

  function Converted(engine: Engine, kind: Kind, c: Cell): Meaning {
    match Trimmed(engine, c)
    case None => Meaning(Null, false)
    case Some(text) =>
      match kind
      case Unchanged => Meaning(c, false)
      case Textual => Meaning(Value(Datum.Text(Shown(engine, c).value)), false)
      case Boolean => Checked(engine, c, Truthful(engine.lower(text)))
      case Whole => Checked(engine, c, Integral(engine, text))
      case Decimal => Checked(engine, c, Fractional(engine, text))
      case Moment => Checked(engine, c, engine.toTimestamp(text))
      case Calendar => Checked(engine, c, engine.toDate(text))
  }

  /** A text function applied to a value as text; NULL stays NULL. */
  function OnText(engine: Engine, c: Cell, f: string -> Cell): Cell {
    match Shown(engine, c)
    case Some(s) => f(s)
    case None => Null
  }

  /** The JSON text of a value: nested values are written out. */
  function AsJson(engine: Engine, c: Cell): Option<string> {
    if c.Value? && c.v.Nested? then Some(engine.toJson(c.v.json)) else Shown(engine, c)
  }

  function TargetKind(rule: Rule): Kind {
    KindOf(if rule.outputType != "" then rule.outputType else rule.parameters.targetType)
  }

  function Transformed(engine: Engine, columns: seq<string>, rule: Rule, cells: Cells): Meaning {
    var c, p := Input(columns, rule, cells), rule.parameters;
    match rule.operation
    case NullGuard =>
      var m := Converted(engine, TargetKind(rule), c);
      Meaning(m.value, Missing(engine, c) || m.invalid)
    case DefaultValue => Converted(engine, TargetKind(rule), if Missing(engine, c) then p.value else c)
    case LowercaseTrim => Meaning(OnText(engine, c, s => Value(Datum.Text(engine.lower(engine.trim(s))))), false)
    case JsonExtract =>
      var found := match AsJson(engine, c)
        case Some(json) => engine.jsonObject(json, if p.path == "" then "$" else p.path)
        case None => Null;
      Meaning(found, found == Null)
    case MaskDigits =>
      if Text.Lower(Text.Strip(p.policy)) == "phone" || Text.Lower(Text.Strip(p.policy)) == "keep first 3 digits"
      then Meaning(OnText(engine, c, s => Value(Datum.Text(engine.maskPhone(s)))), false)
      else Meaning(c, true)
    case ParseTimestamp =>
      if Text.Upper(Text.Strip(p.format)) == "ISO-8601" || Text.Upper(Text.Strip(p.format)) == "UTC"
      then Checked(engine, c, OnText(engine, c, engine.toTimestamp))
      else Meaning(c, true)
    case PlainCast | PlainCopy | Rename => Converted(engine, TargetKind(rule), c)
    case _ => Meaning(c, true)
  }

  function ReasonFor(rule: Rule): string {
    match rule.operation
    case NullGuard => "missing_required_value"
    case DefaultValue => "default_value_cast_failed"
    case LowercaseTrim => ""
    case JsonExtract => "json_path_not_found"
    case MaskDigits =>
      if Text.Lower(Text.Strip(rule.parameters.policy)) in ["phone", "keep first 3 digits"] then ""
      else "unsupported_mask_policy"
    case ParseTimestamp =>
      if Text.Upper(Text.Strip(rule.parameters.format)) in ["ISO-8601", "UTC"] then "timestamp_cast_failed"
      else "unsupported_timestamp_format"
    case PlainCast | PlainCopy | Rename => "cast_failed"
    case _ => "unsupported_transform_operation"
  }

  // ----- The compiled casts and transforms mean this -----

  lemma ContainsShorter(s: string)
    ensures Text.ContainsAny(s, ["integer", "int", "long", "bigint"]) <==>
            Text.Contains(s, "int") || Text.Contains(s, "long")
  {
    var names := ["integer", "int", "long", "bigint"];
    assert Text.Contains(s, "int") ==> Text.Contains(s, names[1]);
    assert Text.Contains(s, "long") ==> Text.Contains(s, names[2]);
    if i :| 0 <= i <= |s| && "integer" <= s[i..] {
      assert s[i..][..7] == "integer" && "integer"[..3] == "int";
      assert s[i..][..3] == "int";
    }
    if i :| 0 <= i <= |s| && "bigint" <= s[i..] {
      assert s[i..][..6] == "bigint" && s[i + 3..][..3] == s[i..][3..6] && "bigint"[3..6] == "int";
    }
  }

  lemma ContainsDecimal(s: string)
    ensures Text.ContainsAny(s, ["float", "double", "decimal", "number", "numeric", "real"]) <==>
      || Text.Contains(s, "float") || Text.Contains(s, "double") || Text.Contains(s, "decimal")
      || Text.Contains(s, "number") || Text.Contains(s, "numeric") || Text.Contains(s, "real")
  {
    var names := ["float", "double", "decimal", "number", "numeric", "real"];
    assert Text.Contains(s, "float") ==> Text.Contains(s, names[0]);
    assert Text.Contains(s, "double") ==> Text.Contains(s, names[1]);
    assert Text.Contains(s, "decimal") ==> Text.Contains(s, names[2]);
    assert Text.Contains(s, "number") ==> Text.Contains(s, names[3]);
    assert Text.Contains(s, "numeric") ==> Text.Contains(s, names[4]);
    assert Text.Contains(s, "real") ==> Text.Contains(s, names[5]);
  }

  lemma ContainsMoment(s: string)
    ensures Text.ContainsAny(s, ["timestamp", "datetime"]) <==>
            Text.Contains(s, "timestamp") || Text.Contains(s, "datetime")
  {
    var names := ["timestamp", "datetime"];
    assert Text.Contains(s, "timestamp") ==> Text.Contains(s, names[0]);
    assert Text.Contains(s, "datetime") ==> Text.Contains(s, names[1]);
  }

  /** An expression and a test mean a value and whether it is invalid. */
  predicate Means(engine: Engine, expression: Expr, invalid: Expr, cells: Cells, m: Meaning) {
    Eval(engine, expression, cells) == m.value && (Holds(engine, invalid, cells) <==> m.invalid)
  }

  lemma PresentHolds(engine: Engine, e: Expr, cells: Cells)
    ensures Holds(engine, Not(IsMissing(e)), cells) <==> !Missing(engine, Eval(engine, e, cells))
  {
    hide Eval, Holds, IsMissing, Missing;
    MissingIs(engine, e, cells);
    NotHolds(engine, IsMissing(e), cells);
  }

  lemma CheckedMeans(engine: Engine, source: Expr, expression: Expr, cells: Cells)
    ensures var c := CheckedCast(source, expression);
      Means(engine, c.expression, c.invalid, cells,
            Checked(engine, Eval(engine, source, cells), Eval(engine, expression, cells)))
  {
    hide Eval, Holds, IsMissing, Missing;
    PresentHolds(engine, source, cells);
    NullHolds(engine, expression, cells);
    AndHolds(engine, Not(IsMissing(source)), IsNull(expression), cells);
  }

  lemma MatchIs(engine: Engine, source: Expr, pattern: string, converted: Expr, cells: Cells)
    ensures var valid := RLike(Trim(CastString(source)), pattern);
      var text := Trimmed(engine, Eval(engine, source, cells));
      && Eval(engine, valid, cells) == (if text.None? then Null else Truth(engine.matches(text.value, pattern)))
      && Eval(engine, When(valid, converted, Lit(Null)), cells)
         == if Eval(engine, valid, cells) == TRUE then Eval(engine, converted, cells) else Null
  {
    var text := Trim(CastString(source));
    TextIs(engine, source, cells);
    assert Eval(engine, RLike(text, pattern), cells) == MatchCell(engine, TextOf(Eval(engine, text, cells)), pattern);
    assert Eval(engine, Lit(Null), cells) == Null;
  }

  /** A pattern that must match, and a conversion that must succeed. */
  lemma PatternMeans(engine: Engine, source: Expr, pattern: string, converted: Expr, cells: Cells)
    ensures var c, text := PatternCast(source, pattern, converted), Trimmed(engine, Eval(engine, source, cells));
      var value := if text.Some? && engine.matches(text.value, pattern) then Eval(engine, converted, cells) else Null;
      Means(engine, c.expression, c.invalid, cells, Checked(engine, Eval(engine, source, cells), value))
  {
    hide Eval, Holds, IsMissing, Missing, Trimmed;
    var valid := RLike(Trim(CastString(source)), pattern);
    var expression := When(valid, converted, Lit(Null));
    MatchIs(engine, source, pattern, converted, cells);
    PresentHolds(engine, source, cells);
    NotHolds(engine, valid, cells);
    NullHolds(engine, expression, cells);
    OrHolds(engine, Not(valid), IsNull(expression), cells);
    AndHolds(engine, Not(IsMissing(source)), Or(Not(valid), IsNull(expression)), cells);
  }

  // One step of the evaluation, for each conversion and text function.

  lemma LongIs(engine: Engine, e: Expr, cells: Cells)
    ensures Eval(engine, CastLong(e), cells) == LongCell(engine, TextOf(Eval(engine, e, cells)))
  {
    hide LongCell, TextOf;
  }

  lemma DoubleIs(engine: Engine, e: Expr, cells: Cells)
    ensures Eval(engine, CastDouble(e), cells) == DoubleCell(engine, TextOf(Eval(engine, e, cells)))
  {
    hide DoubleCell, TextOf;
  }

  lemma InstantIs(engine: Engine, e: Expr, cells: Cells)
    ensures Eval(engine, ToTimestamp(e), cells) == Parsed(TextOf(Eval(engine, e, cells)), engine.toTimestamp)
  {
    hide Parsed, TextOf;
  }

  lemma DayIs(engine: Engine, e: Expr, cells: Cells)
    ensures Eval(engine, ToDate(e), cells) == Parsed(TextOf(Eval(engine, e, cells)), engine.toDate)
  {
    hide Parsed, TextOf;
  }

  lemma LoweredIs(engine: Engine, e: Expr, cells: Cells)
    ensures Eval(engine, Lower(e), cells) == Mapped(TextOf(Eval(engine, e, cells)), engine.lower)
  {
    hide Mapped, TextOf;
  }

  lemma MaskedIs(engine: Engine, e: Expr, cells: Cells)
    ensures Eval(engine, MaskPhone(e), cells) == Mapped(TextOf(Eval(engine, e, cells)), engine.maskPhone)
  {
    hide Mapped, TextOf;
  }

  lemma WhenIs(engine: Engine, cond: Expr, chosen: Expr, other: Expr, cells: Cells)
    ensures Eval(engine, When(cond, chosen, other), cells)
         == if Holds(engine, cond, cells) then Eval(engine, chosen, cells) else Eval(engine, other, cells)
  {
  }

  lemma TextCasts(engine: Engine, source: Expr, cells: Cells)
    ensures var text, t := Trim(CastString(source)), Trimmed(engine, Eval(engine, source, cells));
      && Eval(engine, CastLong(text), cells)
         == (match t case Some(s) => (match engine.toLong(s) case Some(n) => Value(Long(n)) case None => Null)
                     case None => Null)
      && Eval(engine, CastDouble(text), cells)
         == (match t case Some(s) => (match engine.toDouble(s) case Some(n) => Value(Double(n)) case None => Null)
                     case None => Null)
      && Eval(engine, ToTimestamp(text), cells) == (match t case Some(s) => engine.toTimestamp(s) case None => Null)
      && Eval(engine, ToDate(text), cells) == (match t case Some(s) => engine.toDate(s) case None => Null)
  {
    hide Eval, Trimmed;
    TextIs(engine, source, cells);
    var text := Trim(CastString(source));
    LongIs(engine, text, cells);
    DoubleIs(engine, text, cells);
    InstantIs(engine, text, cells);
    DayIs(engine, text, cells);
  }

  lemma TruthCast(engine: Engine, source: Expr, cells: Cells)
    ensures Eval(engine, BooleanCast(Trim(CastString(source))), cells)
      == match Trimmed(engine, Eval(engine, source, cells))
         case Some(s) => Truthful(engine.lower(s))
         case None => Null
  {
    var text := Trim(CastString(source));
    TextIs(engine, source, cells);
    var t := TextOf(Eval(engine, text, cells));
    assert Eval(engine, Lower(text), cells) == Mapped(t, engine.lower);
    WhenIn(engine, Lower(text), ["false", "0", "no", "n"], Lit(FALSE), Lit(Null), cells);
    WhenIn(engine, Lower(text), ["true", "1", "yes", "y"], Lit(TRUE),
           When(IsIn(Lower(text), ["false", "0", "no", "n"]), Lit(FALSE), Lit(Null)), cells);
    assert Eval(engine, Lit(TRUE), cells) == TRUE && Eval(engine, Lit(FALSE), cells) == FALSE;
    assert Eval(engine, Lit(Null), cells) == Null;
  }

  lemma WhenIn(engine: Engine, e: Expr, values: seq<string>, chosen: Expr, other: Expr, cells: Cells)
    ensures var t := TextOf(Eval(engine, e, cells));
      Eval(engine, When(IsIn(e, values), chosen, other), cells)
      == if t.Some? && t.value in values then Eval(engine, chosen, cells) else Eval(engine, other, cells)
  {
    assert Eval(engine, IsIn(e, values), cells) == MemberCell(TextOf(Eval(engine, e, cells)), values);
  }

  lemma LitIs(engine: Engine, c: Cell, cells: Cells)
    ensures Eval(engine, Lit(c), cells) == c && (Holds(engine, Lit(c), cells) <==> c == TRUE)
  {
  }

  function BooleanCast(text: Expr): Expr {
    When(IsIn(Lower(text), ["true", "1", "yes", "y"]), Lit(TRUE),
         When(IsIn(Lower(text), ["false", "0", "no", "n"]), Lit(FALSE), Lit(Null)))
  }

  /** Which cast a kind compiles to. */
  lemma CastFor(source: Expr, targetType: string)
    ensures var text := Trim(CastString(source));
      CastColumn(source, targetType) == match KindOf(targetType)
        case Unchanged => Cast(source, Lit(FALSE))
        case Boolean => CheckedCast(source, BooleanCast(text))
        case Whole => PatternCast(source, INTEGER_PATTERN, CastLong(text))
        case Decimal => PatternCast(source, NUMBER_PATTERN, CastDouble(text))
        case Moment => CheckedCast(source, ToTimestamp(text))
        case Calendar => CheckedCast(source, ToDate(text))
        case Textual => Cast(CastString(source), Lit(FALSE))
  {
    hide Text.Contains, Text.ContainsAny, Text.Lower, Text.Strip, CheckedCast, PatternCast;
    var t := Text.Lower(Text.Strip(targetType));
    ContainsShorter(t);
    ContainsDecimal(t);
    ContainsMoment(t);
  }

  /** A compiled cast means the conversion to the kind its type name asks for. */
  lemma CastMeans(engine: Engine, source: Expr, targetType: string, cells: Cells)
    ensures var c := CastColumn(source, targetType);
      Means(engine, c.expression, c.invalid, cells, Converted(engine, KindOf(targetType), Eval(engine, source, cells)))
  {
    var text, kind := Trim(CastString(source)), KindOf(targetType);
    CastFor(source, targetType);
    LitIs(engine, FALSE, cells);
    TextIs(engine, source, cells);
    TextCasts(engine, source, cells);
    TruthCast(engine, source, cells);
    hide Eval, Holds, IsMissing, CastColumn, KindOf, CheckedCast, PatternCast;
    match kind {
      case Unchanged =>
      case Boolean => CheckedMeans(engine, source, BooleanCast(text), cells);
      case Whole => PatternMeans(engine, source, INTEGER_PATTERN, CastLong(text), cells);
      case Decimal => PatternMeans(engine, source, NUMBER_PATTERN, CastDouble(text), cells);
      case Moment => CheckedMeans(engine, source, ToTimestamp(text), cells);
      case Calendar => CheckedMeans(engine, source, ToDate(text), cells);
      case Textual =>
    }
  }

  lemma TextSteps(engine: Engine, e: Expr, cells: Cells)
    ensures var c := Eval(engine, e, cells);
      && Eval(engine, Lower(Trim(CastString(e))), cells)
         == OnText(engine, c, s => Value(Datum.Text(engine.lower(engine.trim(s)))))
      && Eval(engine, MaskPhone(CastString(e)), cells) == OnText(engine, c, s => Value(Datum.Text(engine.maskPhone(s))))
      && Eval(engine, ToTimestamp(CastString(e)), cells) == OnText(engine, c, engine.toTimestamp)
  {
    hide Eval;
    TextIs(engine, e, cells);
    InstantIs(engine, CastString(e), cells);
    MaskedIs(engine, CastString(e), cells);
    LoweredIs(engine, Trim(CastString(e)), cells);
  }

  lemma JsonIs(engine: Engine, e: Expr, path: string, cells: Cells)
    ensures Eval(engine, JsonObject(JsonText(e), path), cells)
         == match AsJson(engine, Eval(engine, e, cells))
            case Some(json) => engine.jsonObject(json, path)
            case None => Null
  {
    var c := Eval(engine, e, cells);
    assert Eval(engine, JsonText(e), cells)
      == if c.Value? && c.v.Nested? then Value(Datum.Text(engine.toJson(c.v.json))) else AsText(engine, c);
    assert Eval(engine, JsonObject(JsonText(e), path), cells)
      == JsonCell(engine, TextOf(Eval(engine, JsonText(e), cells)), path);
  }

  lemma DefaultIs(engine: Engine, e: Expr, value: Cell, cells: Cells)
    ensures var c := Eval(engine, e, cells);
      Eval(engine, When(IsMissing(e), Lit(value), e), cells) == if Missing(engine, c) then value else c
  {
    hide Eval, Holds, IsMissing, Missing;
    MissingHolds(engine, e, cells);
    LitIs(engine, value, cells);
    WhenIs(engine, IsMissing(e), Lit(value), e, cells);
  }

  lemma MissingHolds(engine: Engine, e: Expr, cells: Cells)
    ensures Holds(engine, IsMissing(e), cells) <==> Missing(engine, Eval(engine, e, cells))
  {
    MissingIs(engine, e, cells);
  }

  lemma GuardMeans(engine: Engine, source: Expr, outputType: string, cells: Cells)
    ensures var x, c := CastColumn(source, outputType), Eval(engine, source, cells);
      var m := Converted(engine, KindOf(outputType), c);
      Means(engine, x.expression, Or(IsMissing(source), x.invalid), cells,
            Meaning(m.value, Missing(engine, c) || m.invalid))
  {
    hide Eval, Holds, CastColumn, IsMissing, Missing, Converted, KindOf;
    CastMeans(engine, source, outputType, cells);
    MissingHolds(engine, source, cells);
    OrHolds(engine, IsMissing(source), CastColumn(source, outputType).invalid, cells);
  }

  lemma DefaultMeans(engine: Engine, source: Expr, value: Cell, outputType: string, cells: Cells)
    ensures var x, c := CastColumn(When(IsMissing(source), Lit(value), source), outputType), Eval(engine, source, cells);
      Means(engine, x.expression, x.invalid, cells,
            Converted(engine, KindOf(outputType), if Missing(engine, c) then value else c))
  {
    hide Eval, Holds, CastColumn, IsMissing, Missing, Converted, KindOf;
    DefaultIs(engine, source, value, cells);
    CastMeans(engine, When(IsMissing(source), Lit(value), source), outputType, cells);
  }

  lemma JsonMeans(engine: Engine, source: Expr, path: string, cells: Cells)
    ensures var x := JsonObject(JsonText(source), path);
      var found := match AsJson(engine, Eval(engine, source, cells))
        case Some(json) => engine.jsonObject(json, path)
        case None => Null;
      Means(engine, x, IsNull(x), cells, Meaning(found, found == Null))
  {
    hide Eval, Holds, AsJson;
    JsonIs(engine, source, path, cells);
    NullHolds(engine, JsonObject(JsonText(source), path), cells);
  }

  lemma MomentMeans(engine: Engine, source: Expr, cells: Cells)
    ensures var c, x := Eval(engine, source, cells), CheckedCast(source, ToTimestamp(CastString(source)));
      Means(engine, x.expression, x.invalid, cells, Checked(engine, c, OnText(engine, c, engine.toTimestamp)))
  {
    hide Eval, Holds, CheckedCast, Missing, OnText;
    TextSteps(engine, source, cells);
    CheckedMeans(engine, source, ToTimestamp(CastString(source)), cells);
  }

  lemma PlainMeans(engine: Engine, e: Expr, invalid: bool, cells: Cells)
    ensures Means(engine, e, Lit(Truth(invalid)), cells, Meaning(Eval(engine, e, cells), invalid))
  {
    LitIs(engine, Truth(invalid), cells);
  }

  /** A compiled transform means the new value of the row and whether the row is invalid. */
  lemma TransformMeans(engine: Engine, columns: seq<string>, rule: Rule, cells: Cells)
    ensures var x := TransformExpression(columns, rule);
      Means(engine, x.expression, x.invalid, cells, Transformed(engine, columns, rule, cells))
  {
    var source, p := ColumnOrNull(ResolveColumn(columns, First(rule.inputColumns))), rule.parameters;
    var outputType := if rule.outputType != "" then rule.outputType else p.targetType;
    SourceIs(engine, columns, First(rule.inputColumns), cells);
    hide ResolveColumn, ColumnOrNull, CastColumn, IsMissing, Missing, Converted, KindOf, Named, Means;
    hide Eval, Text.Lower, Text.Upper, Text.Strip, CheckedCast, OnText, AsJson, Checked;
    match rule.operation {
      case NullGuard => GuardMeans(engine, source, outputType, cells);
      case DefaultValue => DefaultMeans(engine, source, p.value, outputType, cells);
      case LowercaseTrim =>
        TextSteps(engine, source, cells);
        PlainMeans(engine, Lower(Trim(CastString(source))), false, cells);
      case JsonExtract => JsonMeans(engine, source, if p.path != "" then p.path else "$", cells);
      case MaskDigits =>
        TextSteps(engine, source, cells);
        PlainMeans(engine, MaskPhone(CastString(source)), false, cells);
        PlainMeans(engine, source, true, cells);
      case ParseTimestamp =>
        MomentMeans(engine, source, cells);
        PlainMeans(engine, source, true, cells);
      case PlainCast | PlainCopy | Rename => CastMeans(engine, source, outputType, cells);
      case _ => PlainMeans(engine, source, true, cells);
    }
  }

  lemma TransformTells(engine: Engine, columns: seq<string>, rule: Rule, cells: Cells)
    ensures var x := TransformExpression(columns, rule);
      x.reason == ReasonFor(rule) && Eval(engine, x.source, cells) == Input(columns, rule, cells)
  {
    SourceIs(engine, columns, First(rule.inputColumns), cells);
    hide Eval, ResolveColumn, ColumnOrNull, CastColumn, Named, Text.Lower, Text.Upper, Text.Strip;
  }

  // ----- What a quarantined row leaves -----

  function Either(preferred: string, fallback: string): string {
    if preferred != "" then preferred else fallback
  }

  /** A value converted as the engine does; NULL stays NULL. */
  function As(engine: Engine, kind: string, c: Cell): Cell {
    match c
    case Null => Null
    case Value(v) => engine.convert(kind, v)
  }

  /** The cell of the first name that has a column. */
  function FirstNamed(columns: seq<string>, first: string, second: string, cells: Cells): Cell {
    if ColumnFor(columns, first).Some? then Named(columns, first, cells) else Named(columns, second, cells)
  }

  /** The event id as text, blank if the frame has no such column. */
  function EventId(engine: Engine, columns: seq<string>, cells: Cells): Cell {
    if ColumnFor(columns, "event_id").None? then Value(Datum.Text(""))
    else
      match Shown(engine, Named(columns, "event_id", cells))
      case Some(s) => Value(Datum.Text(s))
      case None => Null
  }

  function PlainRecord(
    engine: Engine, columns: seq<string>, cells: Cells, stage: string, rule: Rule, reason: string): Record
  {
    Record(
      topic := As(engine, "string", Named(columns, "topic", cells)),
      partition := As(engine, "int", FirstNamed(columns, "partition", "kafka_partition", cells)),
      offset := As(engine, "long", FirstNamed(columns, "offset", "kafka_offset", cells)),
      kafkaTimestamp := As(engine, "timestamp", Named(columns, "kafka_timestamp", cells)),
      rawPayload := As(engine, "string", Named(columns, "raw_payload", cells)),
      eventId := EventId(engine, columns, cells),
      record := seq(|columns|, i requires 0 <= i < |columns| => (columns[i], Held(cells, columns[i]))),
      reason := reason,
      ruleId := rule.id,
      stage := stage,
      targetColumn := Either(HeadOf(rule.inputColumns), HeadOf(rule.outputColumns)))
  }

  lemma OptionalIs(engine: Engine, columns: seq<string>, kind: string, first: string, second: string, cells: Cells)
    ensures Eval(engine, OptionalColumn(columns, [first], kind), cells) == As(engine, kind, Named(columns, first, cells))
    ensures Eval(engine, OptionalColumn(columns, [first, second], kind), cells)
         == As(engine, kind, FirstNamed(columns, first, second, cells))
  {
    ColumnResolved(columns, first);
    ColumnResolved(columns, second);
    assert [first][1..] == [] && [first, second][1..] == [second] && [second][1..] == [];
    LitIs(engine, Null, cells);
    CastToIs(engine, kind, ResolveColumn(columns, first), cells);
    CastToIs(engine, kind, ResolveColumn(columns, second), cells);
    hide Eval, ResolveColumn, As;
    assert OptionalColumn(columns, [], kind) == Lit(Null);
    NullAs(engine, kind);
  }

  lemma NullAs(engine: Engine, kind: string)
    ensures As(engine, kind, Null) == Null
  {
  }

  lemma CastToIs(engine: Engine, kind: string, column: string, cells: Cells)
    ensures Eval(engine, CastTo(kind, Col(column)), cells) == As(engine, kind, Held(cells, column))
  {
    assert Eval(engine, Col(column), cells) == Held(cells, column);
  }

  lemma EventIs(engine: Engine, columns: seq<string>, cells: Cells)
    ensures var column := ResolveColumn(columns, "event_id");
      (if column != "" then Eval(engine, CastString(Col(column)), cells) else Value(Datum.Text("")))
      == EventId(engine, columns, cells)
  {
    var column := ResolveColumn(columns, "event_id");
    ColumnResolved(columns, "event_id");
    assert Eval(engine, Col(column), cells) == Held(cells, column);
    TextIs(engine, Col(column), cells);
  }

  lemma RecordMeans(
    engine: Engine, columns: seq<string>, cells: Cells, stage: string, rule: Rule, reason: string)
    ensures RecordOf(engine, columns, cells, stage, rule, reason)
         == PlainRecord(engine, columns, cells, stage, rule, reason)
  {
    OptionalIs(engine, columns, "string", "topic", "", cells);
    OptionalIs(engine, columns, "int", "partition", "kafka_partition", cells);
    OptionalIs(engine, columns, "long", "offset", "kafka_offset", cells);
    OptionalIs(engine, columns, "timestamp", "kafka_timestamp", "", cells);
    OptionalIs(engine, columns, "string", "raw_payload", "", cells);
    EventIs(engine, columns, cells);
    forall i | 0 <= i < |columns|
      ensures Eval(engine, Col(columns[i]), cells) == Held(cells, columns[i])
    {
    }
    hide Eval, ResolveColumn, As, FirstNamed, Named, EventId, OptionalColumn;
    assert RecordOf(engine, columns, cells, stage, rule, reason).record
        == PlainRecord(engine, columns, cells, stage, rule, reason).record;
  }
}
