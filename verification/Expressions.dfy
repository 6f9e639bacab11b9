/**
 Column expressions and their value on one row. Booleans are nullable, and the connectives follow SQL's
 three-valued logic. The text, cast and JSON routines of the engine are parameters.
 */
module Expressions {
  import opened Wrappers

  /** Doubles, ordered as the engine orders them: NaN above everything. */
  datatype Number = NegInf | Finite(r: real) | PosInf | NaN

  datatype Datum =
    | Bool(b: bool)
    | Long(n: int)
    | Double(d: Number)
    | Text(s: string)
    | Instant(micros: int)
    | Day(day: int)
    | Nested(json: string)

  datatype Cell = Null | Value(v: Datum)

  type Cells = map<string, Cell>

  /** What the engine computes on non-null values; a failed conversion yields NULL. */
  datatype Engine = Engine(
    render: Datum -> string,
    trim: string -> string,
    lower: string -> string,
    matches: (string, string) -> bool,
    toLong: string -> Option<int>,
    toDouble: string -> Option<Number>,
    convert: (string, Datum) -> Cell,
    toTimestamp: string -> Cell,
    toDate: string -> Cell,
    maskPhone: string -> string,
    jsonObject: (string, string) -> Cell,
    toJson: string -> string)

  datatype Expr =
    | Col(name: string)
    | Lit(cell: Cell)
    | IsNull(e: Expr)
    | Not(e: Expr)
    | Or(l: Expr, r: Expr)
    | And(l: Expr, r: Expr)
    | Equal(l: Expr, r: Expr)
    | Less(l: Expr, r: Expr)
    | LessEqual(l: Expr, r: Expr)
    | CastString(e: Expr)
    | CastLong(e: Expr)
    | CastDouble(e: Expr)
    | CastTo(kind: string, e: Expr)
    | Trim(e: Expr)
    | Lower(e: Expr)
    | IsEmpty(e: Expr)
    | RLike(e: Expr, pattern: string)
    | IsIn(e: Expr, values: seq<string>)
    | When(cond: Expr, chosen: Expr, other: Expr)
    | MaskPhone(e: Expr)
    | ToTimestamp(e: Expr)
    | ToDate(e: Expr)
    | JsonText(e: Expr)
    | JsonObject(e: Expr, path: string)

  const TRUE := Value(Bool(true))
  const FALSE := Value(Bool(false))

  function Truth(b: bool): Cell {
    if b then TRUE else FALSE
  }

  predicate IsBool(c: Cell) {
    c == TRUE || c == FALSE
  }

  function Rank(n: Number): nat {
    match n
    case NegInf => 0
    case Finite(_) => 1
    case PosInf => 2
    case NaN => 3
  }

  predicate NumberLess(a: Number, b: Number) {
    Rank(a) < Rank(b) || (a.Finite? && b.Finite? && a.r < b.r)
  }

  /** Doubles are totally ordered: reals by size, the infinities around them, and NaN above all. */
  lemma NumbersOrdered(a: Number, b: Number, c: Number)
    ensures !NumberLess(a, a) && (NumberLess(a, b) || a == b || NumberLess(b, a))
    ensures NumberLess(a, b) && NumberLess(b, c) ==> NumberLess(a, c)
    ensures a.Finite? && b.Finite? ==> (NumberLess(a, b) <==> a.r < b.r)
    ensures (NumberLess(a, NaN) <==> a != NaN) && (NumberLess(NegInf, a) <==> a != NegInf)
    ensures NumberLess(PosInf, a) <==> a == NaN
  {
  }

  function Not3(a: Cell): Cell {
    if a == TRUE then FALSE else if a == FALSE then TRUE else Null
  }

  function Or3(a: Cell, b: Cell): Cell {
    if a == TRUE || b == TRUE then TRUE else if a == FALSE && b == FALSE then FALSE else Null
  }

  function And3(a: Cell, b: Cell): Cell {
    if a == FALSE || b == FALSE then FALSE else if a == TRUE && b == TRUE then TRUE else Null
  }

  /** NULL compares to nothing, not even to itself. */
  function Equal3(a: Cell, b: Cell): Cell {
    if a.Null? || b.Null? then Null else Truth(a == b)
  }

  function Less3(a: Cell, b: Cell, orEqual: bool): Cell {
    if a.Value? && b.Value? && a.v.Double? && b.v.Double?
    then Truth(NumberLess(a.v.d, b.v.d) || (orEqual && a == b))
    else Null
  }

  /** The text form of a cell: the cast to string of a non-null value is never NULL. */
  function AsText(engine: Engine, c: Cell): Cell {
    match c
    case Null => Null
    case Value(Text(s)) => Value(Text(s))
    case Value(v) => Value(Text(engine.render(v)))
  }

  function TextOf(c: Cell): Option<string> {
    if c.Value? && c.v.Text? then Some(c.v.s) else None
  }

  /** A text function applied to a nullable text. */
  function Mapped(t: Option<string>, f: string -> string): Cell {
    match t
    case None => Null
    case Some(s) => Value(Text(f(s)))
  }

  function Parsed(t: Option<string>, f: string -> Cell): Cell {
    match t
    case None => Null
    case Some(s) => f(s)
  }

  function LongCell(engine: Engine, t: Option<string>): Cell {
    if t.Some? && engine.toLong(t.value).Some? then Value(Long(engine.toLong(t.value).value)) else Null
  }

  function DoubleCell(engine: Engine, t: Option<string>): Cell {
    if t.Some? && engine.toDouble(t.value).Some? then Value(Double(engine.toDouble(t.value).value)) else Null
  }

  function JsonCell(engine: Engine, t: Option<string>, path: string): Cell {
    if t.Some? then engine.jsonObject(t.value, path) else Null
  }

  function EmptyCell(t: Option<string>): Cell {
    if t.Some? then Truth(t.value == "") else Null
  }

  function MatchCell(engine: Engine, t: Option<string>, pattern: string): Cell {
    if t.Some? then Truth(engine.matches(t.value, pattern)) else Null
  }

  function MemberCell(t: Option<string>, values: seq<string>): Cell {
    if t.Some? then Truth(t.value in values) else Null
  }

  function Eval(engine: Engine, e: Expr, cells: Cells): Cell {
    match e
    case Col(name) => if name in cells then cells[name] else Null
    case Lit(cell) => cell
    case IsNull(x) => Truth(Eval(engine, x, cells).Null?)
    case Not(x) => Not3(Eval(engine, x, cells))
    case Or(l, r) => Or3(Eval(engine, l, cells), Eval(engine, r, cells))
    case And(l, r) => And3(Eval(engine, l, cells), Eval(engine, r, cells))
    case Equal(l, r) => Equal3(Eval(engine, l, cells), Eval(engine, r, cells))
    case Less(l, r) => Less3(Eval(engine, l, cells), Eval(engine, r, cells), false)
    case LessEqual(l, r) => Less3(Eval(engine, l, cells), Eval(engine, r, cells), true)
    case CastString(x) => AsText(engine, Eval(engine, x, cells))
    case CastLong(x) => LongCell(engine, TextOf(Eval(engine, x, cells)))
    case CastDouble(x) => DoubleCell(engine, TextOf(Eval(engine, x, cells)))
    case CastTo(kind, x) =>
      var c := Eval(engine, x, cells);
      if c.Null? then Null else engine.convert(kind, c.v)
    case Trim(x) => Mapped(TextOf(Eval(engine, x, cells)), engine.trim)
    case Lower(x) => Mapped(TextOf(Eval(engine, x, cells)), engine.lower)
    case IsEmpty(x) => EmptyCell(TextOf(Eval(engine, x, cells)))
    case RLike(x, pattern) => MatchCell(engine, TextOf(Eval(engine, x, cells)), pattern)
    case IsIn(x, values) => MemberCell(TextOf(Eval(engine, x, cells)), values)
    case When(cond, chosen, other) =>
      if Eval(engine, cond, cells) == TRUE then Eval(engine, chosen, cells) else Eval(engine, other, cells)
    case MaskPhone(x) => Mapped(TextOf(Eval(engine, x, cells)), engine.maskPhone)
    case ToTimestamp(x) => Parsed(TextOf(Eval(engine, x, cells)), engine.toTimestamp)
    case ToDate(x) => Parsed(TextOf(Eval(engine, x, cells)), engine.toDate)
    case JsonText(x) =>
      var c := Eval(engine, x, cells);
      if c.Value? && c.v.Nested? then Value(Text(engine.toJson(c.v.json))) else AsText(engine, c)
    case JsonObject(x, path) => JsonCell(engine, TextOf(Eval(engine, x, cells)), path)
  }

  /** What `filter` keeps: rows on which the condition is true, not merely not false. */
  predicate Holds(engine: Engine, e: Expr, cells: Cells) {
    Eval(engine, e, cells) == TRUE
  }

  function Filter(engine: Engine, condition: Expr, rows: seq<Cells>): (r: seq<Cells>)
    ensures |r| <= |rows|
  {
    if rows == [] then []
    else
      var rest := Filter(engine, condition, rows[1..]);
      if Holds(engine, condition, rows[0]) then [rows[0]] + rest else rest
  }
}
