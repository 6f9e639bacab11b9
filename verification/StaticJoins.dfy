/**
 A micro-batch joined with static snapshots: pruning each snapshot to the keys of the batch leaves every
 INNER and LEFT equality join unchanged, and snapshots unique on their join keys never multiply rows.
 */
module StaticJoins {
  import opened Wrappers
  import opened Expressions
  import T = Text
  import L = TextLaws

  datatype JoinKind = Inner | Left

  datatype JoinKey = JoinKey(leftAlias: string, leftColumn: string, rightColumn: string)

  datatype Join = Join(kind: JoinKind, rightAlias: string, keys: seq<JoinKey>)

  /** A row of the join so far, by normalized alias; an alias without a row was not matched. */
  type Tuple = map<string, Cells>

  type KeyPair = (string, string)

  function StripQuotes(s: string): string
    decreases |s|
  {
    if s != [] && (s[0] == '`' || s[0] == '"') then StripQuotes(s[1..])
    else if s != [] && (s[|s| - 1] == '`' || s[|s| - 1] == '"') then StripQuotes(s[..|s| - 1])
    else s
  }

  function NormalizeIdentifier(s: string): string {
    T.Lower(StripQuotes(T.Strip(s)))
  }

  predicate IsQuote(c: char) {
    c == '`' || c == '"'
  }

  predicate AllQuotes(s: string) {
    forall c :: c in s ==> IsQuote(c)
  }

  lemma {:induction false} QuotesStripped(left: string, core: string, right: string)
    requires AllQuotes(left) && AllQuotes(right)
    requires core != "" && !IsQuote(core[0]) && !IsQuote(core[|core| - 1])
    ensures StripQuotes(left + core + right) == core
    decreases |left| + |right|
  {
    var s := left + core + right;
    if left != "" {
      assert left[0] in left && s[1..] == left[1..] + core + right;
      QuotesStripped(left[1..], core, right);
    } else if right != "" {
      var last := |right| - 1;
      assert right[last] in right && right == right[..last] + [right[last]];
      assert s[0] == core[0] && s[..|s| - 1] == left + core + right[..last];
      QuotesStripped(left, core, right[..last]);
    } else {
      assert s == core;
    }
  }

  /** An identifier names its core in small letters, whatever quotes stand around it and blanks around these. */
  lemma IdentifierMeans(before: string, left: string, core: string, right: string, after: string)
    requires L.AllBlank(before) && L.AllBlank(after) && AllQuotes(left) && AllQuotes(right)
    requires core != "" && !IsQuote(core[0]) && !IsQuote(core[|core| - 1]) && L.Tight(left + core + right)
    ensures var name := NormalizeIdentifier(before + (left + core + right) + after);
      |name| == |core| && forall i :: 0 <= i < |core| ==>
        name[i] == if 'A' <= core[i] <= 'Z' then core[i] - 'A' + 'a' else core[i]
  {
    L.StripsTo(before, left + core + right, after);
    QuotesStripped(left, core, right);
  }

  /** Rows hold their cells under normalized names, so that a column is found however its name is written. */
  function Lookup(cells: Cells, column: string): Cell {
    var name := NormalizeIdentifier(column);
    if name in cells then cells[name] else Null
  }

  function TupleCell(t: Tuple, alias: string, column: string): Cell {
    if NormalizeIdentifier(alias) in t then Lookup(t[NormalizeIdentifier(alias)], column) else Null
  }

  // ----- Joins -----

  predicate KeyMatches(t: Tuple, key: JoinKey, row: Cells) {
    Equal3(TupleCell(t, key.leftAlias, key.leftColumn), Lookup(row, key.rightColumn)) == TRUE
  }

  /** All equalities of the join hold; a NULL on either side matches nothing. */
  predicate Matches(t: Tuple, keys: seq<JoinKey>, row: Cells) {
    forall i :: 0 <= i < |keys| ==> KeyMatches(t, keys[i], row)
  }

  function Matching(t: Tuple, keys: seq<JoinKey>, rows: seq<Cells>): seq<Cells> {
    if rows == [] then []
    else
      var rest := Matching(t, keys, rows[1..]);
      if Matches(t, keys, rows[0]) then [rows[0]] + rest else rest
  }

  function Extend(t: Tuple, alias: string, rows: seq<Cells>): (r: seq<Tuple>)
    ensures |r| == |rows|
    ensures forall i :: 0 <= i < |r| ==> r[i] == t[alias := rows[i]]
  {
    if rows == [] then [] else [t[alias := rows[0]]] + Extend(t, alias, rows[1..])
  }

  function JoinOne(join: Join, t: Tuple, right: seq<Cells>): seq<Tuple> {
    var matching := Matching(t, join.keys, right);
    if matching == [] && join.kind == Left then [t]
    else Extend(t, NormalizeIdentifier(join.rightAlias), matching)
  }

  function JoinRows(join: Join, left: seq<Tuple>, right: seq<Cells>): seq<Tuple> {
    if left == [] then [] else JoinOne(join, left[0], right) + JoinRows(join, left[1..], right)
  }

  /** The frame registered for an alias, by normalized alias. */
  type Frames = map<string, seq<Cells>>

  function FrameOf(frames: Frames, join: Join): seq<Cells> {
    var alias := NormalizeIdentifier(join.rightAlias);
    if alias in frames then frames[alias] else []
  }

  function JoinAll(left: seq<Tuple>, joins: seq<Join>, frames: Frames): seq<Tuple>
    decreases |joins|
  {
    if joins == [] then left
    else JoinAll(JoinRows(joins[0], left, FrameOf(frames, joins[0])), joins[1..], frames)
  }

  function StreamTuples(alias: string, stream: seq<Cells>): (r: seq<Tuple>)
    ensures |r| == |stream|
    ensures forall i :: 0 <= i < |r| ==> r[i] == map[alias := stream[i]]
  {
    if stream == [] then [] else [map[alias := stream[0]]] + StreamTuples(alias, stream[1..])
  }

  // ----- Pruning -----

  /** The equalities of a join whose left side is the stream. */
  function KeyPairs(keys: seq<JoinKey>, streamAlias: string): seq<KeyPair> {
    if keys == [] then []
    else
      var rest := KeyPairs(keys[1..], streamAlias);
      if NormalizeIdentifier(keys[0].leftAlias) == streamAlias
         && T.Strip(keys[0].leftColumn) != "" && T.Strip(keys[0].rightColumn) != ""
      then [(keys[0].leftColumn, keys[0].rightColumn)] + rest
      else rest
  }

  predicate PairsMatch(pairs: seq<KeyPair>, s: Cells, row: Cells) {
    forall i :: 0 <= i < |pairs| ==> Equal3(Lookup(s, pairs[i].0), Lookup(row, pairs[i].1)) == TRUE
  }

  /** The rows of the snapshot that agree with some row of the batch on every pair. */
  ghost function SemiJoin(pairs: seq<KeyPair>, stream: seq<Cells>, rows: seq<Cells>): seq<Cells> {
    if rows == [] then []
    else
      var rest := SemiJoin(pairs, stream, rows[1..]);
      if exists s :: s in stream && PairsMatch(pairs, s, rows[0]) then [rows[0]] + rest else rest
  }

  function KeyOf(pairs: seq<KeyPair>, s: Cells): (k: seq<Cell>)
    ensures |k| == |pairs|
  {
    seq(|pairs|, i requires 0 <= i < |pairs| => Lookup(s, pairs[i].0))
  }

  predicate NoNulls(key: seq<Cell>) {
    forall i :: 0 <= i < |key| ==> key[i] != Null
  }

  /** The distinct keys of the batch without NULLs. */
  function BatchKeys(pairs: seq<KeyPair>, stream: seq<Cells>): set<seq<Cell>> {
    set s | s in stream && NoNulls(KeyOf(pairs, s)) :: KeyOf(pairs, s)
  }

  /** `distinct().collect()` over the non-null keys. */
  function DistinctKeys(pairs: seq<KeyPair>, stream: seq<Cells>): (keys: seq<seq<Cell>>)
    ensures forall i :: 0 <= i < |keys| ==> |keys[i]| == |pairs|
  {
    if stream == [] then []
    else
      var rest, key := DistinctKeys(pairs, stream[1..]), KeyOf(pairs, stream[0]);
      if NoNulls(key) && key !in rest then [key] + rest else rest
  }

  datatype Limit = Missing | Malformed | Given(n: int)

  datatype PruneResult = Pruned(rows: seq<Cells>) | Unsupported | LimitInvalid | LimitExceeded(limit: nat)

  /** `max(1, int(value or 100))`. */
  function KeyLimit(limit: Limit): nat
    requires !limit.Malformed?
  {
    var n := if limit.Missing? || limit.n == 0 then 100 else limit.n;
    if n < 1 then 1 else n
  }

  function FirstJoin(joins: seq<Join>, alias: string): Option<Join> {
    if joins == [] then None
    else if NormalizeIdentifier(joins[0].rightAlias) == alias then Some(joins[0])
    else FirstJoin(joins[1..], alias)
  }

  predicate KeyAgrees(pairs: seq<KeyPair>, key: seq<Cell>, row: Cells)
    requires |key| == |pairs|
  {
    AgreesUpTo(pairs, key, row, |pairs|)
  }

  predicate AgreesUpTo(pairs: seq<KeyPair>, key: seq<Cell>, row: Cells, n: nat)
    requires |key| == |pairs| && n <= |pairs|
  {
    forall j :: 0 <= j < n ==> Equal3(Lookup(row, pairs[j].1), key[j]) == TRUE
  }

  predicate SomeAgrees(pairs: seq<KeyPair>, keys: seq<seq<Cell>>, row: Cells, n: nat)
    requires n <= |keys| && forall i :: 0 <= i < |keys| ==> |keys[i]| == |pairs|
  {
    exists i :: 0 <= i < n && KeyAgrees(pairs, keys[i], row)
  }

  /** The conjunction of the equalities of one key. */
  method BuildConjunction(engine: Engine, pairs: seq<KeyPair>, key: seq<Cell>) returns (item: Expr)
    requires pairs != [] && |key| == |pairs|
    ensures forall row :: Holds(engine, item, row) <==> KeyAgrees(pairs, key, row)
  {
    var conjunction: Option<Expr> := None;
    for j := 0 to |pairs|
      invariant conjunction.None? <==> j == 0
      invariant conjunction.Some? ==>
        forall row :: Holds(engine, conjunction.value, row) <==> AgreesUpTo(pairs, key, row, j)
    {
      var comparison := Equal(Col(NormalizeIdentifier(pairs[j].1)), Lit(key[j]));
      var longer := if conjunction.None? then comparison else And(conjunction.value, comparison);
      forall row
        ensures Holds(engine, longer, row) <==> AgreesUpTo(pairs, key, row, j + 1)
      {
        assert Eval(engine, Col(NormalizeIdentifier(pairs[j].1)), row) == Lookup(row, pairs[j].1);
        assert Eval(engine, Lit(key[j]), row) == key[j];
        assert Eval(engine, comparison, row) == Equal3(Lookup(row, pairs[j].1), key[j]);
        assert Equal3(Lookup(row, pairs[j].1), key[j]) == Equal3(key[j], Lookup(row, pairs[j].1));
        assert AgreesUpTo(pairs, key, row, j + 1)
          <==> AgreesUpTo(pairs, key, row, j) && Equal3(Lookup(row, pairs[j].1), key[j]) == TRUE;
        if j > 0 {
          assert Holds(engine, conjunction.value, row) <==> AgreesUpTo(pairs, key, row, j);
        }
      }
      conjunction := Some(longer);
    }
    item := conjunction.value;
  }

  /** The disjunction, over the keys of the batch, of the conjunctions of their equalities. */
  method BuildPredicate(engine: Engine, pairs: seq<KeyPair>, keys: seq<seq<Cell>>) returns (p: Expr)
    requires pairs != [] && keys != []
    requires forall i :: 0 <= i < |keys| ==> |keys[i]| == |pairs|
    ensures forall row :: Holds(engine, p, row) <==> SomeAgrees(pairs, keys, row, |keys|)
  {
    var disjunction: Option<Expr> := None;
    for i := 0 to |keys|
      invariant disjunction.None? <==> i == 0
      invariant disjunction.Some? ==>
        forall row :: Holds(engine, disjunction.value, row) <==> SomeAgrees(pairs, keys, row, i)
    {
      var item := BuildConjunction(engine, pairs, keys[i]);
      var longer := if disjunction.None? then item else Or(disjunction.value, item);
      forall row
        ensures Holds(engine, longer, row) <==> SomeAgrees(pairs, keys, row, i + 1)
      {
        assert SomeAgrees(pairs, keys, row, i + 1)
          <==> SomeAgrees(pairs, keys, row, i) || KeyAgrees(pairs, keys[i], row);
        if i > 0 {
          assert Holds(engine, disjunction.value, row) <==> SomeAgrees(pairs, keys, row, i);
        }
      }
      disjunction := Some(longer);
    }
    p := disjunction.value;
  }

  lemma {:induction false} DistinctAreBatchKeys(pairs: seq<KeyPair>, stream: seq<Cells>)
    ensures var keys := DistinctKeys(pairs, stream);
      && (forall k :: k in keys <==> k in BatchKeys(pairs, stream))
      && |keys| == |BatchKeys(pairs, stream)|
  {
    if stream != [] {
      DistinctAreBatchKeys(pairs, stream[1..]);
      var key, rest := KeyOf(pairs, stream[0]), BatchKeys(pairs, stream[1..]);
      assert forall s :: s in stream <==> s == stream[0] || s in stream[1..];
      if NoNulls(key) {
        assert BatchKeys(pairs, stream) == rest + {key};
      } else {
        assert BatchKeys(pairs, stream) == rest;
      }
    }
  }

  /** A row agrees with a collected key exactly if it agrees with a row of the batch. */
  lemma AgreesIsWanted(pairs: seq<KeyPair>, stream: seq<Cells>, row: Cells)
    ensures (exists key :: key in BatchKeys(pairs, stream) && |key| == |pairs| && KeyAgrees(pairs, key, row))
       <==> (exists s :: s in stream && PairsMatch(pairs, s, row))
  {
    forall s | s in stream
      ensures PairsMatch(pairs, s, row) <==> NoNulls(KeyOf(pairs, s)) && KeyAgrees(pairs, KeyOf(pairs, s), row)
    {
      var key := KeyOf(pairs, s);
      assert forall j :: 0 <= j < |pairs| ==> key[j] == Lookup(s, pairs[j].0);
      if PairsMatch(pairs, s, row) {
        forall j | 0 <= j < |pairs|
          ensures Equal3(Lookup(row, pairs[j].1), key[j]) == TRUE && key[j] != Null
        {
          assert Equal3(Lookup(s, pairs[j].0), Lookup(row, pairs[j].1)) == TRUE;
        }
      }
      if NoNulls(key) && KeyAgrees(pairs, key, row) {
        forall j | 0 <= j < |pairs|
          ensures Equal3(Lookup(s, pairs[j].0), Lookup(row, pairs[j].1)) == TRUE
        {
          assert Equal3(Lookup(row, pairs[j].1), key[j]) == TRUE;
        }
      }
    }
    if s :| s in stream && PairsMatch(pairs, s, row) {
      assert KeyOf(pairs, s) in BatchKeys(pairs, stream);
    }
  }

  lemma {:induction false} FilterIsSemiJoin(
    engine: Engine, condition: Expr, pairs: seq<KeyPair>, stream: seq<Cells>, rows: seq<Cells>)
    requires forall row :: Holds(engine, condition, row) <==> exists s :: s in stream && PairsMatch(pairs, s, row)
    ensures Filter(engine, condition, rows) == SemiJoin(pairs, stream, rows)
  {
    if rows != [] {
      FilterIsSemiJoin(engine, condition, pairs, stream, rows[1..]);
    }
  }

  lemma {:induction false} NothingWanted(pairs: seq<KeyPair>, stream: seq<Cells>, rows: seq<Cells>)
    requires BatchKeys(pairs, stream) == {}
    ensures SemiJoin(pairs, stream, rows) == []
  {
    if rows != [] {
      AgreesIsWanted(pairs, stream, rows[0]);
      NothingWanted(pairs, stream, rows[1..]);
    }
  }

  /** The streaming-side equalities of the first join of an alias. */
  function PruningPairs(streamAlias: string, alias: string, joins: seq<Join>): seq<KeyPair> {
    var join := FirstJoin(joins, NormalizeIdentifier(alias));
    if join.None? then [] else KeyPairs(join.value.keys, NormalizeIdentifier(streamAlias))
  }

  /** A batch can prune: there is an equality to prune by, and no more distinct keys than the limit. */
  ghost predicate Prunable(pairs: seq<KeyPair>, stream: seq<Cells>, limit: Limit) {
    pairs != [] && !limit.Malformed? && |BatchKeys(pairs, stream)| <= KeyLimit(limit)
  }

  /**
   The snapshot rows one micro-batch can match, found by pushing the distinct keys of the batch into the scan.
   It is the semijoin with the batch on the streaming-side equalities of the first join of the relation;
   it raises when there is no such equality, or when the batch has more distinct keys than the limit.
   */
  method PrunedStaticSnapshot(
    engine: Engine, stream: seq<Cells>, streamAlias: string, alias: string, joins: seq<Join>, limit: Limit,
    snapshot: seq<Cells>)
    returns (r: PruneResult)
    ensures var pairs := PruningPairs(streamAlias, alias, joins);
      if pairs == [] then r == Unsupported
      else if limit.Malformed? then r == LimitInvalid
      else if |BatchKeys(pairs, stream)| > KeyLimit(limit) then r == LimitExceeded(KeyLimit(limit))
      else r == Pruned(SemiJoin(pairs, stream, snapshot))
  {
    var pairs := PruningPairs(streamAlias, alias, joins);
    if pairs == [] {
      return Unsupported;
    }
    if limit.Malformed? {
      return LimitInvalid;
    }
    var bound := KeyLimit(limit);
    var distinct := DistinctKeys(pairs, stream);
    DistinctAreBatchKeys(pairs, stream);
    var keys := if |distinct| > bound + 1 then distinct[..bound + 1] else distinct;
    if |keys| > bound {
      return LimitExceeded(bound);
    }
    if keys == [] {
      NothingWanted(pairs, stream, snapshot);
      return Pruned([]);
    }
    var condition := BuildPredicate(engine, pairs, keys);
    forall row
      ensures Holds(engine, condition, row) <==> exists s :: s in stream && PairsMatch(pairs, s, row)
    {
      AgreesIsWanted(pairs, stream, row);
      KeysAgree(pairs, keys, BatchKeys(pairs, stream), row);
    }
    FilterIsSemiJoin(engine, condition, pairs, stream, snapshot);
    return Pruned(Filter(engine, condition, snapshot));
  }

  lemma KeysAgree(pairs: seq<KeyPair>, keys: seq<seq<Cell>>, all: set<seq<Cell>>, row: Cells)
    requires forall i :: 0 <= i < |keys| ==> |keys[i]| == |pairs|
    requires forall k :: k in keys <==> k in all
    ensures SomeAgrees(pairs, keys, row, |keys|)
       <==> exists key :: key in all && |key| == |pairs| && KeyAgrees(pairs, key, row)
  {
    if i :| 0 <= i < |keys| && KeyAgrees(pairs, keys[i], row) {
      assert keys[i] in all;
    }
    if key :| key in all && |key| == |pairs| && KeyAgrees(pairs, key, row) {
      assert key in keys;
    }
  }

  // ----- Pruning preserves every join -----

  /** The tuple still carries a row of the batch under the streaming alias. */
  predicate FromBatch(t: Tuple, streamAlias: string, stream: seq<Cells>) {
    streamAlias in t && t[streamAlias] in stream
  }

  predicate IsPair(key: JoinKey, streamAlias: string, pair: KeyPair) {
    NormalizeIdentifier(key.leftAlias) == streamAlias && pair == (key.leftColumn, key.rightColumn)
  }

  lemma {:induction false} PairIsAKey(keys: seq<JoinKey>, streamAlias: string, pair: KeyPair)
    requires pair in KeyPairs(keys, streamAlias)
    ensures exists key :: key in keys && IsPair(key, streamAlias, pair)
  {
    if pair in KeyPairs(keys[1..], streamAlias) {
      PairIsAKey(keys[1..], streamAlias, pair);
      var key :| key in keys[1..] && IsPair(key, streamAlias, pair);
      assert key in keys;
    } else {
      assert keys[0] in keys && IsPair(keys[0], streamAlias, pair);
    }
  }

  /** A row the full join would match is kept by the pruning. */
  lemma MatchIsWanted(t: Tuple, keys: seq<JoinKey>, streamAlias: string, row: Cells)
    requires streamAlias in t && Matches(t, keys, row)
    ensures PairsMatch(KeyPairs(keys, streamAlias), t[streamAlias], row)
  {
    var pairs := KeyPairs(keys, streamAlias);
    forall i | 0 <= i < |pairs|
      ensures Equal3(Lookup(t[streamAlias], pairs[i].0), Lookup(row, pairs[i].1)) == TRUE
    {
      PairIsAKey(keys, streamAlias, pairs[i]);
      var key :| key in keys && IsPair(key, streamAlias, pairs[i]);
      assert KeyMatches(t, key, row);
    }
  }

  lemma {:induction false} MatchingPruned(
    t: Tuple, keys: seq<JoinKey>, streamAlias: string, stream: seq<Cells>, rows: seq<Cells>)
    requires FromBatch(t, streamAlias, stream)
    ensures Matching(t, keys, SemiJoin(KeyPairs(keys, streamAlias), stream, rows)) == Matching(t, keys, rows)
  {
    if rows != [] {
      MatchingPruned(t, keys, streamAlias, stream, rows[1..]);
      if Matches(t, keys, rows[0]) {
        MatchIsWanted(t, keys, streamAlias, rows[0]);
      }
    }
  }

  /** One join of a batch against the pruned snapshot is the join against the whole snapshot. */
  lemma {:induction false} PruningPreservesJoin(
    join: Join, left: seq<Tuple>, streamAlias: string, stream: seq<Cells>, snapshot: seq<Cells>)
    requires forall t :: t in left ==> FromBatch(t, streamAlias, stream)
    ensures JoinRows(join, left, SemiJoin(KeyPairs(join.keys, streamAlias), stream, snapshot))
         == JoinRows(join, left, snapshot)
  {
    if left != [] {
      assert left[0] in left;
      MatchingPruned(left[0], join.keys, streamAlias, stream, snapshot);
      PruningPreservesJoin(join, left[1..], streamAlias, stream, snapshot);
    }
  }

  lemma {:induction false} JoinKeepsBatch(
    join: Join, left: seq<Tuple>, right: seq<Cells>, streamAlias: string, stream: seq<Cells>)
    requires forall t :: t in left ==> FromBatch(t, streamAlias, stream)
    requires NormalizeIdentifier(join.rightAlias) != streamAlias
    ensures forall t :: t in JoinRows(join, left, right) ==> FromBatch(t, streamAlias, stream)
  {
    if left != [] {
      assert left[0] in left;
      JoinKeepsBatch(join, left[1..], right, streamAlias, stream);
      forall t | t in JoinOne(join, left[0], right)
        ensures FromBatch(t, streamAlias, stream)
      {
      }
    }
  }

  /** Each join sees either the whole snapshot or its pruning by the batch. */
  ghost predicate PrunedFor(
    joins: seq<Join>, streamAlias: string, stream: seq<Cells>, full: Frames, pruned: Frames)
  {
    forall i :: 0 <= i < |joins| ==>
      && NormalizeIdentifier(joins[i].rightAlias) != streamAlias
      && (FrameOf(pruned, joins[i]) == FrameOf(full, joins[i])
          || FrameOf(pruned, joins[i])
             == SemiJoin(KeyPairs(joins[i].keys, streamAlias), stream, FrameOf(full, joins[i])))
  }

  lemma {:induction false} PruningPreservesChain(
    left: seq<Tuple>, joins: seq<Join>, streamAlias: string, stream: seq<Cells>, full: Frames, pruned: Frames)
    requires forall t :: t in left ==> FromBatch(t, streamAlias, stream)
    requires PrunedFor(joins, streamAlias, stream, full, pruned)
    ensures JoinAll(left, joins, pruned) == JoinAll(left, joins, full)
    decreases |joins|
  {
    if joins != [] {
      var next := JoinRows(joins[0], left, FrameOf(full, joins[0]));
      PruningPreservesJoin(joins[0], left, streamAlias, stream, FrameOf(full, joins[0]));
      JoinKeepsBatch(joins[0], left, FrameOf(full, joins[0]), streamAlias, stream);
      PruningPreservesChain(next, joins[1..], streamAlias, stream, full, pruned);
    }
  }

  /** A whole batch: any number of INNER and LEFT joins gives the same rows on pruned snapshots. */
  lemma PruningPreservesBatch(
    streamAlias: string, stream: seq<Cells>, joins: seq<Join>, full: Frames, pruned: Frames)
    requires PrunedFor(joins, streamAlias, stream, full, pruned)
    ensures JoinAll(StreamTuples(streamAlias, stream), joins, pruned)
         == JoinAll(StreamTuples(streamAlias, stream), joins, full)
  {
    PruningPreservesChain(StreamTuples(streamAlias, stream), joins, streamAlias, stream, full, pruned);
  }

  // ----- Unique snapshots never multiply rows -----

  predicate SameKey(columns: seq<string>, a: Cells, b: Cells) {
    forall c :: 0 <= c < |columns| ==> Lookup(a, columns[c]) == Lookup(b, columns[c])
  }

  /** No two rows share their values on the columns, as grouping compares them: NULL equals NULL. */
  predicate UniqueOn(rows: seq<Cells>, columns: seq<string>) {
    forall i, j :: 0 <= i < j < |rows| ==> !SameKey(columns, rows[i], rows[j])
  }

  /** Every column is the right side of some equality of the join. */
  predicate KeyedBy(join: Join, columns: seq<string>) {
    forall c :: 0 <= c < |columns| ==> exists k :: 0 <= k < |join.keys| && join.keys[k].rightColumn == columns[c]
  }

  lemma MatchesShareKey(t: Tuple, join: Join, columns: seq<string>, a: Cells, b: Cells)
    requires KeyedBy(join, columns) && Matches(t, join.keys, a) && Matches(t, join.keys, b)
    ensures SameKey(columns, a, b)
  {
    forall c | 0 <= c < |columns|
      ensures Lookup(a, columns[c]) == Lookup(b, columns[c])
    {
      var k :| 0 <= k < |join.keys| && join.keys[k].rightColumn == columns[c];
      assert KeyMatches(t, join.keys[k], a) && KeyMatches(t, join.keys[k], b);
    }
  }

  lemma {:induction false} AtMostOneMatch(t: Tuple, join: Join, columns: seq<string>, rows: seq<Cells>)
    requires KeyedBy(join, columns) && UniqueOn(rows, columns)
    ensures |Matching(t, join.keys, rows)| <= 1
    ensures forall row :: row in Matching(t, join.keys, rows) ==> row in rows && Matches(t, join.keys, row)
  {
    if rows != [] {
      AtMostOneMatch(t, join, columns, rows[1..]);
      var rest := Matching(t, join.keys, rows[1..]);
      if Matches(t, join.keys, rows[0]) && rest != [] {
        assert rest[0] in rest;
        var j :| 0 <= j < |rows[1..]| && rows[1..][j] == rest[0];
        MatchesShareKey(t, join, columns, rows[0], rows[j + 1]);
        assert false;
      }
    }
  }

  lemma {:induction false} JoinDoesNotMultiply(join: Join, left: seq<Tuple>, columns: seq<string>, right: seq<Cells>)
    requires KeyedBy(join, columns) && UniqueOn(right, columns)
    ensures |JoinRows(join, left, right)| <= |left|
    ensures join.kind == Left ==> |JoinRows(join, left, right)| == |left|
  {
    if left != [] {
      AtMostOneMatch(left[0], join, columns, right);
      JoinDoesNotMultiply(join, left[1..], columns, right);
    }
  }

  /** Every join's frame is unique on columns the join equates. */
  ghost predicate AllUnique(joins: seq<Join>, frames: Frames, columns: map<string, seq<string>>) {
    forall i :: 0 <= i < |joins| ==>
      var alias := NormalizeIdentifier(joins[i].rightAlias);
      alias in columns && KeyedBy(joins[i], columns[alias]) && UniqueOn(FrameOf(frames, joins[i]), columns[alias])
  }

  /** At most one output row per input row; exactly one when every join is a LEFT join. */
  lemma {:induction false} ChainDoesNotMultiply(
    left: seq<Tuple>, joins: seq<Join>, frames: Frames, columns: map<string, seq<string>>)
    requires AllUnique(joins, frames, columns)
    ensures |JoinAll(left, joins, frames)| <= |left|
    ensures (forall i :: 0 <= i < |joins| ==> joins[i].kind == Left) ==> |JoinAll(left, joins, frames)| == |left|
    decreases |joins|
  {
    if joins != [] {
      var alias := NormalizeIdentifier(joins[0].rightAlias);
      JoinDoesNotMultiply(joins[0], left, columns[alias], FrameOf(frames, joins[0]));
      ChainDoesNotMultiply(JoinRows(joins[0], left, FrameOf(frames, joins[0])), joins[1..], frames, columns);
    }
  }

  /** `max(1, int(value or 10))` rows may come out per row that went in. */
  function Multiplier(configured: int): nat {
    var n := if configured == 0 then 10 else configured;
    if n < 1 then 1 else n
  }

  predicate WithinCardinality(configured: int, inputCount: nat, outputCount: nat) {
    outputCount <= inputCount * Multiplier(configured)
  }

  lemma OneEachIsWithin(configured: int, inputCount: nat, outputCount: nat)
    requires outputCount <= inputCount
    ensures WithinCardinality(configured, inputCount, outputCount)
  {
    var m := Multiplier(configured);
    assert inputCount * m == inputCount + inputCount * (m - 1);
  }

  /** With unique snapshots the cardinality check cannot raise, whatever multiplier is configured. */
  lemma CardinalityHolds(
    streamAlias: string, stream: seq<Cells>, joins: seq<Join>, frames: Frames, columns: map<string, seq<string>>,
    configured: int)
    requires AllUnique(joins, frames, columns)
    ensures WithinCardinality(configured, |stream|, |JoinAll(StreamTuples(streamAlias, stream), joins, frames)|)
  {
    hide AllUnique;
    ChainDoesNotMultiply(StreamTuples(streamAlias, stream), joins, frames, columns);
    OneEachIsWithin(configured, |stream|, |JoinAll(StreamTuples(streamAlias, stream), joins, frames)|);
  }

  // ----- Joins, prunings and bounds in plain terms -----

  /** The row of the relation agrees with the tuple on every key: both cells are present and equal. */
  predicate Agrees(t: Tuple, join: Join, row: Cells) {
    forall key :: key in join.keys ==>
      var cell := TupleCell(t, key.leftAlias, key.leftColumn);
      cell != Null && cell == Lookup(row, key.rightColumn)
  }

  lemma AgreesIs(t: Tuple, join: Join, row: Cells)
    ensures Matches(t, join.keys, row) <==> Agrees(t, join, row)
  {
    hide TupleCell, Lookup;
    forall key | key in join.keys
      ensures KeyMatches(t, key, row) <==>
              TupleCell(t, key.leftAlias, key.leftColumn) != Null
              && TupleCell(t, key.leftAlias, key.leftColumn) == Lookup(row, key.rightColumn)
    {
    }
    if Matches(t, join.keys, row) {
      forall key | key in join.keys
        ensures KeyMatches(t, key, row)
      {
        var i :| 0 <= i < |join.keys| && join.keys[i] == key;
      }
    }
  }

  /** A row of a join extends a row of its left side by an agreeing one; a LEFT join also keeps the rows without any. */
  ghost predicate JoinsTo(join: Join, l: Tuple, right: seq<Cells>, t: Tuple) {
    || (exists row :: row in right && Agrees(l, join, row) && t == l[NormalizeIdentifier(join.rightAlias) := row])
    || (join.kind == Left && t == l && forall row :: row in right ==> !Agrees(l, join, row))
  }

  lemma {:induction false} MatchingMembers(t: Tuple, join: Join, rows: seq<Cells>)
    ensures forall row :: row in Matching(t, join.keys, rows) <==> row in rows && Agrees(t, join, row)
  {
    hide Matches, Agrees;
    if rows != [] {
      MatchingMembers(t, join, rows[1..]);
      AgreesIs(t, join, rows[0]);
      assert forall row :: row in rows <==> row == rows[0] || row in rows[1..];
    }
  }

  lemma JoinOneMembers(join: Join, l: Tuple, right: seq<Cells>, t: Tuple)
    ensures t in JoinOne(join, l, right) <==> JoinsTo(join, l, right, t)
  {
    hide Agrees, NormalizeIdentifier;
    MatchingMembers(l, join, right);
    var matching, alias := Matching(l, join.keys, right), NormalizeIdentifier(join.rightAlias);
    if matching == [] {
      assert forall row :: row in right ==> row !in matching;
    } else {
      assert matching[0] in matching;
      var extended := Extend(l, alias, matching);
      if t in extended {
        var i :| 0 <= i < |extended| && extended[i] == t;
        assert matching[i] in matching;
      }
      if row :| row in right && Agrees(l, join, row) && t == l[alias := row] {
        var i :| 0 <= i < |matching| && matching[i] == row;
        assert extended[i] == t;
      }
    }
  }

  lemma {:induction false} JoinMembers(join: Join, left: seq<Tuple>, right: seq<Cells>, t: Tuple)
    ensures t in JoinRows(join, left, right) <==> exists l :: l in left && JoinsTo(join, l, right, t)
  {
    hide JoinsTo, JoinOne;
    if left != [] {
      JoinOneMembers(join, left[0], right, t);
      JoinMembers(join, left[1..], right, t);
      assert forall l :: l in left <==> l == left[0] || l in left[1..];
    }
  }

  /** The rows of a pruning are the snapshot's rows that agree with some row of the batch on every pair. */
  lemma {:induction false} SemiJoinMembers(pairs: seq<KeyPair>, stream: seq<Cells>, rows: seq<Cells>, row: Cells)
    ensures row in SemiJoin(pairs, stream, rows) <==>
            row in rows && exists s :: s in stream && forall pair :: pair in pairs ==>
              Lookup(s, pair.0) != Null && Lookup(s, pair.0) == Lookup(row, pair.1)
  {
    hide Lookup;
    if rows != [] {
      SemiJoinMembers(pairs, stream, rows[1..], row);
      forall s
        ensures PairsMatch(pairs, s, rows[0]) <==>
                forall pair :: pair in pairs ==> Lookup(s, pair.0) != Null && Lookup(s, pair.0) == Lookup(rows[0], pair.1)
      {
        PairsMatchIs(pairs, s, rows[0]);
      }
      assert row in rows <==> row == rows[0] || row in rows[1..];
    }
  }

  lemma PairsMatchIs(pairs: seq<KeyPair>, s: Cells, row: Cells)
    ensures PairsMatch(pairs, s, row) <==>
            forall pair :: pair in pairs ==> Lookup(s, pair.0) != Null && Lookup(s, pair.0) == Lookup(row, pair.1)
  {
    hide Lookup;
    if PairsMatch(pairs, s, row) {
      forall pair | pair in pairs
        ensures Lookup(s, pair.0) != Null && Lookup(s, pair.0) == Lookup(row, pair.1)
      {
        var i :| 0 <= i < |pairs| && pairs[i] == pair;
        assert Equal3(Lookup(s, pairs[i].0), Lookup(row, pairs[i].1)) == TRUE;
      }
    }
    if forall pair :: pair in pairs ==> Lookup(s, pair.0) != Null && Lookup(s, pair.0) == Lookup(row, pair.1) {
      forall i | 0 <= i < |pairs|
        ensures Equal3(Lookup(s, pairs[i].0), Lookup(row, pairs[i].1)) == TRUE
      {
        assert pairs[i] in pairs;
      }
    }
  }

  /** The keys a batch prunes by are those of its rows in which no column of a pair is NULL. */
  lemma BatchKeyMembers(pairs: seq<KeyPair>, stream: seq<Cells>, key: seq<Cell>)
    ensures key in BatchKeys(pairs, stream) <==>
            |key| == |pairs| && exists s :: s in stream && forall j :: 0 <= j < |pairs| ==>
              key[j] == Lookup(s, pairs[j].0) && key[j] != Null
  {
    hide Lookup;
    if s :| s in stream && |key| == |pairs| && forall j :: 0 <= j < |pairs| ==>
        key[j] == Lookup(s, pairs[j].0) && key[j] != Null {
      assert key == KeyOf(pairs, s);
    }
  }

  /** A join more is joined last. */
  lemma {:induction false} OneMoreJoin(left: seq<Tuple>, joins: seq<Join>, last: Join, frames: Frames)
    ensures JoinAll(left, joins + [last], frames)
         == JoinRows(last, JoinAll(left, joins, frames), FrameOf(frames, last))
    decreases |joins|
  {
    hide JoinRows, FrameOf;
    if joins == [] {
      assert joins + [last] == [last] && [last][1..] == [];
    } else {
      assert (joins + [last])[1..] == joins[1..] + [last] && (joins + [last])[0] == joins[0];
      OneMoreJoin(JoinRows(joins[0], left, FrameOf(frames, joins[0])), joins[1..], last, frames);
    }
  }

  /** The key makes a pair to prune by: its left side is the stream, and neither column is blank. */
  predicate Prunes(key: JoinKey, streamAlias: string, pair: KeyPair) {
    && NormalizeIdentifier(key.leftAlias) == NormalizeIdentifier(streamAlias)
    && T.Strip(key.leftColumn) != "" && T.Strip(key.rightColumn) != ""
    && pair == (key.leftColumn, key.rightColumn)
  }

  lemma {:induction false} KeyPairMembers(keys: seq<JoinKey>, streamAlias: string, pair: KeyPair)
    ensures pair in KeyPairs(keys, NormalizeIdentifier(streamAlias))
       <==> exists key :: key in keys && Prunes(key, streamAlias, pair)
  {
    hide NormalizeIdentifier, T.Strip;
    if keys != [] {
      KeyPairMembers(keys[1..], streamAlias, pair);
      var rest := KeyPairs(keys[1..], NormalizeIdentifier(streamAlias));
      if pair in rest {
        var key :| key in keys[1..] && Prunes(key, streamAlias, pair);
        assert key in keys;
      } else if pair in KeyPairs(keys, NormalizeIdentifier(streamAlias)) {
        assert keys[0] in keys && Prunes(keys[0], streamAlias, pair);
      }
      if key :| key in keys && Prunes(key, streamAlias, pair) {
        assert key == keys[0] || key in keys[1..];
      }
    }
  }

  /** Join `i` is the first one to the alias. */
  predicate FirstAt(joins: seq<Join>, alias: string, i: int) {
    && 0 <= i < |joins| && NormalizeIdentifier(joins[i].rightAlias) == alias
    && forall k :: 0 <= k < i ==> NormalizeIdentifier(joins[k].rightAlias) != alias
  }

  lemma OneFirst(joins: seq<Join>, alias: string, i: int, j: int)
    requires FirstAt(joins, alias, i) && FirstAt(joins, alias, j)
    ensures i == j
  {
  }

  /** The join of an alias is the first one to it. */
  lemma {:induction false} FirstJoinIs(joins: seq<Join>, alias: string)
    ensures match FirstJoin(joins, alias)
            case None => forall join :: join in joins ==> NormalizeIdentifier(join.rightAlias) != alias
            case Some(join) => (exists i :: FirstAt(joins, alias, i) && joins[i] == join)
  {
    hide NormalizeIdentifier;
    if joins != [] && NormalizeIdentifier(joins[0].rightAlias) != alias {
      FirstJoinIs(joins[1..], alias);
      match FirstJoin(joins[1..], alias) {
        case None => assert forall join :: join in joins <==> join == joins[0] || join in joins[1..];
        case Some(join) =>
          var i :| FirstAt(joins[1..], alias, i) && joins[1..][i] == join;
          forall k | 0 <= k < i + 1
            ensures NormalizeIdentifier(joins[k].rightAlias) != alias
          {
            if k > 0 {
              assert joins[1..][k - 1] == joins[k];
            }
          }
          assert FirstAt(joins, alias, i + 1) && joins[i + 1] == join;
      }
    }
  }

  /** A relation is pruned by the keys of the first join to it whose left side is the stream. */
  lemma PruningPairMembers(streamAlias: string, alias: string, joins: seq<Join>, pair: KeyPair)
    ensures pair in PruningPairs(streamAlias, alias, joins) <==>
            exists i, key :: FirstAt(joins, NormalizeIdentifier(alias), i) && key in joins[i].keys
              && Prunes(key, streamAlias, pair)
  {
    hide NormalizeIdentifier, Prunes, KeyPairs, FirstJoin;
    FirstJoinIs(joins, NormalizeIdentifier(alias));
    match FirstJoin(joins, NormalizeIdentifier(alias)) {
      case None =>
      case Some(join) =>
        KeyPairMembers(join.keys, streamAlias, pair);
        var first :| FirstAt(joins, NormalizeIdentifier(alias), first) && joins[first] == join;
        forall i | FirstAt(joins, NormalizeIdentifier(alias), i)
          ensures joins[i] == join
        {
          OneFirst(joins, NormalizeIdentifier(alias), i, first);
        }
    }
  }

  /** The number of distinct keys a batch may prune by: as configured, 100 if not, and never less than one. */
  lemma KeyLimitMeans(limit: Limit)
    requires !limit.Malformed?
    ensures KeyLimit(limit)
         == match limit
            case Missing => 100
            case Given(n) => if n > 0 then n else if n == 0 then 100 else 1
  {
  }

  /** How many rows may come out for each row that went in: as configured, 10 if that is 0, and never less than one. */
  lemma CardinalityMeans(configured: int, inputCount: nat, outputCount: nat)
    ensures WithinCardinality(configured, inputCount, outputCount)
       <==> outputCount <= inputCount * (if configured > 0 then configured else if configured == 0 then 10 else 1)
  {
  }
}
