/**
 How far schemas unfold. Everything unfolded is an object inside the property or the document, so a chain of
 unfoldings longer than there are such objects meets a schema twice; this gives a depth that is always enough.
 */
module SchemaUnfolding {
  import opened Wrappers
  import opened JsonDocuments
  import opened SchemaReferences
  import opened SchemaResolution
  import opened PropertyShapes
  import opened Sets

  // ----- The objects inside a value -----

  function SubObjects(value: Json): set<Fields> {
    match value
    case Obj(fields) => {fields} + set i, o | 0 <= i < |fields| && o in SubObjects(fields[i].value) :: o
    case Arr(items) => set i, o | 0 <= i < |items| && o in SubObjects(items[i]) :: o
    case _ => {}
  }

  lemma FieldInside(fields: Fields, i: nat)
    requires i < |fields|
    ensures SubObjects(fields[i].value) <= SubObjects(Obj(fields))
  {
  }

  lemma ItemInside(items: seq<Json>, i: nat)
    requires i < |items|
    ensures SubObjects(items[i]) <= SubObjects(Arr(items))
  {
  }

  lemma {:induction false} InsideInside(value: Json, o: Fields)
    requires o in SubObjects(value)
    ensures SubObjects(Obj(o)) <= SubObjects(value)
  {
    match value
    case Obj(fields) =>
      if o != fields {
        var i :| 0 <= i < |fields| && o in SubObjects(fields[i].value);
        InsideInside(fields[i].value, o);
        FieldInside(fields, i);
      }
    case Arr(items) =>
      var i :| 0 <= i < |items| && o in SubObjects(items[i]);
      InsideInside(items[i], o);
      ItemInside(items, i);
    case _ =>
  }

  lemma GetInside(fields: Fields, key: string)
    requires Get(fields, key).Some?
    ensures SubObjects(Get(fields, key).value) <= SubObjects(Obj(fields))
  {
    GetIs(fields, key);
    var f :| f in fields && f.key == key && f.value == Get(fields, key).value;
    var i :| 0 <= i < |fields| && fields[i] == f;
    FieldInside(fields, i);
  }

  lemma {:induction false} NavigatedInside(value: Json, tokens: seq<string>)
    requires Navigate(value, tokens).Some?
    ensures SubObjects(Navigate(value, tokens).value) <= SubObjects(value)
    decreases |tokens|
  {
    if tokens != [] {
      GetInside(value.fields, tokens[0]);
      NavigatedInside(Get(value.fields, tokens[0]).value, tokens[1..]);
    }
  }

  /** The objects of a property and its document. */
  function ObjectsWithin(value: Fields, document: Fields): set<Fields> {
    SubObjects(Obj(value)) + SubObjects(Obj(document))
  }

  /** The entries of the object are values inside the property or the document. */
  ghost predicate EntriesInside(fields: Fields, universe: set<Fields>) {
    forall key :: Get(fields, key).Some? ==> SubObjects(Get(fields, key).value) <= universe
  }

  lemma OwnEntriesInside(fields: Fields, universe: set<Fields>)
    requires SubObjects(Obj(fields)) <= universe
    ensures EntriesInside(fields, universe)
  {
    forall key | Get(fields, key).Some?
      ensures SubObjects(Get(fields, key).value) <= universe
    {
      GetInside(fields, key);
    }
  }

  lemma {:induction false} ResolvedInside(
    value: Fields, document: Fields, references: seq<string>, universe: set<Fields>)
    requires Resolve(value, document, references).Resolved?
    requires SubObjects(Obj(value)) <= universe && SubObjects(Obj(document)) <= universe
    ensures EntriesInside(Resolve(value, document, references).fields, universe)
    decreases References(Obj(document)) + OwnReferences(value) - Seen(references)
  {
    OwnEntriesInside(value, universe);
    match OwnReference(value)
    case None =>
    case Some(reference) =>
      var target := Target(document, reference).fields;
      TargetInside(document, reference);
      assert reference !in Seen(references) && Seen(references + [reference]) == Seen(references) + {reference};
      NavigatedInside(Obj(document), Tokens(reference).value);
      ResolvedInside(target, document, references + [reference], universe);
  }

  lemma {:induction false} ObjectsInside(items: seq<Json>, child: Fields)
    requires child in Objects(items)
    ensures child in SubObjects(Arr(items))
  {
    if items[0] == Obj(child) {
      ItemInside(items, 0);
    } else {
      ObjectsInside(items[1..], child);
      var i :| 0 <= i < |items[1..]| && child in SubObjects(items[1..][i]);
      ItemInside(items, i + 1);
    }
  }

  lemma ObjectsAtInside(fields: Fields, key: string, universe: set<Fields>, child: Fields)
    requires EntriesInside(fields, universe) && child in ObjectsAt(fields, key)
    ensures child in universe
  {
    ObjectsInside(Get(fields, key).value.items, child);
  }

  /** What is unfolded under an object of the universe is one too. */
  lemma ChildInside(document: Fields, value: Fields, child: Fields, universe: set<Fields>)
    requires Unfolds(document, value, child)
    requires SubObjects(Obj(value)) <= universe && SubObjects(Obj(document)) <= universe
    ensures child in universe
  {
    ResolvedInside(value, document, [], universe);
    var resolved := Resolve(value, document, []).fields;
    if child in ItemsOf(resolved) {
      assert child in SubObjects(Get(resolved, "items").value);
    } else if child in ObjectsAt(resolved, "allOf") {
      ObjectsAtInside(resolved, "allOf", universe, child);
    } else if child in ObjectsAt(resolved, "anyOf") {
      ObjectsAtInside(resolved, "anyOf", universe, child);
    } else {
      ObjectsAtInside(resolved, "oneOf", universe, child);
    }
  }

  predicate From(document: Fields, value: Fields, chain: seq<Fields>) {
    IsUnfolding(document, chain) && chain[0] == value
  }

  lemma {:induction false} ChainInside(document: Fields, value: Fields, chain: seq<Fields>, i: nat)
    requires From(document, value, chain) && i < |chain|
    ensures chain[i] in ObjectsWithin(value, document)
  {
    var universe := ObjectsWithin(value, document);
    if i > 0 {
      ChainInside(document, value, chain, i - 1);
      if chain[i - 1] in SubObjects(Obj(value)) {
        InsideInside(Obj(value), chain[i - 1]);
      } else {
        InsideInside(Obj(document), chain[i - 1]);
      }
      assert Unfolds(document, chain[i - 1], chain[i - 1 + 1]);
      ChildInside(document, chain[i - 1], chain[i], universe);
    }
  }

  // ----- Chains without repetition -----

  predicate Distinct(chain: seq<Fields>) {
    forall i, j :: 0 <= i < j < |chain| ==> chain[i] != chain[j]
  }

  lemma {:induction false} DistinctFits(chain: seq<Fields>, universe: set<Fields>)
    requires Distinct(chain) && forall i :: 0 <= i < |chain| ==> chain[i] in universe
    ensures |chain| <= |universe|
  {
    if chain != [] {
      DistinctFits(chain[1..], universe - {chain[0]});
    }
  }

  /** The number of objects in the property and the document. */
  function Depth(value: Fields, document: Fields): nat {
    |ObjectsWithin(value, document)|
  }

  lemma ChainFits(document: Fields, value: Fields, chain: seq<Fields>)
    requires From(document, value, chain) && Distinct(chain)
    ensures |chain| <= Depth(value, document)
  {
    forall i | 0 <= i < |chain|
      ensures chain[i] in ObjectsWithin(value, document)
    {
      ChainInside(document, value, chain, i);
    }
    DistinctFits(chain, ObjectsWithin(value, document));
  }

  /** No chain of unfoldings meets the same schema twice. */
  ghost predicate Acyclic(value: Fields, document: Fields) {
    forall chain :: From(document, value, chain) ==> Distinct(chain)
  }

  predicate LastResolves(document: Fields, chain: seq<Fields>)
    requires chain != []
  {
    Resolve(chain[|chain| - 1], document, []).Resolved?
  }

  /** Every schema met on a chain of unfoldings resolves. */
  ghost predicate MetResolve(value: Fields, document: Fields) {
    forall chain :: From(document, value, chain) ==> LastResolves(document, chain)
  }

  // ----- A shape means no repetition -----

  lemma Joined(document: Fields, front: seq<Fields>, chain: seq<Fields>)
    requires IsUnfolding(document, front) && IsUnfolding(document, chain) && front[|front| - 1] == chain[0]
    ensures IsUnfolding(document, front + chain[1..])
  {
    var joined := front + chain[1..];
    forall i | 0 <= i < |joined| - 1
      ensures Unfolds(document, joined[i], joined[i + 1])
    {
      if i >= |front| - 1 {
        assert Unfolds(document, chain[i - |front| + 1], chain[i - |front| + 1 + 1]);
      } else {
        assert Unfolds(document, front[i], front[i + 1]);
      }
    }
  }

  /** A way back to where it starts can be taken again, so chains from there have no bound. */
  lemma {:induction false} RoundUnbounded(document: Fields, value: Fields, round: seq<Fields>, n: nat)
    requires From(document, value, round) && |round| > 1 && round[|round| - 1] == value
    ensures !AllEndWell(value, document, n)
    decreases n
  {
    if AllEndWell(value, document, n) {
      forall chain | IsUnfolding(document, chain) && chain[0] == value
        ensures EndsWell(document, chain, n - 1)
      {
        Joined(document, round, chain);
        assert EndsWell(document, round + chain[1..], n) && EndsWell(document, chain, n);
      }
      assert IsUnfolding(document, [value]) && EndsWell(document, [value], n);
      RoundUnbounded(document, value, round, n - 1);
    }
  }

  lemma SubChain(document: Fields, chain: seq<Fields>, i: nat, j: nat)
    requires IsUnfolding(document, chain) && i <= j < |chain|
    ensures IsUnfolding(document, chain[i..j + 1])
  {
    var part := chain[i..j + 1];
    forall k | 0 <= k < |part| - 1
      ensures Unfolds(document, part[k], part[k + 1])
    {
      assert Unfolds(document, chain[i + k], chain[i + k + 1]);
    }
  }

  lemma BoundedFurtherOn(document: Fields, front: seq<Fields>, n: nat)
    requires IsUnfolding(document, front) && AllEndWell(front[0], document, n)
    ensures AllEndWell(front[|front| - 1], document, n)
  {
    hide Unfolds, Resolve;
    forall chain | IsUnfolding(document, chain) && chain[0] == front[|front| - 1]
      ensures EndsWell(document, chain, n)
    {
      Joined(document, front, chain);
      var joined := front + chain[1..];
      assert joined[0] == front[0] && joined[|joined| - 1] == chain[|chain| - 1];
      assert EndsWell(document, joined, n);
    }
  }

  lemma MetOnce(document: Fields, chain: seq<Fields>, i: nat, j: nat, n: nat)
    requires IsUnfolding(document, chain) && AllEndWell(chain[0], document, n) && i < j < |chain|
    ensures chain[i] != chain[j]
  {
    hide AllEndWell, Unfolds;
    if chain[i] == chain[j] {
      SubChain(document, chain, 0, i);
      SubChain(document, chain, i, j);
      BoundedFurtherOn(document, chain[0..i + 1], n);
      RoundUnbounded(document, chain[i], chain[i..j + 1], n);
    }
  }

  lemma BoundedIsAcyclic(value: Fields, document: Fields, n: nat)
    requires AllEndWell(value, document, n)
    ensures Acyclic(value, document)
  {
    hide AllEndWell;
    forall chain, i, j | From(document, value, chain) && 0 <= i < j < |chain|
      ensures chain[i] != chain[j]
    {
      MetOnce(document, chain, i, j, n);
    }
  }

  /**
   A property has a shape exactly if no chain of unfoldings from it meets the same schema twice and every schema
   met resolves; and then the number of objects in it and the document is depth enough.
   */
  lemma ShapedIff(value: Fields, document: Fields)
    ensures (exists depth: nat :: IsShaped(value, document, depth)) <==>
            Acyclic(value, document) && MetResolve(value, document)
    ensures (exists depth: nat :: IsShaped(value, document, depth)) <==>
            IsShaped(value, document, Depth(value, document))
  {
    if depth: nat :| IsShaped(value, document, depth) {
      ShapedAtDepth(value, document, depth);
      BoundedIsAcyclic(value, document, depth);
      forall chain | From(document, value, chain)
        ensures LastResolves(document, chain)
      {
        assert EndsWell(document, chain, depth);
      }
    }
    if Acyclic(value, document) && MetResolve(value, document) {
      forall chain | IsUnfolding(document, chain) && chain[0] == value
        ensures EndsWell(document, chain, Depth(value, document))
      {
        assert From(document, value, chain) && LastResolves(document, chain);
        ChainFits(document, value, chain);
      }
      ShapedAtDepth(value, document, Depth(value, document));
    }
  }

  // ----- A depth that is always enough -----

  predicate TooDeepAt(value: Fields, document: Fields, depth: nat) {
    PropertyShape(value, document, depth).TooDeep?
  }

  lemma {:induction false} OneTooDeep(values: seq<Fields>, document: Fields, depth: nat) returns (child: Fields)
    requires ShapesOf(values, document, depth).TooDeep?
    ensures child in values && TooDeepAt(child, document, depth)
  {
    if PropertyShape(values[0], document, depth).TooDeep? {
      child := values[0];
    } else {
      child := OneTooDeep(values[1..], document, depth);
    }
  }

  lemma TooDeepChild(value: Fields, document: Fields, depth: nat) returns (child: Fields)
    requires depth > 0 && TooDeepAt(value, document, depth)
    ensures Unfolds(document, value, child) && TooDeepAt(child, document, depth - 1)
  {
    var resolved := Resolve(value, document, []).fields;
    if ShapesOf(ItemsOf(resolved), document, depth - 1).TooDeep? {
      child := OneTooDeep(ItemsOf(resolved), document, depth - 1);
    } else if ShapesOf(ObjectsAt(resolved, "allOf"), document, depth - 1).TooDeep? {
      child := OneTooDeep(ObjectsAt(resolved, "allOf"), document, depth - 1);
    } else if ShapesOf(ObjectsAt(resolved, "anyOf"), document, depth - 1).TooDeep? {
      child := OneTooDeep(ObjectsAt(resolved, "anyOf"), document, depth - 1);
    } else {
      child := OneTooDeep(ObjectsAt(resolved, "oneOf"), document, depth - 1);
    }
  }

  lemma Prepended(document: Fields, value: Fields, chain: seq<Fields>)
    requires IsUnfolding(document, chain) && Unfolds(document, value, chain[0])
    ensures From(document, value, [value] + chain)
  {
    var longer := [value] + chain;
    forall i | 0 <= i < |longer| - 1
      ensures Unfolds(document, longer[i], longer[i + 1])
    {
      if i > 0 {
        assert Unfolds(document, chain[i - 1], chain[i - 1 + 1]);
      }
    }
  }

  lemma {:induction false} TooDeepChain(value: Fields, document: Fields, depth: nat) returns (chain: seq<Fields>)
    requires TooDeepAt(value, document, depth)
    ensures From(document, value, chain) && |chain| == depth + 1
    decreases depth
  {
    if depth == 0 {
      chain := [value];
    } else {
      var child := TooDeepChild(value, document, depth);
      var rest := TooDeepChain(child, document, depth - 1);
      Prepended(document, value, rest);
      chain := [value] + rest;
    }
  }

  /** Unfolding an acyclic property ends within the number of objects in it and the document. */
  lemma AcyclicEnds(value: Fields, document: Fields)
    requires Acyclic(value, document)
    ensures !TooDeepAt(value, document, Depth(value, document))
  {
    if TooDeepAt(value, document, Depth(value, document)) {
      var chain := TooDeepChain(value, document, Depth(value, document));
      ChainFits(document, value, chain);
    }
  }

  /** The depth is the last that is not enough. */
  predicate JustTooDeep(value: Fields, document: Fields, depth: nat) {
    TooDeepAt(value, document, depth) && !TooDeepAt(value, document, depth + 1)
  }

  predicate ListJustTooDeep(values: seq<Fields>, document: Fields, depth: nat) {
    ShapesOf(values, document, depth).TooDeep? && !ShapesOf(values, document, depth + 1).TooDeep?
  }

  lemma {:induction false} OneJustTooDeep(values: seq<Fields>, document: Fields, depth: nat) returns (child: Fields)
    requires ListJustTooDeep(values, document, depth)
    ensures child in values && JustTooDeep(child, document, depth)
  {
    if PropertyShape(values[0], document, depth).TooDeep? {
      child := values[0];
    } else {
      DeeperShape(values[0], document, depth);
      child := OneJustTooDeep(values[1..], document, depth);
    }
  }

  /** What is too deep first, and is not at the next depth. */
  lemma CombineJustTooDeep(
    resolved: Fields, i: Shaping<seq<Shape>>, a: Shaping<seq<Shape>>, n: Shaping<seq<Shape>>, o: Shaping<seq<Shape>>,
    i2: Shaping<seq<Shape>>, a2: Shaping<seq<Shape>>, n2: Shaping<seq<Shape>>, o2: Shaping<seq<Shape>>)
    requires Combine(resolved, i, a, n, o).TooDeep? && !Combine(resolved, i2, a2, n2, o2).TooDeep?
    requires (i.TooDeep? || i2 == i) && (a.TooDeep? || a2 == a) && (n.TooDeep? || n2 == n)
    ensures || (i.TooDeep? && !i2.TooDeep?) || (a.TooDeep? && !a2.TooDeep?)
            || (n.TooDeep? && !n2.TooDeep?) || (o.TooDeep? && !o2.TooDeep?)
  {
  }

  lemma JustTooDeepList(value: Fields, document: Fields, depth: nat) returns (values: seq<Fields>)
    requires depth > 0 && JustTooDeep(value, document, depth)
    ensures Resolve(value, document, []).Resolved?
    ensures ListJustTooDeep(values, document, depth - 1)
    ensures forall v :: v in values ==> v in Children(Resolve(value, document, []).fields)
  {
    hide Combine, ShapesOf, ItemsOf, ObjectsAt;
    var resolved := Resolve(value, document, []).fields;
    var items, all := ItemsOf(resolved), ObjectsAt(resolved, "allOf");
    var any, one := ObjectsAt(resolved, "anyOf"), ObjectsAt(resolved, "oneOf");
    DeeperShapes(items, document, depth - 1);
    DeeperShapes(all, document, depth - 1);
    DeeperShapes(any, document, depth - 1);
    CombineJustTooDeep(
      resolved, ShapesOf(items, document, depth - 1), ShapesOf(all, document, depth - 1),
      ShapesOf(any, document, depth - 1), ShapesOf(one, document, depth - 1),
      ShapesOf(items, document, depth), ShapesOf(all, document, depth),
      ShapesOf(any, document, depth), ShapesOf(one, document, depth));
    values := if ListJustTooDeep(items, document, depth - 1) then items
              else if ListJustTooDeep(all, document, depth - 1) then all
              else if ListJustTooDeep(any, document, depth - 1) then any
              else one;
  }

  lemma JustTooDeepChild(value: Fields, document: Fields, depth: nat) returns (child: Fields)
    requires depth > 0 && JustTooDeep(value, document, depth)
    ensures Unfolds(document, value, child) && JustTooDeep(child, document, depth - 1)
  {
    hide ShapesOf, PropertyShape, Children;
    var values := JustTooDeepList(value, document, depth);
    child := OneJustTooDeep(values, document, depth - 1);
  }

  /** Along the schemas that decide the depth, the depth still needed falls by one, so none is met twice. */
  predicate Descends(document: Fields, chain: seq<Fields>, depth: nat) {
    |chain| == depth + 1 && forall i :: 0 <= i < |chain| ==> JustTooDeep(chain[i], document, depth - i)
  }

  lemma DescendsFrom(document: Fields, value: Fields, chain: seq<Fields>, depth: nat)
    requires depth > 0 && JustTooDeep(value, document, depth) && Descends(document, chain, depth - 1)
    ensures Descends(document, [value] + chain, depth)
  {
    hide JustTooDeep;
    var longer := [value] + chain;
    forall i | 0 <= i < |longer|
      ensures JustTooDeep(longer[i], document, depth - i)
    {
      if i > 0 {
        assert JustTooDeep(chain[i - 1], document, depth - 1 - (i - 1));
      }
    }
  }

  lemma {:induction false} DescendingChain(value: Fields, document: Fields, depth: nat) returns (chain: seq<Fields>)
    requires JustTooDeep(value, document, depth)
    ensures From(document, value, chain) && Descends(document, chain, depth)
    decreases depth
  {
    hide JustTooDeep, Unfolds;
    if depth == 0 {
      chain := [value];
    } else {
      var child := JustTooDeepChild(value, document, depth);
      var rest := DescendingChain(child, document, depth - 1);
      Prepended(document, value, rest);
      DescendsFrom(document, value, rest, depth);
      chain := [value] + rest;
    }
  }

  lemma DescendingIsDistinct(document: Fields, chain: seq<Fields>, depth: nat)
    requires Descends(document, chain, depth)
    ensures Distinct(chain)
  {
    hide PropertyShape;
    forall i, j | 0 <= i < j < |chain|
      ensures chain[i] != chain[j]
    {
      assert JustTooDeep(chain[i], document, depth - i) && JustTooDeep(chain[j], document, depth - j);
      if chain[i] == chain[j] {
        DepthIsEnough(chain[j], document, depth - j + 1, depth - i);
      }
    }
  }

  lemma {:induction false} LastTooDeep(value: Fields, document: Fields, low: nat, high: nat) returns (depth: nat)
    requires TooDeepAt(value, document, low) && !TooDeepAt(value, document, high) && low <= high
    ensures low <= depth && JustTooDeep(value, document, depth)
    decreases high - low
  {
    if TooDeepAt(value, document, low + 1) {
      depth := LastTooDeep(value, document, low + 1, high);
    } else {
      depth := low;
    }
  }

  /** If unfolding a property ends at all, it ends within the number of objects in it and the document. */
  lemma EndsIff(value: Fields, document: Fields)
    ensures (exists depth: nat :: !TooDeepAt(value, document, depth)) <==>
            !TooDeepAt(value, document, Depth(value, document))
  {
    var bound := Depth(value, document);
    if depth: nat :| !TooDeepAt(value, document, depth) {
      if TooDeepAt(value, document, bound) {
        if depth <= bound {
          DepthIsEnough(value, document, depth, bound);
        } else {
          var last := LastTooDeep(value, document, bound, depth);
          var chain := DescendingChain(value, document, last);
          DescendingIsDistinct(document, chain, last);
          ChainFits(document, value, chain);
        }
      }
    }
  }

  // ----- What two shapes being equal says -----

  /** A place in an unfolding: under the items, or under the n-th of a combination. */
  datatype Place = Items | AllOf(at: nat) | AnyOf(at: nat) | OneOf(at: nat)

  datatype Facet = Facet(kind: Json, format: Json, nullable: Json)

  function Nth(values: seq<Fields>, n: nat): Option<Fields> {
    if n < |values| then Some(values[n]) else None
  }

  function Under(resolved: Fields, place: Place): Option<Fields> {
    match place
    case Items => Nth(ItemsOf(resolved), 0)
    case AllOf(at) => Nth(ObjectsAt(resolved, "allOf"), at)
    case AnyOf(at) => Nth(ObjectsAt(resolved, "anyOf"), at)
    case OneOf(at) => Nth(ObjectsAt(resolved, "oneOf"), at)
  }

  /** What the schema at a path of places says of itself; None if there is none. */
  function FacetAt(value: Fields, document: Fields, path: seq<Place>): Option<Facet>
    decreases |path|
  {
    match Resolve(value, document, [])
    case Invalid(_) => None
    case Resolved(resolved) =>
      if path == [] then
        Some(Facet(ValueAt(resolved, "type"), ValueAt(resolved, "format"), ValueAt(resolved, "nullable")))
      else
        match Under(resolved, path[0])
        case None => None
        case Some(child) => FacetAt(child, document, path[1..])
  }

  function NthShape(shapes: seq<Shape>, n: nat): Option<Shape> {
    if n < |shapes| then Some(shapes[n]) else None
  }

  function ShapeUnder(shape: Shape, place: Place): Option<Shape> {
    match place
    case Items => shape.items
    case AllOf(at) => NthShape(shape.allOf, at)
    case AnyOf(at) => NthShape(shape.anyOf, at)
    case OneOf(at) => NthShape(shape.oneOf, at)
  }

  function ShapeFacet(shape: Shape, path: seq<Place>): Option<Facet>
    decreases |path|
  {
    if path == [] then Some(Facet(shape.kind, shape.format, shape.nullable))
    else
      match ShapeUnder(shape, path[0])
      case None => None
      case Some(child) => ShapeFacet(child, path[1..])
  }

  lemma {:induction false} ShapesAt(values: seq<Fields>, document: Fields, depth: nat)
    requires ShapesOf(values, document, depth).Shaped?
    ensures var shapes := ShapesOf(values, document, depth).value;
      |shapes| == |values|
      && forall i :: 0 <= i < |values| ==> PropertyShape(values[i], document, depth) == Shaped(shapes[i])
  {
    if values != [] {
      ShapesAt(values[1..], document, depth);
    }
  }

  lemma ShapedParts(value: Fields, document: Fields, depth: nat, shape: Shape)
    requires PropertyShape(value, document, depth) == Shaped(shape)
    ensures depth > 0 && Resolve(value, document, []).Resolved?
    ensures var resolved := Resolve(value, document, []).fields;
      && ShapesOf(ObjectsAt(resolved, "allOf"), document, depth - 1) == Shaped(shape.allOf)
      && ShapesOf(ObjectsAt(resolved, "anyOf"), document, depth - 1) == Shaped(shape.anyOf)
      && ShapesOf(ObjectsAt(resolved, "oneOf"), document, depth - 1) == Shaped(shape.oneOf)
      && ShapesOf(ItemsOf(resolved), document, depth - 1)
         == Shaped(if shape.items.None? then [] else [shape.items.value])
  {
    hide Resolve, ObjectsAt;
    if depth > 0 && Resolve(value, document, []).Resolved? {
      var resolved := Resolve(value, document, []).fields;
      if ShapesOf(ItemsOf(resolved), document, depth - 1).Shaped? {
        ShapesAt(ItemsOf(resolved), document, depth - 1);
        var items := ShapesOf(ItemsOf(resolved), document, depth - 1).value;
        assert items == if items == [] then [] else [items[0]];
      }
    }
  }

  lemma ShapedUnderPlace(value: Fields, document: Fields, depth: nat, shape: Shape, place: Place)
    requires PropertyShape(value, document, depth) == Shaped(shape)
    ensures var resolved := Resolve(value, document, []);
      && resolved.Resolved? && depth > 0
      && (Under(resolved.fields, place).None? <==> ShapeUnder(shape, place).None?)
      && (Under(resolved.fields, place).Some? ==>
            PropertyShape(Under(resolved.fields, place).value, document, depth - 1)
            == Shaped(ShapeUnder(shape, place).value))
  {
    hide Resolve, ObjectsAt, ItemsOf, ShapesOf, PropertyShape;
    ShapedParts(value, document, depth, shape);
    var resolved := Resolve(value, document, []).fields;
    match place
    case Items => ShapesAt(ItemsOf(resolved), document, depth - 1);
    case AllOf(_) => ShapesAt(ObjectsAt(resolved, "allOf"), document, depth - 1);
    case AnyOf(_) => ShapesAt(ObjectsAt(resolved, "anyOf"), document, depth - 1);
    case OneOf(_) => ShapesAt(ObjectsAt(resolved, "oneOf"), document, depth - 1);
  }

  lemma ShapeTellsHere(value: Fields, document: Fields, depth: nat, shape: Shape)
    requires PropertyShape(value, document, depth) == Shaped(shape)
    ensures FacetAt(value, document, []) == ShapeFacet(shape, [])
  {
  }

  /** A shape says at every path what the unfolded schemas say there. */
  lemma {:induction false} ShapeTells(value: Fields, document: Fields, depth: nat, shape: Shape, path: seq<Place>)
    requires PropertyShape(value, document, depth) == Shaped(shape)
    ensures FacetAt(value, document, path) == ShapeFacet(shape, path)
    decreases |path|
  {
    hide Resolve, Under, ShapeUnder, PropertyShape;
    if path == [] {
      ShapeTellsHere(value, document, depth, shape);
    } else {
      ShapedUnderPlace(value, document, depth, shape, path[0]);
      if ShapeUnder(shape, path[0]).Some? {
        var child := Under(Resolve(value, document, []).fields, path[0]).value;
        ShapeTells(child, document, depth - 1, ShapeUnder(shape, path[0]).value, path[1..]);
      }
    }
  }

  ghost predicate SameTold(a: Shape, b: Shape) {
    forall path :: ShapeFacet(a, path) == ShapeFacet(b, path)
  }

  /** The shapes under a place are there alike, and tell the same. */
  lemma ToldUnder(a: Shape, b: Shape, place: Place)
    requires SameTold(a, b)
    ensures ShapeUnder(a, place).Some? <==> ShapeUnder(b, place).Some?
    ensures ShapeUnder(a, place).Some? ==> SameTold(ShapeUnder(a, place).value, ShapeUnder(b, place).value)
  {
    assert [place][1..] == [];
    assert ShapeFacet(a, [place]) == ShapeFacet(b, [place]);
    if ShapeUnder(a, place).Some? {
      forall path
        ensures ShapeFacet(ShapeUnder(a, place).value, path) == ShapeFacet(ShapeUnder(b, place).value, path)
      {
        var longer := [place] + path;
        assert longer[1..] == path && ShapeFacet(a, longer) == ShapeFacet(b, longer);
      }
    }
  }

  /** Shapes that tell the same at every path are equal. */
  lemma {:induction false} ToldDetermines(a: Shape, b: Shape)
    requires SameTold(a, b)
    ensures a == b
  {
    assert ShapeFacet(a, []) == ShapeFacet(b, []);
    ToldUnder(a, b, Items);
    if a.items.Some? {
      ToldDetermines(a.items.value, b.items.value);
    }
    ToldUnder(a, b, AllOf(|a.allOf|));
    ToldUnder(a, b, AllOf(|b.allOf|));
    forall n | 0 <= n < |a.allOf|
      ensures a.allOf[n] == b.allOf[n]
    {
      ToldUnder(a, b, AllOf(n));
      ToldDetermines(a.allOf[n], b.allOf[n]);
    }
    ToldUnder(a, b, AnyOf(|a.anyOf|));
    ToldUnder(a, b, AnyOf(|b.anyOf|));
    forall n | 0 <= n < |a.anyOf|
      ensures a.anyOf[n] == b.anyOf[n]
    {
      ToldUnder(a, b, AnyOf(n));
      ToldDetermines(a.anyOf[n], b.anyOf[n]);
    }
    ToldUnder(a, b, OneOf(|a.oneOf|));
    ToldUnder(a, b, OneOf(|b.oneOf|));
    forall n | 0 <= n < |a.oneOf|
      ensures a.oneOf[n] == b.oneOf[n]
    {
      ToldUnder(a, b, OneOf(n));
      ToldDetermines(a.oneOf[n], b.oneOf[n]);
    }
  }

  /** The two properties say the same at every path. */
  ghost predicate SameFacets(x: Fields, a: Fields, y: Fields, b: Fields) {
    forall path :: FacetAt(x, a, path) == FacetAt(y, b, path)
  }

  /** Two shapes are equal exactly if the schemas unfolded at every path say the same of themselves. */
  lemma SameShapeIff(x: Fields, a: Fields, y: Fields, b: Fields, depth: nat)
    requires IsShaped(x, a, depth) && IsShaped(y, b, depth)
    ensures PropertyShape(x, a, depth) == PropertyShape(y, b, depth) <==> SameFacets(x, a, y, b)
  {
    var s, t := PropertyShape(x, a, depth).value, PropertyShape(y, b, depth).value;
    forall path
      ensures FacetAt(x, a, path) == ShapeFacet(s, path) && FacetAt(y, b, path) == ShapeFacet(t, path)
    {
      ShapeTells(x, a, depth, s, path);
      ShapeTells(y, b, depth, t, path);
    }
    if SameFacets(x, a, y, b) {
      forall path
        ensures ShapeFacet(s, path) == ShapeFacet(t, path)
      {
        assert FacetAt(x, a, path) == FacetAt(y, b, path);
      }
      ToldDetermines(s, t);
    }
  }

  // ----- Broken references -----

  lemma {:induction false} OneBroken(values: seq<Fields>, document: Fields, depth: nat) returns (child: Fields)
    requires ShapesOf(values, document, depth).Broken?
    ensures child in values && PropertyShape(child, document, depth).Broken?
  {
    if PropertyShape(values[0], document, depth).Broken? {
      child := values[0];
    } else {
      child := OneBroken(values[1..], document, depth);
    }
  }

  lemma BrokenChild(value: Fields, document: Fields, depth: nat) returns (child: Fields)
    requires PropertyShape(value, document, depth).Broken? && Resolve(value, document, []).Resolved?
    ensures depth > 0 && Unfolds(document, value, child) && PropertyShape(child, document, depth - 1).Broken?
  {
    var resolved := Resolve(value, document, []).fields;
    if ShapesOf(ItemsOf(resolved), document, depth - 1).Broken? {
      child := OneBroken(ItemsOf(resolved), document, depth - 1);
    } else if ShapesOf(ObjectsAt(resolved, "allOf"), document, depth - 1).Broken? {
      child := OneBroken(ObjectsAt(resolved, "allOf"), document, depth - 1);
    } else if ShapesOf(ObjectsAt(resolved, "anyOf"), document, depth - 1).Broken? {
      child := OneBroken(ObjectsAt(resolved, "anyOf"), document, depth - 1);
    } else {
      child := OneBroken(ObjectsAt(resolved, "oneOf"), document, depth - 1);
    }
  }

  lemma {:induction false} BrokenChain(value: Fields, document: Fields, depth: nat) returns (chain: seq<Fields>)
    requires PropertyShape(value, document, depth).Broken?
    ensures From(document, value, chain) && !LastResolves(document, chain)
    decreases depth
  {
    hide Unfolds, Resolve, PropertyShape;
    if Resolve(value, document, []).Invalid? {
      chain := [value];
    } else {
      var child := BrokenChild(value, document, depth);
      var rest := BrokenChain(child, document, depth - 1);
      Prepended(document, value, rest);
      chain := [value] + rest;
    }
  }

  /** Where unfolding ends, it breaks exactly if a schema met does not resolve. */
  lemma BrokenIff(value: Fields, document: Fields, depth: nat)
    requires !TooDeepAt(value, document, depth)
    ensures PropertyShape(value, document, depth).Broken? <==> !MetResolve(value, document)
  {
    if PropertyShape(value, document, depth).Broken? {
      var chain := BrokenChain(value, document, depth);
    } else {
      assert IsShaped(value, document, depth);
      ShapedIff(value, document);
    }
  }
}
