/**
 The shape of a property: its type unfolded through references, items and combinations. Unfolding a recursive
 schema does not end, so a shape is computed to a depth, and the depth is shown not to matter once it is enough.
 */
module PropertyShapes {
  import opened Wrappers
  import opened JsonDocuments
  import opened SchemaReferences
  import opened SchemaResolution

  datatype Shape = Shape(
    kind: Json,
    format: Json,
    nullable: Json,
    items: Option<Shape>,
    allOf: seq<Shape>,
    anyOf: seq<Shape>,
    oneOf: seq<Shape>)

  datatype Shaping<+T> = Shaped(value: T) | Broken(failure: Failure) | TooDeep

  function Objects(items: seq<Json>): seq<Fields> {
    if items == [] then []
    else if items[0].Obj? then [items[0].fields] + Objects(items[1..])
    else Objects(items[1..])
  }

  /** The objects in the list at a key. */
  function ObjectsAt(fields: Fields, key: string): seq<Fields> {
    match Get(fields, key)
    case Some(Arr(items)) => Objects(items)
    case _ => []
  }

  function ShapesOf(values: seq<Fields>, document: Fields, depth: nat): Shaping<seq<Shape>>
    decreases depth, 1, |values|
  {
    if values == [] then Shaped([])
    else
      match PropertyShape(values[0], document, depth)
      case Broken(failure) => Broken(failure)
      case TooDeep => TooDeep
      case Shaped(first) =>
        match ShapesOf(values[1..], document, depth)
        case Broken(failure) => Broken(failure)
        case TooDeep => TooDeep
        case Shaped(rest) => Shaped([first] + rest)
  }

  /** The items first, then the combinations; the first that fails decides. */
  function Combine(
      resolved: Fields,
      items: Shaping<seq<Shape>>,
      all: Shaping<seq<Shape>>,
      any: Shaping<seq<Shape>>,
      one: Shaping<seq<Shape>>): Shaping<Shape>
  {
    if !items.Shaped? then Failing(items)
    else if !all.Shaped? then Failing(all)
    else if !any.Shaped? then Failing(any)
    else if !one.Shaped? then Failing(one)
    else
      Shaped(Shape(
               ValueAt(resolved, "type"), ValueAt(resolved, "format"), ValueAt(resolved, "nullable"),
               if items.value == [] then None else Some(items.value[0]), all.value, any.value, one.value))
  }

  function Failing(s: Shaping<seq<Shape>>): Shaping<Shape>
    requires !s.Shaped?
  {
    match s
    case Broken(failure) => Broken(failure)
    case TooDeep => TooDeep
  }

  function ItemsOf(fields: Fields): seq<Fields> {
    match Get(fields, "items")
    case Some(Obj(inner)) => [inner]
    case _ => []
  }

  function PropertyShape(value: Fields, document: Fields, depth: nat): Shaping<Shape>
    decreases depth, 0, 0
  {
    if depth == 0 then TooDeep
    else
      match Resolve(value, document, [])
      case Invalid(failure) => Broken(failure)
      case Resolved(resolved) =>
        Combine(resolved,
                ShapesOf(ItemsOf(resolved), document, depth - 1),
                ShapesOf(ObjectsAt(resolved, "allOf"), document, depth - 1),
                ShapesOf(ObjectsAt(resolved, "anyOf"), document, depth - 1),
                ShapesOf(ObjectsAt(resolved, "oneOf"), document, depth - 1))
  }

  // ----- The depth does not matter once it is enough -----

  lemma {:induction false} DeeperShapes(values: seq<Fields>, document: Fields, depth: nat)
    ensures !ShapesOf(values, document, depth).TooDeep?
        ==> ShapesOf(values, document, depth + 1) == ShapesOf(values, document, depth)
    decreases depth, 1, |values|
  {
    if values != [] {
      DeeperShape(values[0], document, depth);
      DeeperShapes(values[1..], document, depth);
    }
  }

  lemma {:induction false} DeeperShape(value: Fields, document: Fields, depth: nat)
    ensures !PropertyShape(value, document, depth).TooDeep?
        ==> PropertyShape(value, document, depth + 1) == PropertyShape(value, document, depth)
    decreases depth, 0, 0
  {
    hide Resolve, ShapesOf, ItemsOf, ObjectsAt;
    if depth > 0 && Resolve(value, document, []).Resolved? {
      var resolved := Resolve(value, document, []).fields;
      DeeperShapes(ItemsOf(resolved), document, depth - 1);
      DeeperShapes(ObjectsAt(resolved, "allOf"), document, depth - 1);
      DeeperShapes(ObjectsAt(resolved, "anyOf"), document, depth - 1);
      DeeperShapes(ObjectsAt(resolved, "oneOf"), document, depth - 1);
    }
  }

  lemma {:induction false} DepthIsEnough(value: Fields, document: Fields, depth: nat, more: nat)
    requires !PropertyShape(value, document, depth).TooDeep? && depth <= more
    ensures PropertyShape(value, document, more) == PropertyShape(value, document, depth)
    decreases more - depth
  {
    if depth < more {
      DeeperShape(value, document, depth);
      DepthIsEnough(value, document, depth + 1, more);
    }
  }

  /** Any two depths that are enough give the same shape, or the same broken reference. */
  lemma DepthIrrelevant(value: Fields, document: Fields, a: nat, b: nat)
    requires !PropertyShape(value, document, a).TooDeep? && !PropertyShape(value, document, b).TooDeep?
    ensures PropertyShape(value, document, a) == PropertyShape(value, document, b)
  {
    if a <= b {
      DepthIsEnough(value, document, a, b);
    } else {
      DepthIsEnough(value, document, b, a);
    }
  }

  // ----- When a property has a shape -----

  /** The schemas unfolded right under a resolved one. */
  function Children(resolved: Fields): seq<Fields> {
    ItemsOf(resolved) + ObjectsAt(resolved, "allOf") + ObjectsAt(resolved, "anyOf") + ObjectsAt(resolved, "oneOf")
  }

  predicate Unfolds(document: Fields, value: Fields, child: Fields) {
    Resolve(value, document, []).Resolved? && child in Children(Resolve(value, document, []).fields)
  }

  predicate IsUnfolding(document: Fields, chain: seq<Fields>) {
    chain != [] && forall i :: 0 <= i < |chain| - 1 ==> Unfolds(document, chain[i], chain[i + 1])
  }

  /** The chain is no longer than `n`, and what it ends in resolves. */
  predicate EndsWell(document: Fields, chain: seq<Fields>, n: nat)
    requires chain != []
  {
    |chain| <= n && Resolve(chain[|chain| - 1], document, []).Resolved?
  }

  ghost predicate AllEndWell(value: Fields, document: Fields, n: nat) {
    forall chain :: IsUnfolding(document, chain) && chain[0] == value ==> EndsWell(document, chain, n)
  }

  predicate IsShaped(value: Fields, document: Fields, depth: nat) {
    PropertyShape(value, document, depth).Shaped?
  }

  lemma {:induction false} AllShaped(values: seq<Fields>, document: Fields, depth: nat)
    ensures ShapesOf(values, document, depth).Shaped? <==> forall v :: v in values ==> IsShaped(v, document, depth)
  {
    if values != [] {
      AllShaped(values[1..], document, depth);
      assert IsShaped(values[0], document, depth) <==> PropertyShape(values[0], document, depth).Shaped?;
      assert forall v :: v in values <==> v == values[0] || v in values[1..];
    }
  }

  lemma CombineShaped(
      resolved: Fields,
      items: Shaping<seq<Shape>>,
      all: Shaping<seq<Shape>>,
      any: Shaping<seq<Shape>>,
      one: Shaping<seq<Shape>>)
    ensures Combine(resolved, items, all, any, one).Shaped?
       <==> items.Shaped? && all.Shaped? && any.Shaped? && one.Shaped?
  {
  }

  lemma AllChildrenShaped(resolved: Fields, document: Fields, depth: nat)
    ensures (forall child :: child in Children(resolved) ==> IsShaped(child, document, depth)) <==>
      && ShapesOf(ItemsOf(resolved), document, depth).Shaped?
      && ShapesOf(ObjectsAt(resolved, "allOf"), document, depth).Shaped?
      && ShapesOf(ObjectsAt(resolved, "anyOf"), document, depth).Shaped?
      && ShapesOf(ObjectsAt(resolved, "oneOf"), document, depth).Shaped?
  {
    AllShaped(ItemsOf(resolved), document, depth);
    AllShaped(ObjectsAt(resolved, "allOf"), document, depth);
    AllShaped(ObjectsAt(resolved, "anyOf"), document, depth);
    AllShaped(ObjectsAt(resolved, "oneOf"), document, depth);
    assert forall c :: c in Children(resolved) <==>
      || c in ItemsOf(resolved) || c in ObjectsAt(resolved, "allOf")
      || c in ObjectsAt(resolved, "anyOf") || c in ObjectsAt(resolved, "oneOf");
  }

  lemma ShapedWithChildren(value: Fields, document: Fields, depth: nat, resolved: Fields)
    requires depth > 0 && Resolve(value, document, []) == Resolved(resolved)
    ensures IsShaped(value, document, depth)
       <==> forall child :: child in Children(resolved) ==> IsShaped(child, document, depth - 1)
  {
    AllChildrenShaped(resolved, document, depth - 1);
    CombineShaped(resolved,
                  ShapesOf(ItemsOf(resolved), document, depth - 1),
                  ShapesOf(ObjectsAt(resolved, "allOf"), document, depth - 1),
                  ShapesOf(ObjectsAt(resolved, "anyOf"), document, depth - 1),
                  ShapesOf(ObjectsAt(resolved, "oneOf"), document, depth - 1));
  }

  lemma ShapedUnder(value: Fields, document: Fields, depth: nat)
    requires depth > 0
    ensures IsShaped(value, document, depth) <==>
      && Resolve(value, document, []).Resolved?
      && forall child :: Unfolds(document, value, child) ==> IsShaped(child, document, depth - 1)
  {
    if Resolve(value, document, []).Resolved? {
      var resolved := Resolve(value, document, []).fields;
      ShapedWithChildren(value, document, depth, resolved);
      assert forall child :: Unfolds(document, value, child) <==> child in Children(resolved);
    } else {
      ShapedResolves(value, document, depth);
    }
  }

  lemma EndsWellUnder(value: Fields, document: Fields, n: nat)
    requires n > 0
    ensures AllEndWell(value, document, n) <==>
      && Resolve(value, document, []).Resolved?
      && forall child :: Unfolds(document, value, child) ==> AllEndWell(child, document, n - 1)
  {
    if AllEndWell(value, document, n) {
      assert IsUnfolding(document, [value]) && EndsWell(document, [value], n);
      forall child, chain | Unfolds(document, value, child) && IsUnfolding(document, chain) && chain[0] == child
        ensures EndsWell(document, chain, n - 1)
      {
        var longer := [value] + chain;
        assert IsUnfolding(document, longer) && EndsWell(document, longer, n);
      }
    }
    if Resolve(value, document, []).Resolved?
       && forall child :: Unfolds(document, value, child) ==> AllEndWell(child, document, n - 1)
    {
      forall chain | IsUnfolding(document, chain) && chain[0] == value
        ensures EndsWell(document, chain, n)
      {
        if |chain| > 1 {
          assert Unfolds(document, chain[0], chain[0 + 1]);
          assert IsUnfolding(document, chain[1..]) && EndsWell(document, chain[1..], n - 1);
        }
      }
    }
  }

  lemma NothingAtDepthZero(value: Fields, document: Fields)
    ensures !IsShaped(value, document, 0) && !AllEndWell(value, document, 0)
  {
    assert IsUnfolding(document, [value]) && !EndsWell(document, [value], 0);
  }

  lemma ShapedStep(value: Fields, document: Fields, depth: nat)
    requires depth > 0
    requires forall child :: Unfolds(document, value, child) ==>
      (IsShaped(child, document, depth - 1) <==> AllEndWell(child, document, depth - 1))
    ensures IsShaped(value, document, depth) <==> AllEndWell(value, document, depth)
  {
    hide IsShaped, AllEndWell, Unfolds, Resolve;
    ShapedUnder(value, document, depth);
    EndsWellUnder(value, document, depth);
  }

  /** A shape to a depth means chains no longer than the depth, each ending in a schema that resolves. */
  lemma {:induction false} ShapedAtDepth(value: Fields, document: Fields, depth: nat)
    ensures IsShaped(value, document, depth) <==> AllEndWell(value, document, depth)
    decreases depth
  {
    hide IsShaped, AllEndWell, Unfolds;
    if depth == 0 {
      NothingAtDepthZero(value, document);
    } else {
      forall child | Unfolds(document, value, child)
        ensures IsShaped(child, document, depth - 1) <==> AllEndWell(child, document, depth - 1)
      {
        ShapedAtDepth(child, document, depth - 1);
      }
      ShapedStep(value, document, depth);
    }
  }

  /** No depth is enough for a schema whose items refer back to it. */
  lemma {:induction false} RecursiveNeverShaped(depth: nat)
    ensures var node: Fields := [Field("$ref", Str("#/n"))];
      PropertyShape(node, [Field("n", Obj([Field("items", Obj(node))]))], depth).TooDeep?
  {
    var node: Fields := [Field("$ref", Str("#/n"))];
    var schema: Fields := [Field("items", Obj(node))];
    var document: Fields := [Field("n", Obj(schema))];
    if depth > 0 {
      ResolveNode(node, schema, document);
      RecursiveNeverShaped(depth - 1);
      assert ShapesOf([node], document, depth - 1).TooDeep?;
    }
  }

  lemma ResolveNode(node: Fields, schema: Fields, document: Fields)
    requires node == [Field("$ref", Str("#/n"))] && schema == [Field("items", Obj(node))]
    requires document == [Field("n", Obj(schema))]
    ensures Resolve(node, document, []).Resolved?
    ensures ItemsOf(Resolve(node, document, []).fields) == [node]
  {
    PointerRoundTrip(["n"]);
    assert Encode("n") == "n" by {
      assert Encode("") == "";
    }
    assert Pointer(["n"]) == "#/n";
    assert Get(document, "n") == Some(Obj(schema));
    assert Navigate(Obj(document), ["n"]) == Navigate(Obj(schema), []);
    assert Target(document, "#/n") == Resolved(schema);
    assert Get(schema[..0], "$ref") == None && Get(schema, "$ref") == None;
    assert Resolve(schema, document, ["#/n"]) == Resolved(schema);
    assert Override(schema, node[..0]) == schema;
    assert Override(schema, node) == schema;
  }

  /** The values a property may take; empty if it lists none. */
  function EnumOf(fields: Fields): set<Json> {
    match Get(fields, "enum")
    case Some(Arr(items)) => set v | v in items
    case _ => {}
  }

  function SchemaEnum(value: Fields, document: Fields): set<Json> {
    match Resolve(value, document, [])
    case Resolved(resolved) => EnumOf(resolved)
    case Invalid(_) => {}
  }

  /** A property with a shape has a resolvable reference, so its enumeration can be read. */
  lemma ShapedResolves(value: Fields, document: Fields, depth: nat)
    ensures PropertyShape(value, document, depth).Shaped? ==> Resolve(value, document, []).Resolved?
  {
  }
}
