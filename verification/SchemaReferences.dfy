/** Which schemas an OpenAPI document's requests reach, and what a schema reference resolves to. */
module SchemaReferences {
  import opened Wrappers
  import opened Text
  import opened JsonDocuments

  function ObjectAt(fields: Fields, key: string): Fields {
    match Get(fields, key)
    case Some(Obj(inner)) => inner
    case _ => []
  }

  function ValueAt(fields: Fields, key: string): Json {
    match Get(fields, key)
    case Some(v) => v
    case None => Null
  }

  function SchemasOf(document: Fields): Fields {
    ObjectAt(ObjectAt(document, "components"), "schemas")
  }

  // ----- Operations -----

  datatype Operation = Operation(path: string, verb: string, body: Fields)

  const METHODS := {"delete", "get", "head", "options", "patch", "post", "put"}

  function PathOperations(path: string, items: Fields): seq<Operation> {
    if items == [] then []
    else
      var rest := PathOperations(path, items[1..]);
      if Lower(items[0].key) in METHODS && items[0].value.Obj? then
        [Operation(path, Lower(items[0].key), items[0].value.fields)] + rest
      else rest
  }

  function AllOperations(paths: Fields): seq<Operation> {
    if paths == [] then []
    else if paths[0].value.Obj? then
      PathOperations(paths[0].key, paths[0].value.fields) + AllOperations(paths[1..])
    else AllOperations(paths[1..])
  }

  function OperationItems(document: Fields): seq<Operation> {
    AllOperations(ObjectAt(document, "paths"))
  }

  // ----- Reachable schemas -----

  const SCHEMA_PREFIX := "#/components/schemas/"

  /** The reference an object is, if its `$ref` is a string. */
  function OwnReference(fields: Fields): Option<string> {
    match Get(fields, "$ref")
    case Some(Str(reference)) => Some(reference)
    case _ => None
  }

  function AfterLastSlash(text: string): string {
    if '/' in text then AfterLastSlash(text[1..]) else text
  }

  /** What follows the last slash is the name, whatever stands before. */
  lemma {:induction false} NameAfterSlash(text: string, name: string)
    requires '/' !in name
    ensures AfterLastSlash(text + "/" + name) == name
  {
    var whole := text + "/" + name;
    assert whole[|text|] == '/';
    if text == "" {
      assert whole[1..] == name;
    } else {
      assert whole[1..] == text[1..] + "/" + name;
      NameAfterSlash(text[1..], name);
    }
  }

  function OwnSchema(fields: Fields): set<string> {
    match OwnReference(fields)
    case Some(reference) => if SCHEMA_PREFIX <= reference then {AfterLastSlash(reference)} else {}
    case None => {}
  }

  /** A reference to a schema names that schema. */
  lemma ReferenceNames(fields: Fields, name: string)
    requires OwnReference(fields) == Some(SCHEMA_PREFIX + name) && '/' !in name
    ensures OwnSchema(fields) == {name}
  {
    NameAfterSlash("#/components/schemas", name);
    assert "#/components/schemas" + "/" + name == SCHEMA_PREFIX + name;
  }

  /** The names of all schemas referred to anywhere inside a value. */
  function SchemaRefs(value: Json): set<string> {
    match value
    case Obj(fields) =>
      OwnSchema(fields) + set i, name | 0 <= i < |fields| && name in SchemaRefs(fields[i].value) :: name
    case Arr(items) => set i, name | 0 <= i < |items| && name in SchemaRefs(items[i]) :: name
    case _ => {}
  }

  function OperationRefs(operation: Operation): set<string> {
    SchemaRefs(ValueAt(operation.body, "requestBody")) + SchemaRefs(ValueAt(operation.body, "parameters"))
  }

  function AllRefs(operations: seq<Operation>): (names: set<string>)
    ensures forall name :: name in names <==> exists o :: o in operations && name in OperationRefs(o)
  {
    if operations == [] then {} else OperationRefs(operations[0]) + AllRefs(operations[1..])
  }

  /** The schemas the requests name directly. */
  function Roots(document: Fields): set<string> {
    AllRefs(OperationItems(document))
  }

  /** The schemas a named schema refers to; none if there is no such schema. */
  function Next(document: Fields, name: string): set<string> {
    match Get(SchemasOf(document), name)
    case Some(schema) => SchemaRefs(schema)
    case None => {}
  }

  /** The schemas named directly, and those each schema names. */
  datatype Graph = Graph(roots: set<string>, next: string -> set<string>)

  predicate IsChain(g: Graph, chain: seq<string>) {
    && chain != [] && chain[0] in g.roots
    && forall i :: 0 <= i < |chain| - 1 ==> chain[i + 1] in g.next(chain[i])
  }

  /** A root refers to the name, directly or through other names. */
  ghost predicate Reachable(g: Graph, name: string) {
    exists chain :: IsChain(g, chain) && chain[|chain| - 1] == name
  }

  lemma RootReachable(g: Graph, name: string)
    requires name in g.roots
    ensures Reachable(g, name)
  {
    assert IsChain(g, [name]);
  }

  lemma NextReachable(g: Graph, name: string, next: string)
    requires Reachable(g, name) && next in g.next(name)
    ensures Reachable(g, next)
  {
    var chain :| IsChain(g, chain) && chain[|chain| - 1] == name;
    var longer := chain + [next];
    assert IsChain(g, longer) && longer[|longer| - 1] == next;
  }

  lemma {:induction false} ChainStaysInside(g: Graph, inside: set<string>, chain: seq<string>)
    requires IsChain(g, chain) && g.roots <= inside
    requires forall name :: name in inside ==> g.next(name) <= inside
    ensures chain[|chain| - 1] in inside
    decreases |chain|
  {
    if |chain| > 1 {
      var shorter := chain[..|chain| - 1];
      assert IsChain(g, shorter);
      ChainStaysInside(g, inside, shorter);
      assert chain[|chain| - 2 + 1] in g.next(chain[|chain| - 2]);
    }
  }

  function GraphOf(document: Fields): Graph {
    Graph(Roots(document), name => Next(document, name))
  }

  /** Some request refers to the schema, directly or through other schemas. */
  ghost predicate RequestReachable(document: Fields, name: string) {
    Reachable(GraphOf(document), name)
  }

  /** Every name that can come up: those of the requests, and those anywhere in the schemas. */
  function Universe(document: Fields): set<string> {
    Roots(document) + SchemaRefs(Obj(SchemasOf(document)))
  }

  lemma NextInUniverse(document: Fields, name: string)
    ensures Next(document, name) <= Universe(document)
  {
    var schemas := SchemasOf(document);
    GetIs(schemas, name);
    if Get(schemas, name).Some? {
      var f :| f in schemas && f.key == name && f.value == Get(schemas, name).value;
      var i :| 0 <= i < |schemas| && schemas[i] == f;
      forall other | other in SchemaRefs(f.value)
        ensures other in SchemaRefs(Obj(schemas))
      {
        assert other in SchemaRefs(schemas[i].value);
      }
    }
  }

  function Members(list: seq<string>): set<string> {
    set name | name in list
  }

  /** The elements of a set, in the order an iteration happens to meet them. */
  method Elements(names: set<string>) returns (list: seq<string>)
    ensures Members(list) == names
  {
    list := [];
    var rest := names;
    while rest != {}
      invariant rest <= names
      invariant forall name :: name in list <==> name in names - rest
      decreases rest
    {
      var name :| name in rest;
      list := list + [name];
      rest := rest - {name};
    }
  }

  method RootNames(operations: seq<Operation>) returns (pending: seq<string>)
    ensures Members(pending) == AllRefs(operations)
  {
    pending := [];
    for i := 0 to |operations|
      invariant Members(pending) + AllRefs(operations[i..]) == AllRefs(operations)
    {
      var body := Elements(SchemaRefs(ValueAt(operations[i].body, "requestBody")));
      var parameters := Elements(SchemaRefs(ValueAt(operations[i].body, "parameters")));
      Extended(pending, body, parameters);
      pending := pending + body + parameters;
    }
  }

  lemma Extended(a: seq<string>, b: seq<string>, c: seq<string>)
    ensures Members(a + b + c) == Members(a) + Members(b) + Members(c)
  {
  }

  /** What has been found is reachable; the schemas named by a discovered one, and the roots, have been found. */
  ghost predicate OnTheWay(g: Graph, universe: set<string>, discovered: set<string>, found: set<string>) {
    && discovered <= found <= universe
    && g.roots <= found
    && (forall name :: name in found ==> Reachable(g, name))
    && (forall name :: name in discovered ==> g.next(name) <= found)
  }

  lemma Expand(g: Graph, universe: set<string>, discovered: set<string>, found: set<string>, name: string)
    requires OnTheWay(g, universe, discovered, found) && name in found && g.next(name) <= universe
    ensures OnTheWay(g, universe, discovered + {name}, found + g.next(name))
  {
    forall next | next in g.next(name)
      ensures Reachable(g, next)
    {
      NextReachable(g, name, next);
    }
  }

  lemma Finish(g: Graph, universe: set<string>, discovered: set<string>)
    requires OnTheWay(g, universe, discovered, discovered)
    ensures forall name :: name in discovered <==> Reachable(g, name)
  {
    forall name | Reachable(g, name)
      ensures name in discovered
    {
      var chain :| IsChain(g, chain) && chain[|chain| - 1] == name;
      ChainStaysInside(g, discovered, chain);
    }
  }

  lemma Popped(pending: seq<string>, discovered: set<string>)
    requires pending != [] && pending[|pending| - 1] in discovered
    ensures discovered + Members(pending) == discovered + Members(pending[..|pending| - 1])
  {
    assert pending == pending[..|pending| - 1] + [pending[|pending| - 1]];
  }

  lemma Replaced(pending: seq<string>, discovered: set<string>, names: seq<string>)
    requires pending != []
    ensures var name, rest := pending[|pending| - 1], pending[..|pending| - 1];
      discovered + {name} + Members(rest + names) == discovered + Members(pending) + Members(names)
  {
    assert pending == pending[..|pending| - 1] + [pending[|pending| - 1]];
  }

  /** The worklist stops, and has then discovered exactly what is reachable. */
  method Discover(g: Graph, roots: seq<string>, ghost universe: set<string>) returns (discovered: set<string>)
    requires Members(roots) == g.roots <= universe && forall name :: g.next(name) <= universe
    ensures forall name :: name in discovered <==> Reachable(g, name)
  {
    var pending := roots;
    discovered := {};
    forall name | name in g.roots
      ensures Reachable(g, name)
    {
      RootReachable(g, name);
    }
    ghost var found := g.roots;
    while pending != []
      invariant OnTheWay(g, universe, discovered, found)
      invariant found == discovered + Members(pending)
      decreases universe - discovered, |pending|
    {
      var name, rest := pending[|pending| - 1], pending[..|pending| - 1];
      assert name in Members(pending);
      if name in discovered {
        Popped(pending, discovered);
        pending := rest;
      } else {
        var names := Elements(g.next(name));
        Expand(g, universe, discovered, found, name);
        Replaced(pending, discovered, names);
        discovered, pending, found := discovered + {name}, rest + names, found + g.next(name);
      }
    }
    assert found == discovered;
    Finish(g, universe, discovered);
  }

  method RequestSchemaNames(document: Fields) returns (discovered: set<string>)
    ensures forall name :: name in discovered <==> RequestReachable(document, name)
  {
    var roots := RootNames(OperationItems(document));
    forall name
      ensures Next(document, name) <= Universe(document)
    {
      NextInUniverse(document, name);
    }
    discovered := Discover(GraphOf(document), roots, Universe(document));
  }
}
