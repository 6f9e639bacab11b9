/**
 What the compatibility checker reads off a document, said of the document's own fields: its operations, their
 parameters and which of these are required, and the schemas a value refers to.
 */
module ContractReadings {
  import opened Wrappers
  import opened Text
  import opened JsonDocuments
  import opened SchemaReferences
  import opened SchemaResolution
  import opened PropertyShapes
  import opened SchemaUnfolding
  import opened ApiCompatibility

  // ----- Operations -----

  /** The method of an operation, in lower case. */
  predicate IsVerb(verb: string) {
    || verb == "get" || verb == "put" || verb == "post" || verb == "delete"
    || verb == "options" || verb == "head" || verb == "patch"
  }

  /** The entry of a path item is this operation: an object under a method's name, however it is capitalized. */
  predicate IsOperation(entry: Field, verb: string, body: Fields) {
    Lower(entry.key) == verb && IsVerb(verb) && entry.value == Obj(body)
  }

  /** The document has this operation: an entry of an object among its paths. */
  predicate HasOperation(document: Fields, path: string, verb: string, body: Fields) {
    exists item, entry :: item in ObjectAt(document, "paths") && item.key == path && item.value.Obj?
      && entry in item.value.fields && IsOperation(entry, verb, body)
  }

  lemma {:induction false} PathMembers(path: string, entries: Fields, o: Operation)
    ensures o in PathOperations(path, entries)
       <==> o.path == path && exists entry :: entry in entries && IsOperation(entry, o.verb, o.body)
  {
    hide Lower;
    if entries != [] {
      PathMembers(path, entries[1..], o);
      assert forall entry :: entry in entries <==> entry == entries[0] || entry in entries[1..];
      var rest := PathOperations(path, entries[1..]);
      if o in PathOperations(path, entries) && o !in rest {
        assert IsOperation(entries[0], o.verb, o.body);
      }
      if o.path == path && IsOperation(entries[0], o.verb, o.body) {
        assert o == Operation(path, Lower(entries[0].key), entries[0].value.fields);
      }
    }
  }

  predicate HasIn(paths: Fields, o: Operation) {
    exists item, entry :: item in paths && item.key == o.path && item.value.Obj?
      && entry in item.value.fields && IsOperation(entry, o.verb, o.body)
  }

  lemma {:induction false} PathsMembers(paths: Fields, o: Operation)
    ensures o in AllOperations(paths) <==> HasIn(paths, o)
  {
    hide IsOperation;
    if paths != [] {
      PathsMembers(paths[1..], o);
      assert forall item :: item in paths <==> item == paths[0] || item in paths[1..];
      if paths[0].value.Obj? {
        PathMembers(paths[0].key, paths[0].value.fields, o);
      }
    }
  }

  lemma OperationMembers(document: Fields, o: Operation)
    ensures o in OperationItems(document) <==> HasOperation(document, o.path, o.verb, o.body)
  {
    PathsMembers(ObjectAt(document, "paths"), o);
  }

  lemma {:induction false} MapMembers(operations: seq<Operation>, path: string, verb: string)
    ensures (path, verb) in OperationMap(operations) <==> exists o :: o in operations && o.path == path && o.verb == verb
    ensures (path, verb) in OperationMap(operations) ==>
      Operation(path, verb, OperationMap(operations)[(path, verb)]) in operations
  {
    if operations != [] {
      var last, front := operations[|operations| - 1], operations[..|operations| - 1];
      MapMembers(front, path, verb);
      assert forall o :: o in operations <==> o == last || o in front;
    }
  }

  /** The operations compared are those of the document, by path and method. */
  lemma OperationsMean(document: Fields, path: string, verb: string)
    ensures (path, verb) in Operations(document) <==> exists body :: HasOperation(document, path, verb, body)
    ensures (path, verb) in Operations(document) ==>
      HasOperation(document, path, verb, Operations(document)[(path, verb)])
  {
    hide HasOperation, OperationItems;
    MapMembers(OperationItems(document), path, verb);
    if o :| o in OperationItems(document) && o.path == path && o.verb == verb {
      OperationMembers(document, o);
      OperationMembers(document, Operation(path, verb, Operations(document)[(path, verb)]));
    }
    if body :| HasOperation(document, path, verb, body) {
      OperationMembers(document, Operation(path, verb, body));
    }
  }

  /** A removed operation is reported exactly if the earlier document has it and the later one does not. */
  lemma RemovedMeans(baseline: Fields, current: Fields, path: string, verb: string)
    requires Readable(baseline)
    ensures Breaks(baseline, current, RemovedOperation((path, verb))) <==>
      && (exists body :: HasOperation(baseline, path, verb, body))
      && (forall body :: !HasOperation(current, path, verb, body))
  {
    hide HasOperation, Operations, Readable, Judge;
    OperationsMean(baseline, path, verb);
    OperationsMean(current, path, verb);
    var c := RemovedOperation((path, verb));
    var before, after := Operations(baseline), Operations(current);
    if (path, verb) in before && (path, verb) !in after {
      assert OperationBreaks((path, verb), before[(path, verb)], ApiCompatibility.Lookup(after, (path, verb)), c);
    }
    NoSchemaChange(baseline, current, c);
  }

  lemma NoSchemaChange(baseline: Fields, current: Fields, c: Change)
    requires Readable(baseline) && c.RemovedOperation?
    ensures !SchemasBreak(baseline, current, DepthFor(baseline, current), c)
  {
    hide Judge, RequestReachable, DepthFor, PropertyShape;
  }

  // ----- Parameters -----

  /** The operation lists this object as a parameter of this place and name. */
  predicate HasParameter(operation: Fields, key: ParameterKey, parameter: Fields) {
    && ValueAt(parameter, "in") == key.0 && ValueAt(parameter, "name") == key.1
    && match Get(operation, "parameters")
       case Some(Arr(items)) => Obj(parameter) in items
       case _ => false
  }

  lemma {:induction false} ObjectMembers(items: seq<Json>, o: Fields)
    ensures o in Objects(items) <==> Obj(o) in items
  {
    if items != [] {
      ObjectMembers(items[1..], o);
      assert Obj(o) in items <==> Obj(o) == items[0] || Obj(o) in items[1..];
    }
  }

  lemma {:induction false} ParameterMembers(parameters: seq<Fields>, key: ParameterKey)
    ensures var all := ParameterMap(parameters);
      && (key in all <==> exists p :: p in parameters && (ValueAt(p, "in"), ValueAt(p, "name")) == key)
      && (key in all ==> all[key] in parameters && (ValueAt(all[key], "in"), ValueAt(all[key], "name")) == key)
  {
    hide ValueAt;
    if parameters != [] {
      var last, front := parameters[|parameters| - 1], parameters[..|parameters| - 1];
      ParameterMembers(front, key);
      assert forall p :: p in parameters <==> p == last || p in front;
    }
  }

  /** The parameters compared are the objects an operation lists, by place and name. */
  lemma ParametersMean(operation: Fields, key: ParameterKey)
    ensures key in Parameters(operation) <==> exists p :: HasParameter(operation, key, p)
    ensures key in Parameters(operation) ==> HasParameter(operation, key, Parameters(operation)[key])
  {
    hide ValueAt, Get;
    var listed := ObjectsAt(operation, "parameters");
    ParameterMembers(listed, key);
    forall p
      ensures HasParameter(operation, key, p) <==> p in listed && (ValueAt(p, "in"), ValueAt(p, "name")) == key
    {
      match Get(operation, "parameters") {
        case Some(Arr(items)) => ObjectMembers(items, p);
        case _ =>
      }
    }
  }

  /** A parameter is required exactly if it says so with anything but null, false, zero or an empty value. */
  lemma RequiredMeans(parameter: Fields)
    ensures IsRequired(parameter) <==>
      match Get(parameter, "required")
      case None => false
      case Some(v) =>
        && v != Null && v != Bool(false) && v != Num(0.0) && v != Str("") && v != Arr([]) && v != Obj([])
  {
  }

  // ----- What else is read -----

  /** A list at a key, read as the set of its members. */
  predicate Lists(fields: Fields, key: string, value: Json) {
    match Get(fields, key)
    case Some(Arr(items)) => value in items
    case _ => false
  }

  /** The object at a path of two keys holds this entry. */
  predicate HoldsAt(document: Fields, first: string, second: string, f: Field) {
    match Get(document, first)
    case Some(Obj(inner)) =>
      (match Get(inner, second)
       case Some(Obj(entries)) => f in entries
       case _ => false)
    case _ => false
  }

  /** The schemas compared are the entries of the document's components, and their properties are their entries. */
  lemma SectionsMean(document: Fields, f: Field)
    ensures f in SchemasOf(document) <==> HoldsAt(document, "components", "schemas", f)
    ensures f in Properties(document) <==>
      match Get(document, "properties")
      case Some(Obj(entries)) => f in entries
      case _ => false
  {
  }

  lemma NavigateKey(value: Json, key: string, rest: seq<string>)
    ensures Navigate(value, [key] + rest) ==
      if value.Obj? && Get(value.fields, key).Some? then Navigate(Get(value.fields, key).value, rest) else None
  {
    assert ([key] + rest)[1..] == rest;
  }

  lemma NavigateThree(document: Fields, name: string)
    ensures match ObjectIn(SchemasOf(document), name)
            case Some(schema) => Navigate(Obj(document), ["components", "schemas", name]) == Some(Obj(schema))
            case None => (match Navigate(Obj(document), ["components", "schemas", name])
                          case Some(found) => !found.Obj?
                          case None => true)
  {
    hide Navigate, Get;
    var components, schemas := Get(document, "components"), ObjectAt(document, "components");
    assert ["components", "schemas", name] == ["components"] + ["schemas", name];
    assert ["schemas", name] == ["schemas"] + [name] && [name] == [name] + [];
    NavigateKey(Obj(document), "components", ["schemas", name]);
    NothingIn(name);
    NothingIn("schemas");
    if components.Some? {
      NavigateKey(components.value, "schemas", [name]);
      if components.value.Obj? && Get(schemas, "schemas").Some? {
        NavigateKey(Get(schemas, "schemas").value, name, []);
        var found := Get(SchemasOf(document), name);
        if found.Some? {
          NavigateEnd(found.value);
        }
      }
    }
  }

  lemma NothingIn(key: string)
    ensures Get([], key) == None
  {
  }

  lemma NavigateEnd(value: Json)
    ensures Navigate(value, []) == Some(value)
  {
  }

  /** A reference to a schema of the document leads to its entry, if that is an object. */
  lemma SchemaTarget(document: Fields, name: string)
    ensures match ObjectIn(SchemasOf(document), name)
            case Some(schema) => Target(document, Pointer(["components", "schemas", name])) == Resolved(schema)
            case None => Target(document, Pointer(["components", "schemas", name])).Invalid?
  {
    hide Navigate, Target, SchemasOf, ObjectIn, Pointer;
    TargetOfPointer(document, ["components", "schemas", name]);
    NavigateThree(document, name);
  }

  /** A later operation of the same path and method replaces an earlier one, and so does a later parameter. */
  lemma LaterReplaces(operations: seq<Operation>, o: Operation, parameters: seq<Fields>, p: Fields)
    ensures OperationMap(operations + [o]) == OperationMap(operations)[(o.path, o.verb) := o.body]
    ensures ParameterMap(parameters + [p]) == ParameterMap(parameters)[(ValueAt(p, "in"), ValueAt(p, "name")) := p]
  {
    assert (operations + [o])[..|operations|] == operations && (parameters + [p])[..|parameters|] == parameters;
  }

  /** The values of a property are those listed by the nearest object along its references that says any. */
  lemma EnumsMean(property: Fields, document: Fields, n: nat, items: seq<Json>)
    requires Resolve(property, document, []).Resolved?
    ensures NearestAt(property, document, "enum", n, Arr(items)) ==>
      forall value :: value in SchemaEnum(property, document) <==> value in items
    ensures NowhereAlong(property, document, "enum") ==> SchemaEnum(property, document) == {}
  {
    hide Resolve, NearestAt, NowhereAlong, Get;
    ResolvedSays(property, document, "enum", n, Arr(items));
  }

  /** The responses, values and required fields compared are those an operation or a schema lists. */
  lemma ListsMean(fields: Fields, response: string, value: Json)
    ensures response in Responses(fields) <==> exists f :: f in ObjectAt(fields, "responses") && f.key == response
    ensures value in EnumOf(fields) <==> Lists(fields, "enum", value)
    ensures value in RequiredFields(fields) <==> Lists(fields, "required", value)
  {
  }

  // ----- References -----

  /** The text ends in a slash and the name, which has none itself. */
  predicate EndsIn(text: string, name: string) {
    && '/' !in name && |name| < |text|
    && text[|text| - |name| - 1] == '/' && text[|text| - |name|..] == name
  }

  lemma EndsInRest(text: string, name: string)
    requires |name| + 1 < |text|
    ensures EndsIn(text, name) <==> EndsIn(text[1..], name)
  {
    assert text[1..][|text| - 1 - |name|..] == text[|text| - |name|..];
  }

  lemma {:induction false} LastSlash(text: string, name: string)
    requires '/' in text
    ensures AfterLastSlash(text) == name <==> EndsIn(text, name)
  {
    var rest := text[1..];
    assert text == [text[0]] + rest;
    if |name| + 1 < |text| {
      EndsInRest(text, name);
    }
    if '/' in rest {
      LastSlash(rest, name);
    } else {
      assert AfterLastSlash(rest) == rest;
    }
  }

  /** The object refers to the schema: its `$ref` is a text that begins like a reference to one and ends in the name. */
  predicate RefersTo(o: Fields, name: string) {
    match Get(o, "$ref")
    case Some(Str(reference)) => "#/components/schemas/" <= reference && EndsIn(reference, name)
    case _ => false
  }

  lemma OwnSchemaMeans(o: Fields, name: string)
    ensures name in OwnSchema(o) <==> RefersTo(o, name)
  {
    match OwnReference(o) {
      case Some(reference) =>
        if SCHEMA_PREFIX <= reference {
          assert reference[1] == '/';
          LastSlash(reference, name);
        }
      case None =>
    }
  }

  /** The schemas of a value are those some object anywhere inside it refers to. */
  lemma {:induction false} RefsMean(value: Json, name: string)
    ensures name in SchemaRefs(value) <==> exists o :: o in SubObjects(value) && RefersTo(o, name)
    decreases value
  {
    hide OwnSchema, RefersTo;
    match value {
      case Obj(fields) =>
        OwnSchemaMeans(fields, name);
        forall i | 0 <= i < |fields|
          ensures name in SchemaRefs(fields[i].value) <==> exists o :: o in SubObjects(fields[i].value) && RefersTo(o, name)
        {
          RefsMean(fields[i].value, name);
        }
      case Arr(items) =>
        forall i | 0 <= i < |items|
          ensures name in SchemaRefs(items[i]) <==> exists o :: o in SubObjects(items[i]) && RefersTo(o, name)
        {
          RefsMean(items[i], name);
        }
      case _ =>
    }
  }

  /** An object inside the request body or the parameters of an operation refers to the schema. */
  ghost predicate Refers(body: Fields, part: string, o: Fields, name: string) {
    part in {"requestBody", "parameters"} && o in SubObjects(ValueAt(body, part)) && RefersTo(o, name)
  }

  /** The requests of a document name a schema exactly if an operation's body or parameters refer to it. */
  lemma RootsMean(document: Fields, name: string)
    ensures name in Roots(document) <==>
      exists path, verb, body, part, o :: HasOperation(document, path, verb, body) && Refers(body, part, o, name)
  {
    hide HasOperation, SubObjects, RefersTo, SchemaRefs;
    forall op
      ensures op in OperationItems(document) <==> HasOperation(document, op.path, op.verb, op.body)
    {
      OperationMembers(document, op);
    }
    forall body
      ensures name in SchemaRefs(ValueAt(body, "requestBody"))
         <==> exists o :: o in SubObjects(ValueAt(body, "requestBody")) && RefersTo(o, name)
      ensures name in SchemaRefs(ValueAt(body, "parameters"))
         <==> exists o :: o in SubObjects(ValueAt(body, "parameters")) && RefersTo(o, name)
    {
      RefsMean(ValueAt(body, "requestBody"), name);
      RefsMean(ValueAt(body, "parameters"), name);
    }
    forall path, verb, body, part, o | HasOperation(document, path, verb, body) && Refers(body, part, o, name)
      ensures name in Roots(document)
    {
      assert Operation(path, verb, body) in OperationItems(document);
      assert name in OperationRefs(Operation(path, verb, body));
    }
    if name in Roots(document) {
      var op :| op in OperationItems(document) && name in OperationRefs(op);
      var part := if name in SchemaRefs(ValueAt(op.body, "requestBody")) then "requestBody" else "parameters";
      var o :| o in SubObjects(ValueAt(op.body, part)) && RefersTo(o, name);
      assert Refers(op.body, part, o, name);
    }
  }
}
