/** Which changes between two OpenAPI documents break clients, and the order on documents this makes. */
module ApiCompatibility {
  import opened Wrappers
  import opened JsonDocuments
  import opened SchemaReferences
  import opened SchemaResolution
  import opened PropertyShapes
  import opened SchemaUnfolding

  type OperationKey = (string, string)

  /** Where a parameter stands and what it is called. */
  type ParameterKey = (Json, Json)

  datatype Change =
    | RemovedOperation(operation: OperationKey)
    | RemovedResponse(operation: OperationKey, response: string)
    | RemovedParameter(operation: OperationKey, parameter: ParameterKey)
    | ParameterBecameRequired(operation: OperationKey, parameter: ParameterKey)
    | NewRequiredParameter(operation: OperationKey, parameter: ParameterKey)
    | RemovedSchema(name: string)
    | SchemaTypeChanged(name: string)
    | SchemaEnumValuesRemoved(name: string)
    | RemovedProperty(name: string, property: string)
    | InvalidPropertyReference(name: string, property: string)
    | PropertyShapeChanged(name: string, property: string)
    | PropertyEnumValuesRemoved(name: string, property: string)
    | NewRequiredFields(name: string)

  // ----- Reading a document -----

  /** The operations by path and method; a later one replaces an earlier one. */
  function OperationMap(operations: seq<Operation>): map<OperationKey, Fields> {
    if operations == [] then map[]
    else
      var last := operations[|operations| - 1];
      OperationMap(operations[..|operations| - 1])[(last.path, last.verb) := last.body]
  }

  function Operations(document: Fields): map<OperationKey, Fields> {
    OperationMap(OperationItems(document))
  }

  function ParameterMap(parameters: seq<Fields>): map<ParameterKey, Fields> {
    if parameters == [] then map[]
    else
      var last := parameters[|parameters| - 1];
      ParameterMap(parameters[..|parameters| - 1])[(ValueAt(last, "in"), ValueAt(last, "name")) := last]
  }

  function Parameters(operation: Fields): map<ParameterKey, Fields> {
    ParameterMap(ObjectsAt(operation, "parameters"))
  }

  function Responses(operation: Fields): set<string> {
    KeysOf(ObjectAt(operation, "responses"))
  }

  /** Python's truth value. */
  predicate Truthy(value: Json) {
    match value
    case Null => false
    case Bool(b) => b
    case Num(n) => n != 0.0
    case Str(text) => text != ""
    case Arr(items) => items != []
    case Obj(fields) => fields != []
  }

  predicate IsRequired(parameter: Fields) {
    Truthy(ValueAt(parameter, "required"))
  }

  function RequiredFields(schema: Fields): set<Json> {
    match Get(schema, "required")
    case Some(Arr(items)) => set v | v in items
    case _ => {}
  }

  /** An object at a key, if there is one. */
  function ObjectIn(fields: Fields, key: string): Option<Fields> {
    match Get(fields, key)
    case Some(Obj(inner)) => Some(inner)
    case _ => None
  }

  function Properties(schema: Fields): Fields {
    ObjectAt(schema, "properties")
  }

  predicate AllObjects(fields: Fields) {
    UniqueKeys(fields) && forall f :: f in fields ==> f.value.Obj?
  }

  predicate IsSchema(f: Field) {
    f.value.Obj? && AllObjects(Properties(f.value.fields))
  }

  /** Schemas and their properties are objects, which is what the comparison expects of a baseline. */
  predicate Readable(document: Fields) {
    UniqueKeys(SchemasOf(document)) && forall f :: f in SchemasOf(document) ==> IsSchema(f)
  }

  /** Unfolding each property of each schema ends within this depth. */
  predicate Settles(document: Fields, depth: nat) {
    forall f :: f in SchemasOf(document) && f.value.Obj? ==>
      forall p :: p in Properties(f.value.fields) && p.value.Obj? ==>
        !PropertyShape(p.value.fields, document, depth).TooDeep?
  }

  /** The number of objects in a document. */
  function Size(document: Fields): nat {
    |SubObjects(Obj(document))|
  }

  /** Unfolding each property ends; if it does at all, it does within the size of the document. */
  predicate Ends(document: Fields) {
    Settles(document, Size(document))
  }

  /** The property `p` of the schema `f` is compared with `q`: schema and property are in both documents. */
  predicate Compares(baseline: Fields, current: Fields, f: Field, p: Field, q: Fields) {
    && f in SchemasOf(baseline) && f.value.Obj? && p in Properties(f.value.fields) && p.value.Obj?
    && match ObjectIn(SchemasOf(current), f.key)
       case Some(schema) => ObjectIn(Properties(schema), p.key) == Some(q)
       case None => false
  }

  /** The earlier property unfolds to an end, and so does the later one unless the earlier is broken. */
  predicate PairSettles(before: Fields, after: Fields, baseline: Fields, current: Fields, depth: nat) {
    && !TooDeepAt(before, baseline, depth)
    && (IsShaped(before, baseline, depth) ==> !TooDeepAt(after, current, depth))
  }

  /** Whatever is unfolded to compare the documents settles at this depth. */
  ghost predicate PairsSettle(baseline: Fields, current: Fields, depth: nat) {
    forall f, p, q :: Compares(baseline, current, f, p, q) ==>
      PairSettles(p.value.fields, q, baseline, current, depth)
  }

  /** A depth at which what is compared settles if it does at all. */
  function DepthFor(baseline: Fields, current: Fields): nat {
    Size(baseline) + Size(current)
  }

  /** Comparing the documents ends: what is unfolded for it does. */
  ghost predicate Comparable(baseline: Fields, current: Fields) {
    PairsSettle(baseline, current, DepthFor(baseline, current))
  }

  // ----- What breaks -----

  predicate OperationBreaks(key: OperationKey, before: Fields, after: Option<Fields>, c: Change) {
    match c
    case RemovedOperation(k) => k == key && after.None?
    case RemovedResponse(k, response) =>
      k == key && after.Some? && response in Responses(before) - Responses(after.value)
    case RemovedParameter(k, p) =>
      k == key && after.Some? && p in Parameters(before) && p !in Parameters(after.value)
    case ParameterBecameRequired(k, p) =>
      && k == key && after.Some? && p in Parameters(before) && p in Parameters(after.value)
      && !IsRequired(Parameters(before)[p]) && IsRequired(Parameters(after.value)[p])
    case NewRequiredParameter(k, p) =>
      && k == key && after.Some? && p !in Parameters(before) && p in Parameters(after.value)
      && IsRequired(Parameters(after.value)[p])
    case _ => false
  }

  function Lookup(operations: map<OperationKey, Fields>, key: OperationKey): Option<Fields> {
    if key in operations then Some(operations[key]) else None
  }

  predicate OperationsBreak(baseline: Fields, current: Fields, c: Change) {
    exists key :: key in Operations(baseline)
               && OperationBreaks(key, Operations(baseline)[key], Lookup(Operations(current), key), c)
  }

  datatype Verdict = Fine | Removed | Unreadable | Reshaped | Narrowed

  /** How a property compares: it must be there, resolve on both sides, keep its shape and its values. */
  function Judge(before: Fields, after: Option<Fields>, baseline: Fields, current: Fields, depth: nat): Verdict {
    if after.None? then Removed
    else
      var oldShape, newShape := PropertyShape(before, baseline, depth), PropertyShape(after.value, current, depth);
      if oldShape.Broken? || newShape.Broken? then Unreadable
      else if oldShape != newShape then Reshaped
      else if !(SchemaEnum(before, baseline) <= SchemaEnum(after.value, current)) then Narrowed
      else Fine
  }

  function PropertyChange(name: string, property: string, verdict: Verdict): Option<Change> {
    match verdict
    case Fine => None
    case Removed => Some(RemovedProperty(name, property))
    case Unreadable => Some(InvalidPropertyReference(name, property))
    case Reshaped => Some(PropertyShapeChanged(name, property))
    case Narrowed => Some(PropertyEnumValuesRemoved(name, property))
  }

  predicate PropertyChanged(
      name: string, p: Field, after: Fields, baseline: Fields, current: Fields, depth: nat, c: Change)
    requires p.value.Obj?
  {
    PropertyChange(name, p.key, Judge(p.value.fields, ObjectIn(after, p.key), baseline, current, depth)) == Some(c)
  }

  predicate PropertiesBreak(
      name: string, before: Fields, after: Fields, baseline: Fields, current: Fields, depth: nat, c: Change)
    requires AllObjects(before)
  {
    exists p :: p in before && PropertyChanged(name, p, after, baseline, current, depth, c)
  }

  predicate SchemaBreaks(
      name: string, before: Fields, after: Option<Fields>,
      baseline: Fields, current: Fields, requested: bool, depth: nat, c: Change)
    requires AllObjects(Properties(before))
  {
    if after.None? then c == RemovedSchema(name)
    else
      || (c == SchemaTypeChanged(name) && ValueAt(before, "type") != ValueAt(after.value, "type"))
      || (c == SchemaEnumValuesRemoved(name) && !(EnumOf(before) <= EnumOf(after.value)))
      || PropertiesBreak(name, Properties(before), Properties(after.value), baseline, current, depth, c)
      || (c == NewRequiredFields(name) && requested && RequiredFields(after.value) - RequiredFields(before) != {})
  }

  ghost predicate SchemaChanged(
      f: Field, after: Fields, baseline: Fields, current: Fields, depth: nat, c: Change)
    requires IsSchema(f)
  {
    SchemaBreaks(f.key, f.value.fields, ObjectIn(after, f.key), baseline, current,
                 RequestReachable(current, f.key), depth, c)
  }

  ghost predicate SchemasBreak(baseline: Fields, current: Fields, depth: nat, c: Change)
    requires Readable(baseline)
  {
    exists f :: f in SchemasOf(baseline) && SchemaChanged(f, SchemasOf(current), baseline, current, depth, c)
  }

  ghost predicate BreaksAt(baseline: Fields, current: Fields, depth: nat, c: Change)
    requires Readable(baseline)
  {
    OperationsBreak(baseline, current, c) || SchemasBreak(baseline, current, depth, c)
  }

  ghost predicate CompatibleAt(baseline: Fields, current: Fields, depth: nat)
    requires Readable(baseline)
  {
    forall c :: !BreaksAt(baseline, current, depth, c)
  }

  ghost predicate Breaks(baseline: Fields, current: Fields, c: Change)
    requires Readable(baseline)
  {
    BreaksAt(baseline, current, DepthFor(baseline, current), c)
  }

  ghost predicate Compatible(baseline: Fields, current: Fields)
    requires Readable(baseline)
  {
    CompatibleAt(baseline, current, DepthFor(baseline, current))
  }

  // ----- The comparison -----

  method CompareOperation(key: OperationKey, before: Fields, after: Option<Fields>) returns (breaking: seq<Change>)
    ensures forall c :: c in breaking <==> OperationBreaks(key, before, after, c)
  {
    breaking := [];
    if after.None? {
      return [RemovedOperation(key)];
    }
    var removed := Responses(before) - Responses(after.value);
    var oldParameters, newParameters := Parameters(before), Parameters(after.value);
    breaking := CompareResponses(key, removed);
    var dropped := CompareOldParameters(key, oldParameters, newParameters);
    var added := CompareNewParameters(key, oldParameters, newParameters);
    breaking := breaking + dropped + added;
  }

  method CompareResponses(key: OperationKey, removed: set<string>) returns (breaking: seq<Change>)
    ensures forall c :: c in breaking <==> c.RemovedResponse? && c.operation == key && c.response in removed
  {
    breaking := [];
    var rest := removed;
    while rest != {}
      invariant rest <= removed
      invariant forall c :: c in breaking <==>
        c.RemovedResponse? && c.operation == key && c.response in removed && c.response !in rest
      decreases rest
    {
      var response :| response in rest;
      breaking := breaking + [RemovedResponse(key, response)];
      rest := rest - {response};
    }
  }

  predicate OldParameterBreaks(
      key: OperationKey, before: map<ParameterKey, Fields>, after: map<ParameterKey, Fields>, c: Change)
  {
    match c
    case RemovedParameter(k, p) => k == key && p in before && p !in after
    case ParameterBecameRequired(k, p) =>
      k == key && p in before && p in after && !IsRequired(before[p]) && IsRequired(after[p])
    case _ => false
  }

  method CompareOldParameters(key: OperationKey, before: map<ParameterKey, Fields>, after: map<ParameterKey, Fields>)
    returns (breaking: seq<Change>)
    ensures forall c :: c in breaking <==> OldParameterBreaks(key, before, after, c)
  {
    breaking := [];
    var rest := before.Keys;
    while rest != {}
      invariant rest <= before.Keys
      invariant forall c :: c in breaking <==> OldParameterBreaks(key, before, after, c) && c.parameter !in rest
      decreases rest
    {
      var p :| p in rest;
      if p !in after {
        breaking := breaking + [RemovedParameter(key, p)];
      } else if !IsRequired(before[p]) && IsRequired(after[p]) {
        breaking := breaking + [ParameterBecameRequired(key, p)];
      }
      rest := rest - {p};
    }
  }

  method CompareNewParameters(key: OperationKey, before: map<ParameterKey, Fields>, after: map<ParameterKey, Fields>)
    returns (breaking: seq<Change>)
    ensures forall c :: c in breaking <==>
      && c.NewRequiredParameter? && c.operation == key
      && c.parameter !in before && c.parameter in after && IsRequired(after[c.parameter])
  {
    breaking := [];
    var rest := after.Keys;
    while rest != {}
      invariant rest <= after.Keys
      invariant forall c :: c in breaking <==>
        && c.NewRequiredParameter? && c.operation == key && c.parameter !in rest
        && c.parameter !in before && c.parameter in after && IsRequired(after[c.parameter])
      decreases rest
    {
      var p :| p in rest;
      if p !in before && IsRequired(after[p]) {
        breaking := breaking + [NewRequiredParameter(key, p)];
      }
      rest := rest - {p};
    }
  }

  method CompareOperations(before: map<OperationKey, Fields>, after: map<OperationKey, Fields>)
    returns (breaking: seq<Change>)
    ensures forall c :: c in breaking <==> exists key :: key in before && OperationBreaks(key, before[key], Lookup(after, key), c)
  {
    breaking := [];
    var rest := before.Keys;
    while rest != {}
      invariant rest <= before.Keys
      invariant forall c :: c in breaking <==>
        exists key :: key in before && key !in rest && OperationBreaks(key, before[key], Lookup(after, key), c)
      decreases rest
    {
      var key :| key in rest;
      var more := CompareOperation(key, before[key], Lookup(after, key));
      breaking := breaking + more;
      rest := rest - {key};
    }
  }

  method CompareProperty(before: Fields, after: Option<Fields>, baseline: Fields, current: Fields, depth: nat)
    returns (verdict: Verdict)
    ensures verdict == Judge(before, after, baseline, current, depth)
  {
    if after.None? {
      return Removed;
    }
    var beforeShape := PropertyShape(before, baseline, depth);
    var afterShape := PropertyShape(after.value, current, depth);
    if beforeShape.Broken? || afterShape.Broken? {
      return Unreadable;
    }
    if beforeShape != afterShape {
      return Reshaped;
    }
    var beforeEnum, afterEnum := SchemaEnum(before, baseline), SchemaEnum(after.value, current);
    verdict := if beforeEnum <= afterEnum then Fine else Narrowed;
  }

  method CompareProperties(
      name: string, before: Fields, after: Fields, baseline: Fields, current: Fields, depth: nat)
    returns (breaking: seq<Change>)
    requires AllObjects(before)
    ensures forall c :: c in breaking <==> PropertiesBreak(name, before, after, baseline, current, depth, c)
  {
    breaking := [];
    for i := 0 to |before|
      invariant forall c :: c in breaking <==>
                            (exists k :: 0 <= k < i
                                      && PropertyChanged(name, before[k], after, baseline, current, depth, c))
    {
      assert before[i] in before;
      var verdict := CompareProperty(before[i].value.fields, ObjectIn(after, before[i].key), baseline, current, depth);
      var change := PropertyChange(name, before[i].key, verdict);
      if change.Some? {
        breaking := breaking + [change.value];
      }
    }
  }

  method CompareSchema(
      name: string, before: Fields, after: Option<Fields>,
      baseline: Fields, current: Fields, requested: bool, depth: nat)
    returns (breaking: seq<Change>)
    requires AllObjects(Properties(before))
    ensures forall c :: c in breaking <==> SchemaBreaks(name, before, after, baseline, current, requested, depth, c)
  {
    if after.None? {
      return [RemovedSchema(name)];
    }
    breaking := [];
    if ValueAt(before, "type") != ValueAt(after.value, "type") {
      breaking := breaking + [SchemaTypeChanged(name)];
    }
    if !(EnumOf(before) <= EnumOf(after.value)) {
      breaking := breaking + [SchemaEnumValuesRemoved(name)];
    }
    var changed := CompareProperties(name, Properties(before), Properties(after.value), baseline, current, depth);
    breaking := breaking + changed;
    var added := RequiredFields(after.value) - RequiredFields(before);
    if added != {} && requested {
      breaking := breaking + [NewRequiredFields(name)];
    }
  }

  method CompareField(f: Field, after: Fields, baseline: Fields, current: Fields, requested: bool, depth: nat)
    returns (breaking: seq<Change>)
    requires IsSchema(f) && (requested <==> RequestReachable(current, f.key))
    ensures forall c :: c in breaking <==> SchemaChanged(f, after, baseline, current, depth, c)
  {
    breaking := CompareSchema(f.key, f.value.fields, ObjectIn(after, f.key), baseline, current, requested, depth);
  }

  method CompareSchemas(
      before: Fields, after: Fields, baseline: Fields, current: Fields, requested: set<string>, depth: nat)
    returns (breaking: seq<Change>)
    requires forall f :: f in before ==> IsSchema(f)
    requires forall name :: name in requested <==> RequestReachable(current, name)
    ensures forall c :: c in breaking <==>
                        (exists f :: f in before && SchemaChanged(f, after, baseline, current, depth, c))
  {
    breaking := [];
    for i := 0 to |before|
      invariant forall c :: c in breaking <==>
                            (exists f :: f in before[..i] && SchemaChanged(f, after, baseline, current, depth, c))
    {
      assert before[i] in before;
      var more := CompareField(before[i], after, baseline, current, before[i].key in requested, depth);
      assert forall f :: f in before[..i + 1] <==> f in before[..i] || f == before[i];
      breaking := breaking + more;
    }
    assert before[..|before|] == before;
  }

  method CompareToDepth(baseline: Fields, current: Fields, depth: nat) returns (breaking: seq<Change>)
    requires Readable(baseline)
    ensures forall c :: c in breaking <==> BreaksAt(baseline, current, depth, c)
  {
    breaking := CompareOperations(Operations(baseline), Operations(current));
    var requested := RequestSchemaNames(current);
    var more := CompareSchemas(SchemasOf(baseline), SchemasOf(current), baseline, current, requested, depth);
    breaking := breaking + more;
  }

  /** Lists exactly the changes that break; none are listed exactly if the documents are compatible. */
  method CompareOpenapi(baseline: Fields, current: Fields) returns (breaking: seq<Change>)
    requires Readable(baseline) && Comparable(baseline, current)
    ensures forall c :: c in breaking <==> Breaks(baseline, current, c)
    ensures breaking == [] <==> Compatible(baseline, current)
  {
    hide Comparable, Readable, DepthFor, BreaksAt;
    breaking := CompareToDepth(baseline, current, DepthFor(baseline, current));
    if breaking != [] {
      assert breaking[0] in breaking;
    }
  }
}
