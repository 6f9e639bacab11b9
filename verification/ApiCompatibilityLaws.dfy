/** "No breaking change" as an order on documents: when it is reflexive and when it composes. */
module ApiCompatibilityLaws {
  import opened Wrappers
  import opened Text
  import opened JsonDocuments
  import opened SchemaReferences
  import opened SchemaResolution
  import opened PropertyShapes
  import opened SchemaUnfolding
  import opened ApiCompatibility

  // ----- Compatibility, said without the list of changes -----

  /** Clients of the earlier operation can use the later one. */
  predicate OperationServes(before: Fields, after: Fields) {
    && Responses(before) <= Responses(after)
    && (forall p :: p in Parameters(before) ==>
          p in Parameters(after) && (IsRequired(Parameters(after)[p]) ==> IsRequired(Parameters(before)[p])))
    && (forall p :: p in Parameters(after) && IsRequired(Parameters(after)[p]) ==> p in Parameters(before))
  }

  predicate OperationsServe(before: map<OperationKey, Fields>, after: map<OperationKey, Fields>) {
    forall key :: key in before ==> key in after && OperationServes(before[key], after[key])
  }

  /** A property compared by what is met when it is unfolded: references that resolve, and facets at every path. */
  ghost function Met(before: Fields, after: Option<Fields>, baseline: Fields, current: Fields): Verdict {
    if after.None? then Removed
    else if !MetResolve(before, baseline) || !MetResolve(after.value, current) then Unreadable
    else if !SameFacets(before, baseline, after.value, current) then Reshaped
    else if !(SchemaEnum(before, baseline) <= SchemaEnum(after.value, current)) then Narrowed
    else Fine
  }

  ghost predicate PropertyKept(p: Field, after: Fields, baseline: Fields, current: Fields)
    requires p.value.Obj?
  {
    Met(p.value.fields, ObjectIn(after, p.key), baseline, current).Fine?
  }

  ghost predicate SchemaKept(before: Fields, after: Fields, baseline: Fields, current: Fields)
    requires AllObjects(Properties(before))
  {
    && ValueAt(before, "type") == ValueAt(after, "type")
    && EnumOf(before) <= EnumOf(after)
    && forall p :: p in Properties(before) ==> PropertyKept(p, Properties(after), baseline, current)
  }

  ghost predicate FieldKept(f: Field, after: Fields, baseline: Fields, current: Fields)
    requires IsSchema(f)
  {
    var schema := ObjectIn(after, f.key);
    && schema.Some?
    && SchemaKept(f.value.fields, schema.value, baseline, current)
    && (RequestReachable(current, f.key) ==> RequiredFields(schema.value) <= RequiredFields(f.value.fields))
  }

  ghost predicate SchemasKept(baseline: Fields, current: Fields)
    requires Readable(baseline)
  {
    forall f :: f in SchemasOf(baseline) ==> FieldKept(f, SchemasOf(current), baseline, current)
  }

  // ----- Documents whose properties unfold to an end -----

  lemma FoundField(fields: Fields, key: string) returns (f: Field)
    requires ObjectIn(fields, key).Some?
    ensures f in fields && f.key == key && f.value == Obj(ObjectIn(fields, key).value)
  {
    GetIs(fields, key);
    f :| f in fields && f.key == key && f.value == Get(fields, key).value;
  }

  lemma ObjectFieldInside(fields: Fields, f: Field)
    requires f in fields
    ensures SubObjects(f.value) <= SubObjects(Obj(fields))
  {
    var i :| 0 <= i < |fields| && fields[i] == f;
    FieldInside(fields, i);
  }

  lemma EntryOfInside(fields: Fields, key: string, f: Field)
    requires f in ObjectAt(fields, key)
    ensures SubObjects(f.value) <= SubObjects(Obj(fields))
  {
    GetInside(fields, key);
    ObjectFieldInside(ObjectAt(fields, key), f);
  }

  predicate IsProperty(document: Fields, f: Field, p: Field) {
    f in SchemasOf(document) && f.value.Obj? && p in Properties(f.value.fields) && p.value.Obj?
  }

  /** A property has no objects but those of its document. */
  lemma PropertyDepth(document: Fields, f: Field, p: Field)
    requires IsProperty(document, f, p)
    ensures Depth(p.value.fields, document) == Size(document)
  {
    var components := ObjectAt(document, "components");
    EntryOfInside(f.value.fields, "properties", p);
    EntryOfInside(components, "schemas", f);
    GetInside(components, "schemas");
    GetInside(document, "components");
    assert ObjectsWithin(p.value.fields, document) == SubObjects(Obj(document));
  }

  /** If some depth is enough for a document, the number of objects in it is. */
  lemma SettlesIff(document: Fields)
    ensures (exists depth: nat :: Settles(document, depth)) <==> Ends(document)
  {
    if depth: nat :| Settles(document, depth) {
      forall f, p | IsProperty(document, f, p)
        ensures !TooDeepAt(p.value.fields, document, Size(document))
      {
        assert !TooDeepAt(p.value.fields, document, depth);
        PropertyDepth(document, f, p);
        EndsIff(p.value.fields, document);
      }
      SettlesBy(document, Size(document));
    }
  }

  lemma SettlesBy(document: Fields, depth: nat)
    requires forall f, p :: IsProperty(document, f, p) ==> !TooDeepAt(p.value.fields, document, depth)
    ensures Settles(document, depth)
  {
    forall f, p | f in SchemasOf(document) && f.value.Obj? && p in Properties(f.value.fields) && p.value.Obj?
      ensures !PropertyShape(p.value.fields, document, depth).TooDeep?
    {
      assert IsProperty(document, f, p);
      assert !TooDeepAt(p.value.fields, document, depth);
    }
  }

  /** No property of any schema meets a schema twice. */
  ghost predicate AcyclicDocument(document: Fields) {
    forall f, p :: IsProperty(document, f, p) ==> Acyclic(p.value.fields, document)
  }

  /** Every acyclic document settles within the number of objects in it. */
  lemma AcyclicDocumentEnds(document: Fields)
    requires AcyclicDocument(document)
    ensures Ends(document)
  {
    forall f, p | IsProperty(document, f, p)
      ensures !TooDeepAt(p.value.fields, document, Size(document))
    {
      PropertyDepth(document, f, p);
      AcyclicEnds(p.value.fields, document);
    }
    SettlesBy(document, Size(document));
  }

  /** A property that unfolds to an end does so at every depth from the number of objects in its document on. */
  lemma PropertyEnds(document: Fields, f: Field, p: Field, depth: nat, more: nat)
    requires IsProperty(document, f, p) && !TooDeepAt(p.value.fields, document, depth) && more >= Size(document)
    ensures !TooDeepAt(p.value.fields, document, more)
  {
    hide PropertyShape;
    PropertyDepth(document, f, p);
    EndsIff(p.value.fields, document);
    DepthIsEnough(p.value.fields, document, Size(document), more);
  }

  /** What is compared are properties of the two documents. */
  lemma ComparedProperties(baseline: Fields, current: Fields, f: Field, p: Field, q: Fields)
    returns (g: Field, r: Field)
    requires Compares(baseline, current, f, p, q)
    ensures IsProperty(baseline, f, p) && IsProperty(current, g, r) && r.value == Obj(q)
  {
    g := FoundField(SchemasOf(current), f.key);
    r := FoundField(Properties(g.value.fields), p.key);
  }

  /** If some depth is enough to compare two documents, the number of objects in them is. */
  lemma ComparableIff(baseline: Fields, current: Fields)
    ensures (exists depth: nat :: PairsSettle(baseline, current, depth)) <==> Comparable(baseline, current)
  {
    if depth: nat :| PairsSettle(baseline, current, depth) {
      forall f, p, q | Compares(baseline, current, f, p, q)
        ensures PairSettles(p.value.fields, q, baseline, current, DepthFor(baseline, current))
      {
        assert PairSettles(p.value.fields, q, baseline, current, depth);
        PairComparable(baseline, current, f, p, q, depth);
      }
    }
  }

  lemma PairComparable(baseline: Fields, current: Fields, f: Field, p: Field, q: Fields, depth: nat)
    requires Compares(baseline, current, f, p, q)
    requires PairSettles(p.value.fields, q, baseline, current, depth)
    ensures PairSettles(p.value.fields, q, baseline, current, DepthFor(baseline, current))
  {
    hide PropertyShape;
    var enough := DepthFor(baseline, current);
    var g, r := ComparedProperties(baseline, current, f, p, q);
    PropertyEnds(baseline, f, p, depth, enough);
    DepthIrrelevant(p.value.fields, baseline, depth, enough);
    if IsShaped(p.value.fields, baseline, depth) {
      PropertyEnds(current, g, r, depth, enough);
    }
  }

  /** Documents that settle on their own can be compared. */
  lemma EndsComparable(baseline: Fields, current: Fields)
    requires Ends(baseline) && Ends(current)
    ensures Comparable(baseline, current)
  {
    var enough := DepthFor(baseline, current);
    forall f, p, q | Compares(baseline, current, f, p, q)
      ensures PairSettles(p.value.fields, q, baseline, current, enough)
    {
      var g, r := ComparedProperties(baseline, current, f, p, q);
      PropertyEnds(baseline, f, p, Size(baseline), enough);
      PropertyEnds(current, g, r, Size(current), enough);
    }
  }

  // ----- What one property comparison means -----

  /**
   Where both properties unfold to an end, or the earlier to a broken reference, the comparison of their shapes and
   values is the comparison of what is met: whether every schema resolves, and what it says of itself at every path.
   */
  lemma JudgeMeans(before: Fields, after: Option<Fields>, baseline: Fields, current: Fields, depth: nat)
    requires after.Some? ==> PairSettles(before, after.value, baseline, current, depth)
    ensures Judge(before, after, baseline, current, depth) == Met(before, after, baseline, current)
  {
    if after.Some? {
      BrokenIff(before, baseline, depth);
      if IsShaped(before, baseline, depth) {
        BrokenIff(after.value, current, depth);
        if IsShaped(after.value, current, depth) {
          SameShapeIff(before, baseline, after.value, current, depth);
        }
      }
    }
  }

  predicate Settled(p: Field, after: Fields, baseline: Fields, current: Fields, depth: nat)
    requires p.value.Obj?
  {
    var q := ObjectIn(after, p.key);
    q.Some? ==> PairSettles(p.value.fields, q.value, baseline, current, depth)
  }

  /** Which change is reported of a property, by what is met when it is unfolded on both sides. */
  lemma ChangesMean(name: string, p: Field, after: Fields, baseline: Fields, current: Fields, depth: nat)
    requires p.value.Obj? && Settled(p, after, baseline, current, depth)
    ensures var met := Met(p.value.fields, ObjectIn(after, p.key), baseline, current);
      forall c :: PropertyChanged(name, p, after, baseline, current, depth, c) <==>
        || (c == RemovedProperty(name, p.key) && met == Removed)
        || (c == InvalidPropertyReference(name, p.key) && met == Unreadable)
        || (c == PropertyShapeChanged(name, p.key) && met == Reshaped)
        || (c == PropertyEnumValuesRemoved(name, p.key) && met == Narrowed)
  {
    hide Judge, Met, Settled;
    SettledJudge(p, after, baseline, current, depth);
  }

  lemma SettledJudge(p: Field, after: Fields, baseline: Fields, current: Fields, depth: nat)
    requires p.value.Obj? && Settled(p, after, baseline, current, depth)
    ensures Judge(p.value.fields, ObjectIn(after, p.key), baseline, current, depth)
         == Met(p.value.fields, ObjectIn(after, p.key), baseline, current)
  {
    JudgeMeans(p.value.fields, ObjectIn(after, p.key), baseline, current, depth);
  }

  predicate AllSettled(before: Fields, after: Fields, baseline: Fields, current: Fields, depth: nat)
    requires AllObjects(before)
  {
    forall p :: p in before ==> Settled(p, after, baseline, current, depth)
  }

  lemma PropertiesSettled(f: Field, schema: Fields, baseline: Fields, current: Fields, depth: nat)
    requires f in SchemasOf(baseline) && IsSchema(f) && ObjectIn(SchemasOf(current), f.key) == Some(schema)
    requires PairsSettle(baseline, current, depth)
    ensures AllSettled(Properties(f.value.fields), Properties(schema), baseline, current, depth)
  {
    forall p | p in Properties(f.value.fields)
      ensures Settled(p, Properties(schema), baseline, current, depth)
    {
      var q := ObjectIn(Properties(schema), p.key);
      if q.Some? {
        assert Compares(baseline, current, f, p, q.value);
      }
    }
  }

  // ----- Compatibility and the list of changes -----

  lemma OperationIff(key: OperationKey, before: Fields, after: Option<Fields>)
    ensures (forall c :: !OperationBreaks(key, before, after, c)) <==>
            after.Some? && OperationServes(before, after.value)
  {
    if forall c :: !OperationBreaks(key, before, after, c) {
      assert !OperationBreaks(key, before, after, RemovedOperation(key));
      forall response | response in Responses(before)
        ensures response in Responses(after.value)
      {
        assert !OperationBreaks(key, before, after, RemovedResponse(key, response));
      }
      forall p
        ensures p in Parameters(before) ==> p in Parameters(after.value)
        ensures p in Parameters(before) && IsRequired(Parameters(after.value)[p]) ==> IsRequired(Parameters(before)[p])
        ensures p in Parameters(after.value) && IsRequired(Parameters(after.value)[p]) ==> p in Parameters(before)
      {
        assert !OperationBreaks(key, before, after, RemovedParameter(key, p));
        assert !OperationBreaks(key, before, after, ParameterBecameRequired(key, p));
        assert !OperationBreaks(key, before, after, NewRequiredParameter(key, p));
      }
    }
  }

  lemma OperationsIff(baseline: Fields, current: Fields)
    ensures (forall c :: !OperationsBreak(baseline, current, c)) <==>
            OperationsServe(Operations(baseline), Operations(current))
  {
    var before, after := Operations(baseline), Operations(current);
    forall key | key in before
      ensures (forall c :: !OperationBreaks(key, before[key], Lookup(after, key), c)) <==>
              key in after && OperationServes(before[key], after[key])
    {
      OperationIff(key, before[key], Lookup(after, key));
    }
    if forall c :: !OperationsBreak(baseline, current, c) {
      forall key, c | key in before
        ensures !OperationBreaks(key, before[key], Lookup(after, key), c)
      {
        assert !OperationsBreak(baseline, current, c);
      }
    }
  }

  lemma PropertyIff(name: string, p: Field, after: Fields, baseline: Fields, current: Fields, depth: nat)
    requires p.value.Obj? && Settled(p, after, baseline, current, depth)
    ensures (forall c :: !PropertyChanged(name, p, after, baseline, current, depth, c)) <==>
            PropertyKept(p, after, baseline, current)
  {
    JudgeMeans(p.value.fields, ObjectIn(after, p.key), baseline, current, depth);
    var change := PropertyChange(name, p.key, Judge(p.value.fields, ObjectIn(after, p.key), baseline, current, depth));
    if change.Some? {
      assert PropertyChanged(name, p, after, baseline, current, depth, change.value);
    }
  }

  lemma PropertiesIff(name: string, before: Fields, after: Fields, baseline: Fields, current: Fields, depth: nat)
    requires AllObjects(before) && AllSettled(before, after, baseline, current, depth)
    ensures (forall c :: !PropertiesBreak(name, before, after, baseline, current, depth, c)) <==>
            (forall p :: p in before ==> PropertyKept(p, after, baseline, current))
  {
    forall p | p in before
      ensures (forall c :: !PropertyChanged(name, p, after, baseline, current, depth, c)) <==>
              PropertyKept(p, after, baseline, current)
    {
      PropertyIff(name, p, after, baseline, current, depth);
    }
    if forall c :: !PropertiesBreak(name, before, after, baseline, current, depth, c) {
      forall p, c | p in before
        ensures !PropertyChanged(name, p, after, baseline, current, depth, c)
      {
        assert !PropertiesBreak(name, before, after, baseline, current, depth, c);
      }
    }
  }

  lemma NoneLeft(a: set<Json>, b: set<Json>)
    ensures a - b == {} <==> a <= b
  {
    if a - b == {} {
      forall v | v in a
        ensures v in b
      {
        assert v !in a - b;
      }
    }
  }

  lemma SchemaIff(
      name: string, before: Fields, after: Fields, baseline: Fields, current: Fields, requested: bool, depth: nat)
    requires AllObjects(Properties(before))
    requires AllSettled(Properties(before), Properties(after), baseline, current, depth)
    ensures (forall c :: !SchemaBreaks(name, before, Some(after), baseline, current, requested, depth, c)) <==>
      && SchemaKept(before, after, baseline, current)
      && (requested ==> RequiredFields(after) <= RequiredFields(before))
  {
    PropertiesIff(name, Properties(before), Properties(after), baseline, current, depth);
    NoneLeft(RequiredFields(after), RequiredFields(before));
    if forall c :: !SchemaBreaks(name, before, Some(after), baseline, current, requested, depth, c) {
      assert !SchemaBreaks(name, before, Some(after), baseline, current, requested, depth, SchemaTypeChanged(name));
      assert !SchemaBreaks(name, before, Some(after), baseline, current, requested, depth,
                           SchemaEnumValuesRemoved(name));
      assert !SchemaBreaks(name, before, Some(after), baseline, current, requested, depth, NewRequiredFields(name));
      forall c
        ensures !PropertiesBreak(name, Properties(before), Properties(after), baseline, current, depth, c)
      {
        assert !SchemaBreaks(name, before, Some(after), baseline, current, requested, depth, c);
      }
    }
  }

  lemma FieldIff(f: Field, baseline: Fields, current: Fields, depth: nat)
    requires f in SchemasOf(baseline) && IsSchema(f) && PairsSettle(baseline, current, depth)
    ensures (forall c :: !SchemaChanged(f, SchemasOf(current), baseline, current, depth, c)) <==>
            FieldKept(f, SchemasOf(current), baseline, current)
  {
    var after := SchemasOf(current);
    var schema, requested := ObjectIn(after, f.key), RequestReachable(current, f.key);
    if schema.None? {
      assert SchemaChanged(f, after, baseline, current, depth, RemovedSchema(f.key));
    } else {
      PropertiesSettled(f, schema.value, baseline, current, depth);
      SchemaIff(f.key, f.value.fields, schema.value, baseline, current, requested, depth);
      assert forall c :: SchemaChanged(f, after, baseline, current, depth, c) <==>
        SchemaBreaks(f.key, f.value.fields, schema, baseline, current, requested, depth, c);
    }
  }

  lemma SchemasIff(baseline: Fields, current: Fields, depth: nat)
    requires Readable(baseline) && PairsSettle(baseline, current, depth)
    ensures (forall c :: !SchemasBreak(baseline, current, depth, c)) <==> SchemasKept(baseline, current)
  {
    forall f | f in SchemasOf(baseline)
      ensures (forall c :: !SchemaChanged(f, SchemasOf(current), baseline, current, depth, c)) <==>
              FieldKept(f, SchemasOf(current), baseline, current)
    {
      FieldIff(f, baseline, current, depth);
    }
    if forall c :: !SchemasBreak(baseline, current, depth, c) {
      forall f, c | f in SchemasOf(baseline)
        ensures !SchemaChanged(f, SchemasOf(current), baseline, current, depth, c)
      {
        assert !SchemasBreak(baseline, current, depth, c);
      }
    }
  }

  lemma CompatibleAtIff(baseline: Fields, current: Fields, depth: nat)
    requires Readable(baseline) && PairsSettle(baseline, current, depth)
    ensures CompatibleAt(baseline, current, depth) <==>
      OperationsServe(Operations(baseline), Operations(current)) && SchemasKept(baseline, current)
  {
    OperationsIff(baseline, current);
    SchemasIff(baseline, current, depth);
    if CompatibleAt(baseline, current, depth) {
      forall c
        ensures !OperationsBreak(baseline, current, c) && !SchemasBreak(baseline, current, depth, c)
      {
        assert !BreaksAt(baseline, current, depth, c);
      }
    }
  }

  /** The verdict is the same at every depth that is enough for what is compared. */
  lemma AnyDepth(baseline: Fields, current: Fields, m: nat, n: nat)
    requires Readable(baseline)
    requires PairsSettle(baseline, current, m) && PairsSettle(baseline, current, n)
    ensures CompatibleAt(baseline, current, m) <==> CompatibleAt(baseline, current, n)
  {
    CompatibleAtIff(baseline, current, m);
    CompatibleAtIff(baseline, current, n);
  }

  /** No change is listed exactly if every operation still serves its clients and every schema is kept. */
  lemma CompatibleIff(baseline: Fields, current: Fields)
    requires Readable(baseline) && Comparable(baseline, current)
    ensures Compatible(baseline, current) <==>
      OperationsServe(Operations(baseline), Operations(current)) && SchemasKept(baseline, current)
  {
    CompatibleAtIff(baseline, current, DepthFor(baseline, current));
  }

  // ----- Reflexivity -----

  /** Every schema met when unfolding a property resolves. */
  ghost predicate ReferencesResolve(document: Fields)
    requires Readable(document)
  {
    forall f :: f in SchemasOf(document) ==>
      forall p :: p in Properties(f.value.fields) ==> MetResolve(p.value.fields, document)
  }

  lemma OperationsServeThemselves(operations: map<OperationKey, Fields>)
    ensures OperationsServe(operations, operations)
  {
  }

  lemma PropertyOfItself(p: Field, fields: Fields, document: Fields)
    requires AllObjects(fields) && p in fields
    ensures PropertyKept(p, fields, document, document) <==> MetResolve(p.value.fields, document)
  {
    FieldIsFound(fields, p);
  }

  lemma SchemaOfItself(f: Field, document: Fields)
    requires Readable(document) && f in SchemasOf(document)
    ensures FieldKept(f, SchemasOf(document), document, document) <==>
            forall p :: p in Properties(f.value.fields) ==> MetResolve(p.value.fields, document)
  {
    FieldIsFound(SchemasOf(document), f);
    assert IsSchema(f);
    forall p | p in Properties(f.value.fields)
      ensures PropertyKept(p, Properties(f.value.fields), document, document) <==> MetResolve(p.value.fields, document)
    {
      PropertyOfItself(p, Properties(f.value.fields), document);
    }
  }

  /** A document is compatible with itself exactly if every schema its properties meet resolves. */
  lemma ReflexiveIff(document: Fields)
    requires Readable(document) && Comparable(document, document)
    ensures Compatible(document, document) <==> ReferencesResolve(document)
  {
    CompatibleIff(document, document);
    OperationsServeThemselves(Operations(document));
    forall f | f in SchemasOf(document)
      ensures FieldKept(f, SchemasOf(document), document, document) <==>
              forall p :: p in Properties(f.value.fields) ==> MetResolve(p.value.fields, document)
    {
      SchemaOfItself(f, document);
    }
  }

  // ----- Composition -----

  lemma ServeThrough(a: Fields, b: Fields, c: Fields)
    requires OperationServes(a, b) && OperationServes(b, c)
    ensures OperationServes(a, c)
  {
  }

  lemma OperationsThrough(
      a: map<OperationKey, Fields>, b: map<OperationKey, Fields>, c: map<OperationKey, Fields>)
    requires OperationsServe(a, b) && OperationsServe(b, c)
    ensures OperationsServe(a, c)
  {
    forall key | key in a
      ensures key in c && OperationServes(a[key], c[key])
    {
      ServeThrough(a[key], b[key], c[key]);
    }
  }

  lemma MetThrough(x: Fields, y: Option<Fields>, z: Option<Fields>, a: Fields, b: Fields, c: Fields)
    requires Met(x, y, a, b).Fine? && y.Some? && Met(y.value, z, b, c).Fine?
    ensures Met(x, z, a, c).Fine?
  {
    hide MetResolve, FacetAt, SchemaEnum;
    assert SameFacets(x, a, z.value, c) by {
      forall path
        ensures FacetAt(x, a, path) == FacetAt(z.value, c, path)
      {
        assert FacetAt(x, a, path) == FacetAt(y.value, b, path);
        assert FacetAt(y.value, b, path) == FacetAt(z.value, c, path);
      }
    }
  }

  lemma PropertyThrough(p: Field, y: Fields, z: Fields, a: Fields, b: Fields, c: Fields)
    requires p.value.Obj? && AllObjects(y) && PropertyKept(p, y, a, b)
    requires forall q :: q in y ==> PropertyKept(q, z, b, c)
    ensures PropertyKept(p, z, a, c)
  {
    var q := FoundField(y, p.key);
    MetThrough(p.value.fields, ObjectIn(y, p.key), ObjectIn(z, p.key), a, b, c);
  }

  lemma SchemaThrough(x: Fields, y: Fields, z: Fields, a: Fields, b: Fields, c: Fields)
    requires AllObjects(Properties(x)) && AllObjects(Properties(y))
    requires SchemaKept(x, y, a, b) && SchemaKept(y, z, b, c)
    ensures SchemaKept(x, z, a, c)
  {
    forall p | p in Properties(x)
      ensures PropertyKept(p, Properties(z), a, c)
    {
      PropertyThrough(p, Properties(y), Properties(z), a, b, c);
    }
  }

  /** A schema that only the last document's requests reach must not have gained required fields. */
  ghost predicate NoLateDemand(f: Field, middle: Fields, last: Fields)
    requires f.value.Obj?
  {
    RequestReachable(last, f.key) && !RequestReachable(middle, f.key) ==>
      match ObjectIn(SchemasOf(last), f.key)
      case Some(schema) => RequiredFields(schema) <= RequiredFields(f.value.fields)
      case None => true
  }

  lemma FieldThrough(f: Field, a: Fields, b: Fields, c: Fields)
    requires Readable(b) && IsSchema(f) && FieldKept(f, SchemasOf(b), a, b)
    requires SchemasKept(b, c)
    ensures FieldKept(f, SchemasOf(c), a, c) <==> NoLateDemand(f, b, c)
  {
    var g := FoundField(SchemasOf(b), f.key);
    assert IsSchema(g) && FieldKept(g, SchemasOf(c), b, c);
    SchemaThrough(f.value.fields, g.value.fields, ObjectIn(SchemasOf(c), f.key).value, a, b, c);
  }

  /** A property that is kept twice on the way is one that can be compared directly. */
  lemma PairThrough(a: Fields, b: Fields, c: Fields, f: Field, p: Field, r: Fields)
    requires Readable(a) && Readable(b) && Comparable(a, b) && Comparable(b, c)
    requires SchemasKept(a, b) && SchemasKept(b, c) && Compares(a, c, f, p, r)
    ensures PairSettles(p.value.fields, r, a, c, DepthFor(a, c))
  {
    hide PropertyShape, SchemaEnum, SameFacets, RequestReachable, RequiredFields, EnumOf;
    assert IsSchema(f) && FieldKept(f, SchemasOf(b), a, b);
    var g := FoundField(SchemasOf(b), f.key);
    assert IsSchema(g) && FieldKept(g, SchemasOf(c), b, c);
    assert PropertyKept(p, Properties(g.value.fields), a, b);
    var q := FoundField(Properties(g.value.fields), p.key);
    assert PropertyKept(q, Properties(ObjectIn(SchemasOf(c), f.key).value), b, c);
    assert Compares(a, b, f, p, q.value.fields) && Compares(b, c, g, q, r);
    PairKept(a, b, f, p, q.value.fields);
    PairKept(b, c, g, q, r);
    var h, last := ComparedProperties(b, c, g, q, r);
    PropertyEnds(a, f, p, DepthFor(a, b), DepthFor(a, c));
    PropertyEnds(c, h, last, DepthFor(b, c), DepthFor(a, c));
  }

  /** Both sides of a pair that can be compared, and whose references resolve, unfold to an end. */
  lemma PairKept(a: Fields, b: Fields, f: Field, p: Field, q: Fields)
    requires Comparable(a, b) && Compares(a, b, f, p, q) && MetResolve(p.value.fields, a)
    ensures !TooDeepAt(p.value.fields, a, DepthFor(a, b)) && !TooDeepAt(q, b, DepthFor(a, b))
  {
    assert PairSettles(p.value.fields, q, a, b, DepthFor(a, b));
    BrokenIff(p.value.fields, a, DepthFor(a, b));
  }

  lemma ComparableThrough(a: Fields, b: Fields, c: Fields)
    requires Readable(a) && Readable(b) && Comparable(a, b) && Comparable(b, c)
    requires SchemasKept(a, b) && SchemasKept(b, c)
    ensures Comparable(a, c)
  {
    forall f, p, r | Compares(a, c, f, p, r)
      ensures PairSettles(p.value.fields, r, a, c, DepthFor(a, c))
    {
      PairThrough(a, b, c, f, p, r);
    }
  }

  /**
   Of two compatible steps the whole can be compared too, and it is compatible exactly if no schema's added
   required fields come into use only in the last document.
   */
  lemma TransitiveIff(a: Fields, b: Fields, c: Fields)
    requires Readable(a) && Readable(b) && Comparable(a, b) && Comparable(b, c)
    requires Compatible(a, b) && Compatible(b, c)
    ensures Comparable(a, c)
    ensures Compatible(a, c) <==> forall f :: f in SchemasOf(a) ==> NoLateDemand(f, b, c)
  {
    hide Comparable, Compatible;
    CompatibleIff(a, b);
    CompatibleIff(b, c);
    ComparableThrough(a, b, c);
    CompatibleIff(a, c);
    OperationsThrough(Operations(a), Operations(b), Operations(c));
    forall f | f in SchemasOf(a)
      ensures FieldKept(f, SchemasOf(c), a, c) <==> NoLateDemand(f, b, c)
    {
      FieldThrough(f, a, b, c);
    }
  }

  /** It composes if whatever the last document's requests reach, the middle one's did. */
  lemma Transitive(a: Fields, b: Fields, c: Fields)
    requires Readable(a) && Readable(b) && Comparable(a, b) && Comparable(b, c)
    requires Compatible(a, b) && Compatible(b, c)
    requires forall f :: f in SchemasOf(a) && RequestReachable(c, f.key) ==> RequestReachable(b, f.key)
    ensures Comparable(a, c) && Compatible(a, c)
  {
    TransitiveIff(a, b, c);
  }

  // Three documents with one schema: without required fields, with one, and with one and in use by a request.

  function WithSchema(schema: Fields): Fields {
    [Field("components", Obj([Field("schemas", Obj([Field("S", Obj(schema))]))]))]
  }

  const PLAIN: Fields := []
  const DEMANDING: Fields := [Field("required", Arr([Str("x")]))]
  const REFERENCE: Fields := [Field("$ref", Str(SCHEMA_PREFIX + "S"))]
  const POST: Fields := [Field("requestBody", Obj(REFERENCE))]
  const PATHS: Fields := [Field("/p", Obj([Field("post", Obj(POST))]))]
  const USED: Fields := WithSchema(DEMANDING) + [Field("paths", Obj(PATHS))]

  lemma SchemasOfThese(schema: Fields)
    ensures SchemasOf(WithSchema(schema)) == [Field("S", Obj(schema))]
    ensures Operations(WithSchema(schema)) == map[] && Roots(WithSchema(schema)) == {}
  {
    var document := WithSchema(schema);
    assert Get(document, "components") == Some(Obj([Field("schemas", Obj([Field("S", Obj(schema))]))]));
    assert Get(document[..0], "paths") == None && Get(document, "paths") == None;
    assert OperationItems(document) == [];
  }

  lemma ReferenceNamesSchema()
    ensures "S" in OperationRefs(Operation("/p", "post", POST))
  {
    assert Get(POST, "requestBody") == Some(Obj(REFERENCE));
    assert OwnReference(REFERENCE) == Some(SCHEMA_PREFIX + "S");
    ReferenceNames(REFERENCE, "S");
  }

  lemma OperationOfPaths()
    ensures AllOperations(PATHS) == [Operation("/p", "post", POST)]
  {
    var items := [Field("post", Obj(POST))];
    assert Lower("post") == "post";
    assert PathOperations("/p", items[1..]) == [];
    assert PathOperations("/p", items) == [Operation("/p", "post", POST)];
    assert AllOperations(PATHS[1..]) == [];
  }

  lemma SchemasOfUsed()
    ensures SchemasOf(USED) == [Field("S", Obj(DEMANDING))]
    ensures "S" in Roots(USED)
  {
    assert USED[..1] == WithSchema(DEMANDING);
    assert Get(USED, "components") == Get(WithSchema(DEMANDING), "components");
    SchemasOfThese(DEMANDING);
    assert Get(USED, "paths") == Some(Obj(PATHS));
    OperationOfPaths();
    ReferenceNamesSchema();
    assert Operation("/p", "post", POST) in OperationItems(USED);
  }

  lemma NothingRequested(document: Fields, name: string)
    requires Roots(document) == {}
    ensures !RequestReachable(document, name)
  {
  }

  lemma KeptInThese(document: Fields, schema: Fields, before: Fields)
    requires SchemasOf(document) == [Field("S", Obj(schema))]
    requires schema == DEMANDING && (before == DEMANDING || (before == PLAIN && Roots(document) == {}))
    ensures FieldKept(Field("S", Obj(before)), SchemasOf(document), WithSchema(before), document)
  {
    if before == PLAIN {
      NothingRequested(document, "S");
    }
    assert Get([Field("S", Obj(schema))], "S") == Some(Obj(schema));
    NoOtherKeys(before);
    NoOtherKeys(schema);
  }

  lemma NoOtherKeys(schema: Fields)
    requires schema == DEMANDING || schema == PLAIN
    ensures ValueAt(schema, "type") == Null && EnumOf(schema) == {} && Properties(schema) == []
    ensures RequiredFields(schema) == if schema == PLAIN then {} else {Str("x")}
  {
    assert DEMANDING[..0] == PLAIN;
    assert forall key :: Get(PLAIN, key) == None;
  }

  lemma LateDemandBreaks(a: Fields, b: Fields, c: Fields, f: Field, schema: Fields)
    requires Readable(a) && Readable(b) && Comparable(a, b) && Comparable(b, c) && Compatible(a, b) && Compatible(b, c)
    requires f in SchemasOf(a) && ObjectIn(SchemasOf(c), f.key) == Some(schema)
    requires !RequestReachable(b, f.key) && RequestReachable(c, f.key)
    requires !(RequiredFields(schema) <= RequiredFields(f.value.fields))
    ensures Comparable(a, c) && !Compatible(a, c)
  {
    TransitiveIff(a, b, c);
    assert !NoLateDemand(f, b, c);
  }

  lemma OneSchemaCompatible(a: Fields, b: Fields, f: Field)
    requires SchemasOf(a) == [f] && IsSchema(f) && Operations(a) == map[] && Comparable(a, b)
    requires FieldKept(f, SchemasOf(b), a, b)
    ensures Readable(a) && Compatible(a, b)
  {
    assert Readable(a);
    CompatibleIff(a, b);
  }

  lemma TheseEnd(document: Fields, schema: Fields)
    requires SchemasOf(document) == [Field("S", Obj(schema))] && (schema == PLAIN || schema == DEMANDING)
    ensures Ends(document)
  {
    NoOtherKeys(schema);
  }

  lemma TheseCompatible(before: Fields, after: Fields)
    requires before == PLAIN || before == DEMANDING
    requires SchemasOf(after) == [Field("S", Obj(DEMANDING))] && (before == PLAIN ==> Roots(after) == {})
    ensures Comparable(WithSchema(before), after)
    ensures Readable(WithSchema(before)) && Compatible(WithSchema(before), after)
  {
    SchemasOfThese(before);
    NoOtherKeys(before);
    TheseEnd(WithSchema(before), before);
    TheseEnd(after, DEMANDING);
    EndsComparable(WithSchema(before), after);
    KeptInThese(after, DEMANDING, before);
    OneSchemaCompatible(WithSchema(before), after, Field("S", Obj(before)));
  }

  lemma Demands(document: Fields)
    requires SchemasOf(document) == [Field("S", Obj(DEMANDING))]
    ensures ObjectIn(SchemasOf(document), "S") == Some(DEMANDING)
    ensures !(RequiredFields(DEMANDING) <= RequiredFields(PLAIN))
  {
    NoOtherKeys(PLAIN);
    NoOtherKeys(DEMANDING);
    assert Str("x") in RequiredFields(DEMANDING);
  }

  /** A required field added while no request used the schema breaks nothing, nor does using it then; both do. */
  lemma CompositionCanFail()
    ensures Readable(WithSchema(PLAIN)) && Readable(WithSchema(DEMANDING))
    ensures Comparable(WithSchema(PLAIN), WithSchema(DEMANDING)) && Compatible(WithSchema(PLAIN), WithSchema(DEMANDING))
    ensures Comparable(WithSchema(DEMANDING), USED) && Compatible(WithSchema(DEMANDING), USED)
    ensures Comparable(WithSchema(PLAIN), USED) && !Compatible(WithSchema(PLAIN), USED)
  {
    SchemasOfThese(PLAIN);
    SchemasOfThese(DEMANDING);
    SchemasOfUsed();
    TheseCompatible(PLAIN, WithSchema(DEMANDING));
    TheseCompatible(DEMANDING, USED);
    NothingRequested(WithSchema(DEMANDING), "S");
    RootReachable(GraphOf(USED), "S");
    Demands(USED);
    LateDemandBreaks(WithSchema(PLAIN), WithSchema(DEMANDING), USED, Field("S", Obj(PLAIN)), DEMANDING);
  }
}
