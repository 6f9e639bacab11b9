/** Resolving schema references inside one document, and when that succeeds. */
module SchemaResolution {
  import opened Wrappers
  import opened JsonDocuments
  import opened SchemaReferences

  datatype Failure =
    | Unsupported(reference: string)
    | Cyclic(reference: string)
    | Unresolved(reference: string)
    | NotAnObject(reference: string)

  datatype Resolution = Resolved(fields: Fields) | Invalid(failure: Failure)

  // ----- Following one reference -----

  function Navigate(value: Json, tokens: seq<string>): Option<Json>
    decreases |tokens|
  {
    if tokens == [] then Some(value)
    else
      match value
      case Obj(fields) =>
        (match Get(fields, tokens[0])
         case Some(inner) => Navigate(inner, tokens[1..])
         case None => None)
      case _ => None
  }

  /** The object a reference points at. */
  function Target(document: Fields, reference: string): Resolution {
    match Tokens(reference)
    case None => Invalid(Unsupported(reference))
    case Some(tokens) =>
      match Navigate(Obj(document), tokens)
      case None => Invalid(Unresolved(reference))
      case Some(Obj(fields)) => Resolved(fields)
      case Some(_) => Invalid(NotAnObject(reference))
  }

  /** A pointer printed for a path of keys is followed key by key. */
  lemma TargetOfPointer(document: Fields, tokens: seq<string>)
    requires tokens != []
    ensures Target(document, Pointer(tokens)) ==
      match Navigate(Obj(document), tokens)
      case None => Invalid(Unresolved(Pointer(tokens)))
      case Some(Obj(fields)) => Resolved(fields)
      case Some(_) => Invalid(NotAnObject(Pointer(tokens)))
  {
    PointerRoundTrip(tokens);
  }

  function OwnReferences(fields: Fields): set<string> {
    match OwnReference(fields)
    case Some(reference) => {reference}
    case None => {}
  }

  /** Every reference inside a value. */
  function References(value: Json): set<string> {
    match value
    case Obj(fields) =>
      OwnReferences(fields) + set i, r | 0 <= i < |fields| && r in References(fields[i].value) :: r
    case Arr(items) => set i, r | 0 <= i < |items| && r in References(items[i]) :: r
    case _ => {}
  }

  lemma {:induction false} NavigateInside(value: Json, tokens: seq<string>)
    ensures Navigate(value, tokens).Some? ==> References(Navigate(value, tokens).value) <= References(value)
    decreases |tokens|
  {
    if tokens != [] && value.Obj? && Get(value.fields, tokens[0]).Some? {
      var inner := Get(value.fields, tokens[0]).value;
      NavigateInside(inner, tokens[1..]);
      GetIs(value.fields, tokens[0]);
      var f :| f in value.fields && f.key == tokens[0] && f.value == inner;
      var i :| 0 <= i < |value.fields| && value.fields[i] == f;
      assert forall r :: r in References(value.fields[i].value) ==> r in References(value);
    }
  }

  lemma TargetInside(document: Fields, reference: string)
    ensures Target(document, reference).Resolved?
        ==> OwnReferences(Target(document, reference).fields) <= References(Obj(document))
  {
    if Tokens(reference).Some? {
      NavigateInside(Obj(document), Tokens(reference).value);
    }
  }

  // ----- Resolving -----

  function Put(fields: Fields, key: string, value: Json): (r: Fields)
    ensures forall k :: Get(r, k) == if k == key then Some(value) else Get(fields, k)
  {
    if fields == [] then [Field(key, value)]
    else
      var last := fields[|fields| - 1];
      if last.key == key then fields[..|fields| - 1] + [Field(key, value)]
      else
        var shorter := Put(fields[..|fields| - 1], key, value);
        assert forall k :: Get(shorter + [last], k) == if k == last.key then Some(last.value) else Get(shorter, k) by {
          assert (shorter + [last])[..|shorter|] == shorter;
        }
        shorter + [last]
  }

  /** `base` updated with every entry of `value` except its reference. */
  function Override(base: Fields, value: Fields): (r: Fields)
    ensures forall k :: Get(r, k) == if k != "$ref" && Get(value, k).Some? then Get(value, k) else Get(base, k)
  {
    if value == [] then base
    else
      var last := value[|value| - 1];
      var before := Override(base, value[..|value| - 1]);
      if last.key == "$ref" then before else Put(before, last.key, last.value)
  }

  function Seen(references: seq<string>): set<string> {
    set r | r in references
  }

  /** Terminates because each step takes one reference of the document that was not taken before. */
  function Resolve(value: Fields, document: Fields, references: seq<string>): Resolution
    decreases References(Obj(document)) + OwnReferences(value) - Seen(references)
  {
    match OwnReference(value)
    case None => Resolved(value)
    case Some(reference) =>
      if Tokens(reference).None? then Invalid(Unsupported(reference))
      else if reference in references then Invalid(Cyclic(reference))
      else
        match Target(document, reference)
        case Invalid(failure) => Invalid(failure)
        case Resolved(target) =>
          TargetInside(document, reference);
          var now := references + [reference];
          assert reference !in Seen(references) && Seen(now) == Seen(references) + {reference};
          match Resolve(target, document, now)
          case Invalid(failure) => Invalid(failure)
          case Resolved(base) => Resolved(Override(base, value))
  }

  /** What comes out of a resolution is no reference. */
  lemma {:induction false} ResolvedIsPlain(value: Fields, document: Fields, references: seq<string>)
    ensures var r := Resolve(value, document, references); r.Resolved? ==> OwnReference(r.fields).None?
    decreases References(Obj(document)) + OwnReferences(value) - Seen(references)
  {
    match OwnReference(value)
    case None =>
    case Some(reference) =>
      if Tokens(reference).Some? && reference !in references && Target(document, reference).Resolved? {
        TargetInside(document, reference);
        assert reference !in Seen(references) && Seen(references + [reference]) == Seen(references) + {reference};
        ResolvedIsPlain(Target(document, reference).fields, document, references + [reference]);
      }
  }

  // ----- When a reference resolves -----

  /** The object after following `n` references. */
  function Follow(value: Fields, document: Fields, n: nat): Option<Fields>
    decreases n
  {
    if n == 0 then Some(value)
    else
      match OwnReference(value)
      case None => None
      case Some(reference) =>
        match Target(document, reference)
        case Invalid(_) => None
        case Resolved(target) => Follow(target, document, n - 1)
  }

  predicate EndsAfter(value: Fields, document: Fields, n: nat) {
    Follow(value, document, n).Some? && OwnReference(Follow(value, document, n).value).None?
  }

  lemma {:induction false} FollowOn(value: Fields, document: Fields, n: nat, m: nat)
    ensures Follow(value, document, n + m) ==
      match Follow(value, document, n)
      case None => None
      case Some(there) => Follow(there, document, m)
    decreases n
  {
    if n > 0 && OwnReference(value).Some? && Target(document, OwnReference(value).value).Resolved? {
      FollowOn(Target(document, OwnReference(value).value).fields, document, n - 1, m);
    }
  }

  /** There is only one place to end. */
  lemma EndsOnce(value: Fields, document: Fields, n: nat, m: nat)
    requires EndsAfter(value, document, n) && EndsAfter(value, document, m)
    ensures n == m
  {
    if n < m {
      FollowOn(value, document, n, m - n);
    } else if m < n {
      FollowOn(value, document, m, n - m);
    }
  }

  predicate RefersAt(value: Fields, document: Fields, n: nat, reference: string) {
    Follow(value, document, n).Some? && OwnReference(Follow(value, document, n).value) == Some(reference)
  }

  lemma AfterReference(value: Fields, document: Fields, n: nat, reference: string)
    requires RefersAt(value, document, n, reference)
    ensures Follow(value, document, n + 1) ==
      match Target(document, reference)
      case Invalid(_) => None
      case Resolved(target) => Some(target)
  {
    FollowOn(value, document, n, 1);
    if Target(document, reference).Resolved? {
      assert Follow(Target(document, reference).fields, document, 0) == Some(Target(document, reference).fields);
    }
  }

  /** A chain of references that ends takes no reference twice. */
  lemma EndsWithoutRepeat(value: Fields, document: Fields, n: nat, i: nat, j: nat, reference: string)
    requires EndsAfter(value, document, n) && i < j < n
    ensures !(RefersAt(value, document, i, reference) && RefersAt(value, document, j, reference))
  {
    if RefersAt(value, document, i, reference) && RefersAt(value, document, j, reference) {
      AfterReference(value, document, i, reference);
      AfterReference(value, document, j, reference);
      FollowOn(value, document, i + 1, n - i - 1);
      FollowOn(value, document, j + 1, n - i - 1);
      FollowOn(value, document, j + 1, n - j - 1);
      EndsOnce(value, document, n, j + 1 + (n - i - 1));
      assert false;
    }
  }

  lemma {:induction false} EndIsResolved(value: Fields, document: Fields, references: seq<string>, n: nat)
    requires EndsAfter(value, document, n)
    requires forall i: nat, r :: i < n && RefersAt(value, document, i, r) ==> r !in references
    ensures Resolve(value, document, references).Resolved?
    decreases n
  {
    if n > 0 {
      var reference := OwnReference(value).value;
      var target := Target(document, reference).fields;
      assert RefersAt(value, document, 0, reference);
      forall i: nat, r | i < n - 1 && RefersAt(target, document, i, r)
        ensures r !in references + [reference]
      {
        FollowOn(value, document, 1, i);
        assert Follow(target, document, 0) == Some(target);
        assert RefersAt(value, document, i + 1, r);
        if r == reference {
          EndsWithoutRepeat(value, document, n, 0, i + 1, r);
        }
      }
      EndIsResolved(target, document, references + [reference], n - 1);
    }
  }

  lemma EndsOneLater(value: Fields, document: Fields, reference: string, n: nat)
    requires OwnReference(value) == Some(reference) && Target(document, reference).Resolved?
    requires EndsAfter(Target(document, reference).fields, document, n)
    ensures EndsAfter(value, document, n + 1)
  {
  }

  lemma EndsHere(value: Fields, document: Fields)
    requires OwnReference(value).None?
    ensures EndsAfter(value, document, 0)
  {
  }

  lemma {:induction false} ResolvedEnds(value: Fields, document: Fields, references: seq<string>) returns (n: nat)
    requires Resolve(value, document, references).Resolved?
    ensures EndsAfter(value, document, n)
    decreases References(Obj(document)) + OwnReferences(value) - Seen(references)
  {
    hide Override, Target, Tokens, EndsAfter;
    match OwnReference(value)
    case None =>
      n := 0;
      EndsHere(value, document);
    case Some(reference) =>
      TargetInside(document, reference);
      assert reference !in Seen(references) && Seen(references + [reference]) == Seen(references) + {reference};
      var rest := ResolvedEnds(Target(document, reference).fields, document, references + [reference]);
      n := rest + 1;
      EndsOneLater(value, document, reference, rest);
  }

  /** Resolution succeeds exactly if following the references leads to an object that is no reference. */
  lemma ResolvesIff(value: Fields, document: Fields)
    ensures Resolve(value, document, []).Resolved? <==> exists n: nat :: EndsAfter(value, document, n)
  {
    if Resolve(value, document, []).Resolved? {
      var n := ResolvedEnds(value, document, []);
    }
    if n: nat :| EndsAfter(value, document, n) {
      EndIsResolved(value, document, [], n);
    }
  }

  /** After `n` references, and not before, there is an object with an entry of this key. */
  predicate NearestAt(value: Fields, document: Fields, key: string, n: nat, entry: Json) {
    && Follow(value, document, n).Some? && Get(Follow(value, document, n).value, key) == Some(entry)
    && forall i: nat :: i < n && Follow(value, document, i).Some? ==> Get(Follow(value, document, i).value, key).None?
  }

  /** No object along the references has an entry of this key. */
  ghost predicate NowhereAlong(value: Fields, document: Fields, key: string) {
    forall i: nat :: Follow(value, document, i).Some? ==> Get(Follow(value, document, i).value, key).None?
  }

  lemma FollowTarget(value: Fields, document: Fields, reference: string, i: nat)
    requires OwnReference(value) == Some(reference) && Target(document, reference).Resolved?
    ensures Follow(value, document, i + 1) == Follow(Target(document, reference).fields, document, i)
  {
  }

  lemma {:induction false} EntryFrom(
    value: Fields, document: Fields, references: seq<string>, key: string, n: nat, entry: Json)
    requires Resolve(value, document, references).Resolved? && key != "$ref" && NearestAt(value, document, key, n, entry)
    ensures Get(Resolve(value, document, references).fields, key) == Some(entry)
    decreases n
  {
    if n > 0 {
      var reference := OwnReference(value).value;
      var target := Target(document, reference).fields;
      assert Follow(value, document, 0) == Some(value);
      FollowTarget(value, document, reference, n - 1);
      forall i: nat | i < n - 1 && Follow(target, document, i).Some?
        ensures Get(Follow(target, document, i).value, key).None?
      {
        FollowTarget(value, document, reference, i);
        assert Get(Follow(value, document, i + 1).value, key).None?;
      }
      EntryFrom(target, document, references + [reference], key, n - 1, entry);
    }
  }

  lemma {:induction false} NoEntryFrom(value: Fields, document: Fields, references: seq<string>, key: string)
    requires Resolve(value, document, references).Resolved? && NowhereAlong(value, document, key)
    ensures Get(Resolve(value, document, references).fields, key).None?
    decreases References(Obj(document)) + OwnReferences(value) - Seen(references)
  {
    assert Follow(value, document, 0) == Some(value);
    match OwnReference(value)
    case None =>
    case Some(reference) =>
      var target := Target(document, reference).fields;
      TargetInside(document, reference);
      assert reference !in Seen(references) && Seen(references + [reference]) == Seen(references) + {reference};
      forall i: nat | Follow(target, document, i).Some?
        ensures Get(Follow(target, document, i).value, key).None?
      {
        FollowTarget(value, document, reference, i);
      }
      NoEntryFrom(target, document, references + [reference], key);
  }

  /** A resolved schema says of each key what the nearest object along its references says, and nothing if none does. */
  lemma ResolvedSays(value: Fields, document: Fields, key: string, n: nat, entry: Json)
    requires Resolve(value, document, []).Resolved? && key != "$ref"
    ensures NearestAt(value, document, key, n, entry) ==> Get(Resolve(value, document, []).fields, key) == Some(entry)
    ensures NowhereAlong(value, document, key) ==> Get(Resolve(value, document, []).fields, key).None?
  {
    if NearestAt(value, document, key, n, entry) {
      EntryFrom(value, document, [], key, n, entry);
    }
    if NowhereAlong(value, document, key) {
      NoEntryFrom(value, document, [], key);
    }
  }

  /** Where a failing resolution stops: at a reference that points nowhere, or at one taken before. */
  lemma {:induction false} FailureStops(value: Fields, document: Fields, references: seq<string>)
    returns (n: nat, reference: string)
    requires Resolve(value, document, references).Invalid?
    ensures RefersAt(value, document, n, reference)
    ensures var failure := Resolve(value, document, references).failure;
      if failure.Cyclic? then
        || reference in references
        || exists i: nat :: i < n && RefersAt(value, document, i, reference)
      else Target(document, reference).Invalid?
    decreases References(Obj(document)) + OwnReferences(value) - Seen(references)
  {
    reference := OwnReference(value).value;
    n := 0;
    if Tokens(reference).Some? && reference !in references && Target(document, reference).Resolved? {
      var first, target := reference, Target(document, reference).fields;
      TargetInside(document, first);
      assert first !in Seen(references) && Seen(references + [first]) == Seen(references) + {first};
      var m, last := FailureStops(target, document, references + [first]);
      n, reference := m + 1, last;
      assert RefersAt(value, document, 0, first);
      if i: nat :| i < m && RefersAt(target, document, i, last) {
        assert RefersAt(value, document, i + 1, last);
      }
    }
  }

  /** A reference met twice goes round for ever. */
  lemma {:induction false} RoundForever(value: Fields, document: Fields, i: nat, j: nat, reference: string, n: nat)
    requires i < j && RefersAt(value, document, i, reference) && RefersAt(value, document, j, reference)
    requires Target(document, reference).Resolved?
    ensures Follow(value, document, n).Some?
    decreases n
  {
    AfterReference(value, document, i, reference);
    AfterReference(value, document, j, reference);
    if n <= j + 1 {
      FollowOn(value, document, n, j + 1 - n);
    } else {
      FollowOn(value, document, i + 1, n - (j + 1));
      FollowOn(value, document, j + 1, n - (j + 1));
      RoundForever(value, document, i, j, reference, n - (j - i));
    }
  }

  /** A cycle is reported exactly if following the references never stops. */
  lemma CyclicIff(value: Fields, document: Fields)
    ensures var r := Resolve(value, document, []);
      (r.Invalid? && r.failure.Cyclic?) <==> forall n: nat :: Follow(value, document, n).Some?
  {
    var r := Resolve(value, document, []);
    if r.Resolved? {
      var n := ResolvedEnds(value, document, []);
      FollowOn(value, document, n, 1);
      assert Follow(value, document, n + 1).None?;
    } else {
      var n, reference := FailureStops(value, document, []);
      AfterReference(value, document, n, reference);
      if r.failure.Cyclic? {
        var i: nat :| i < n && RefersAt(value, document, i, reference);
        AfterReference(value, document, i, reference);
        FollowOn(value, document, i + 1, n - i - 1);
        assert Target(document, reference).Resolved?;
        forall m: nat
          ensures Follow(value, document, m).Some?
        {
          RoundForever(value, document, i, n, reference, m);
        }
      } else {
        assert Follow(value, document, n + 1).None?;
      }
    }
  }
}
