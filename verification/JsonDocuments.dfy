/** JSON documents as the compatibility checker reads them, and the pointers into them. */
module JsonDocuments {
  import opened Wrappers

  datatype Json =
    | Null
    | Bool(value: bool)
    | Num(number: real)
    | Str(text: string)
    | Arr(items: seq<Json>)
    | Obj(fields: seq<Field>)

  datatype Field = Field(key: string, value: Json)

  type Fields = seq<Field>

  /** The value of a key; the last one, if a key is repeated. */
  function Get(fields: Fields, key: string): Option<Json> {
    if fields == [] then None
    else if fields[|fields| - 1].key == key then Some(fields[|fields| - 1].value)
    else Get(fields[..|fields| - 1], key)
  }

  lemma {:induction false} GetIs(fields: Fields, key: string)
    ensures Get(fields, key).Some? ==> exists f :: f in fields && f.key == key && f.value == Get(fields, key).value
    ensures Get(fields, key).None? <==> forall f :: f in fields ==> f.key != key
  {
    if fields != [] {
      var last := fields[|fields| - 1];
      assert fields == fields[..|fields| - 1] + [last];
      GetIs(fields[..|fields| - 1], key);
    }
  }

  /** Of fields with the same key the last one counts. */
  lemma LastCounts(fields: Fields, f: Field, key: string)
    ensures Get(fields + [f], key) == if f.key == key then Some(f.value) else Get(fields, key)
  {
    assert (fields + [f])[..|fields|] == fields;
  }

  predicate UniqueKeys(fields: Fields) {
    forall i, j :: 0 <= i < j < |fields| ==> fields[i].key != fields[j].key
  }

  /** With unique keys, a field of an object is what looking up its key finds. */
  lemma FieldIsFound(fields: Fields, f: Field)
    requires UniqueKeys(fields) && f in fields
    ensures Get(fields, f.key) == Some(f.value)
  {
    GetIs(fields, f.key);
    var g :| g in fields && g.key == f.key && Some(g.value) == Get(fields, f.key);
    var i :| 0 <= i < |fields| && fields[i] == f;
    var j :| 0 <= j < |fields| && fields[j] == g;
    assert i == j;
  }

  function KeysOf(fields: Fields): set<string> {
    set f | f in fields :: f.key
  }

  // ----- Tokens of a pointer, sections 3 and 4 of RFC 6901 -----

  function Encode(token: string): string {
    if token == "" then ""
    else (if token[0] == '~' then "~0" else if token[0] == '/' then "~1" else [token[0]]) + Encode(token[1..])
  }

  /** `text.replace(a + b, [c])`: every occurrence of the two characters, from the left. */
  function Replace(text: string, a: char, b: char, c: char): string {
    if |text| < 2 then text
    else if text[0] == a && text[1] == b then [c] + Replace(text[2..], a, b, c)
    else [text[0]] + Replace(text[1..], a, b, c)
  }

  function Decode(raw: string): string {
    Replace(Replace(raw, '~', '1', '/'), '~', '0', '~')
  }

  /** A token with its tildes escaped, but not its slashes. */
  function HalfEncode(token: string): string {
    if token == "" then "" else (if token[0] == '~' then "~0" else [token[0]]) + HalfEncode(token[1..])
  }

  lemma {:induction false} FirstReplacement(token: string)
    ensures Replace(Encode(token), '~', '1', '/') == HalfEncode(token)
  {
    if token != "" {
      var rest := Encode(token[1..]);
      FirstReplacement(token[1..]);
      if token[0] == '~' {
        assert Encode(token) == ['~', '0'] + rest;
        assert Encode(token)[1..] == ['0'] + rest;
        PassOne('0', rest, '1', '/');
      } else if token[0] == '/' {
        assert Encode(token) == ['~', '1'] + rest;
        assert Encode(token)[2..] == rest;
      } else {
        PassOne(token[0], rest, '1', '/');
      }
    }
  }

  lemma {:induction false} SecondReplacement(token: string)
    ensures Replace(HalfEncode(token), '~', '0', '~') == token
  {
    if token != "" {
      var rest := HalfEncode(token[1..]);
      SecondReplacement(token[1..]);
      if token[0] == '~' {
        assert HalfEncode(token) == ['~', '0'] + rest;
        assert HalfEncode(token)[2..] == rest;
      } else {
        PassOne(token[0], rest, '0', '~');
      }
    }
  }

  /** A character that is no tilde is copied. */
  lemma PassOne(x: char, rest: string, b: char, c: char)
    requires x != '~'
    ensures Replace([x] + rest, '~', b, c) == [x] + Replace(rest, '~', b, c)
  {
    var text := [x] + rest;
    assert text[1..] == rest;
    if rest == "" {
      assert text == [x];
    }
  }

  /** Decoding inverts encoding, for every token. */
  lemma DecodeEncode(token: string)
    ensures Decode(Encode(token)) == token
  {
    FirstReplacement(token);
    SecondReplacement(token);
  }

  /** `text.split("/")`. */
  function Split(text: string): (r: seq<string>)
    ensures r != []
  {
    if text == "" then [""]
    else
      var rest := Split(text[1..]);
      if text[0] == '/' then [""] + rest else [[text[0]] + rest[0]] + rest[1..]
  }

  function Join(tokens: seq<string>): string
    requires tokens != []
  {
    if |tokens| == 1 then Encode(tokens[0]) else Encode(tokens[0]) + "/" + Join(tokens[1..])
  }

  function DecodeAll(raw: seq<string>): seq<string> {
    if raw == [] then [] else [Decode(raw[0])] + DecodeAll(raw[1..])
  }

  /** The tokens a reference names, or None if it is no local one. */
  function Tokens(reference: string): Option<seq<string>> {
    if |reference| < 2 || reference[..2] != "#/" then None else Some(DecodeAll(Split(reference[2..])))
  }

  function Pointer(tokens: seq<string>): string
    requires tokens != []
  {
    "#/" + Join(tokens)
  }

  lemma {:induction false} EncodedHasNoSlash(token: string)
    ensures '/' !in Encode(token)
  {
    if token != "" {
      EncodedHasNoSlash(token[1..]);
    }
  }

  lemma {:induction false} SplitOne(raw: string)
    requires '/' !in raw
    ensures Split(raw) == [raw]
  {
    if raw != "" {
      assert raw[1..] <= raw[1..] && forall c :: c in raw[1..] ==> c in raw;
      SplitOne(raw[1..]);
      assert raw == [raw[0]] + raw[1..];
    }
  }

  lemma {:induction false} SplitFirst(raw: string, rest: string)
    requires '/' !in raw
    ensures Split(raw + "/" + rest) == [raw] + Split(rest)
  {
    var text := raw + "/" + rest;
    if raw == "" {
      assert text[1..] == rest;
    } else {
      assert forall c :: c in raw[1..] ==> c in raw;
      SplitFirst(raw[1..], rest);
      assert text[1..] == raw[1..] + "/" + rest;
      assert raw == [raw[0]] + raw[1..];
    }
  }

  lemma {:induction false} SplitJoined(tokens: seq<string>)
    requires tokens != []
    ensures DecodeAll(Split(Join(tokens))) == tokens
  {
    EncodedHasNoSlash(tokens[0]);
    DecodeEncode(tokens[0]);
    if |tokens| == 1 {
      SplitOne(Encode(tokens[0]));
      assert DecodeAll([Encode(tokens[0])]) == [tokens[0]] by {
        assert DecodeAll([Encode(tokens[0])][1..]) == [];
      }
    } else {
      var rest := Split(Join(tokens[1..]));
      SplitFirst(Encode(tokens[0]), Join(tokens[1..]));
      SplitJoined(tokens[1..]);
      assert ([Encode(tokens[0])] + rest)[1..] == rest;
    }
  }

  /** Reading the pointer printed for any tokens gives the tokens back. */
  lemma PointerRoundTrip(tokens: seq<string>)
    requires tokens != []
    ensures Tokens(Pointer(tokens)) == Some(tokens)
  {
    SplitJoined(tokens);
    assert Pointer(tokens)[2..] == Join(tokens) && Pointer(tokens)[..2] == "#/";
  }
}
