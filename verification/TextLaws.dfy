/** What stripping and normalizing names come to, said of the characters of the text. */
module TextLaws {
  import opened Text

  // ----- Blanks -----

  predicate AllBlank(s: string) {
    forall c :: c in s ==> IsSpace(c)
  }

  /** The text neither begins nor ends in a blank. */
  predicate Tight(s: string) {
    s != "" ==> !IsSpace(s[0]) && !IsSpace(s[|s| - 1])
  }

  /** The blanks of ASCII: space, tab to carriage return, and the four separators. */
  lemma BlanksAre(c: char)
    ensures IsSpace(c) <==>
      c in {' ', '\t', '\n', '\U{0B}', '\U{0C}', '\r', '\U{1C}', '\U{1D}', '\U{1E}', '\U{1F}'}
  {
  }

  lemma {:induction false} LeftStripped(s: string) returns (blanks: string)
    ensures s == blanks + StripLeft(s) && AllBlank(blanks)
    ensures StripLeft(s) != "" ==> !IsSpace(StripLeft(s)[0])
  {
    blanks := "";
    if s != "" && IsSpace(s[0]) {
      var more := LeftStripped(s[1..]);
      blanks := [s[0]] + more;
    }
  }

  lemma {:induction false} RightStripped(s: string) returns (blanks: string)
    ensures s == StripRight(s) + blanks && AllBlank(blanks)
    ensures StripRight(s) != "" ==> !IsSpace(StripRight(s)[|StripRight(s)| - 1]) && StripRight(s)[0] == s[0]
  {
    blanks := "";
    if s != "" && IsSpace(s[|s| - 1]) {
      var front := s[..|s| - 1];
      var more := RightStripped(front);
      blanks := more + [s[|s| - 1]];
      assert s == front + [s[|s| - 1]];
    }
  }

  /** Stripping takes away the blanks on both ends, and nothing else. */
  lemma StripMeans(s: string) returns (before: string, after: string)
    ensures s == before + Strip(s) + after && AllBlank(before) && AllBlank(after) && Tight(Strip(s))
  {
    before := LeftStripped(s);
    after := RightStripped(StripLeft(s));
  }

  /** Blanks around a text that has none outside are stripped, however many. */
  lemma {:induction false} StripsTo(before: string, s: string, after: string)
    requires AllBlank(before) && AllBlank(after) && Tight(s) && s != ""
    ensures Strip(before + s + after) == s
  {
    SkipsBlanks(before, s + after);
    assert before + s + after == before + (s + after);
    assert (s + after)[0] == s[0];
    DropsBlanks(s, after);
  }

  lemma {:induction false} SkipsBlanks(before: string, rest: string)
    requires AllBlank(before) && rest != "" && !IsSpace(rest[0])
    ensures StripLeft(before + rest) == rest
    decreases |before|
  {
    if before == "" {
      assert before + rest == rest;
    } else {
      assert before[0] in before && (before + rest)[1..] == before[1..] + rest;
      SkipsBlanks(before[1..], rest);
    }
  }

  lemma {:induction false} DropsBlanks(s: string, after: string)
    requires AllBlank(after) && s != "" && !IsSpace(s[|s| - 1])
    ensures StripRight(s + after) == s
    decreases |after|
  {
    if after == "" {
      assert s + after == s;
    } else {
      var last := |after| - 1;
      assert after[last] in after && after == after[..last] + [after[last]];
      assert (s + after)[..|s + after| - 1] == s + after[..last];
      DropsBlanks(s, after[..last]);
    }
  }

  lemma {:induction false} TightStays(s: string)
    requires Tight(s)
    ensures Strip(s) == s
  {
  }

  // ----- Column names -----

  /** Small letters, digits and underscores, none of these on the outside. */
  predicate PlainName(s: string) {
    && (forall c :: c in s ==> 'a' <= c <= 'z' || '0' <= c <= '9' || c == '_')
    && (s != "" ==> s[0] != '_' && s[|s| - 1] != '_')
  }

  predicate NameCharsOnly(s: string) {
    forall c :: c in s ==> 'a' <= c <= 'z' || '0' <= c <= '9' || c == '_'
  }

  predicate NoCapitals(s: string) {
    forall c :: c in s ==> !('A' <= c <= 'Z')
  }

  lemma LoweredHasNone(s: string)
    ensures NoCapitals(Lower(s))
  {
    forall i | 0 <= i < |s|
      ensures !('A' <= Lower(s)[i] <= 'Z')
    {
    }
  }

  lemma {:induction false} CollapsedChars(s: string, inRun: bool)
    requires NoCapitals(s)
    ensures NameCharsOnly(CollapseOthers(s, inRun))
    decreases |s|
  {
    if s != "" {
      assert s[0] in s;
      assert forall c :: c in s[1..] ==> c in s;
      CollapsedChars(s[1..], !IsNameChar(s[0]));
    }
  }

  lemma {:induction false} UnderscoresStripped(s: string)
    requires NameCharsOnly(s)
    ensures PlainName(StripUnderscores(s))
    decreases |s|
  {
    if s != "" && s[0] == '_' {
      assert forall c :: c in s[1..] ==> c in s;
      UnderscoresStripped(s[1..]);
    } else if s != "" && s[|s| - 1] == '_' {
      var front := s[..|s| - 1];
      forall c | c in front
        ensures c in s
      {
        assert s == front + [s[|s| - 1]];
      }
      UnderscoresStripped(front);
    }
  }

  /** A normalized name is plain. */
  lemma NormalizedIsPlain(value: string)
    ensures PlainName(NormalizeName(value))
  {
    LoweredHasNone(Strip(value));
    CollapsedChars(Lower(Strip(value)), false);
    UnderscoresStripped(CollapseOthers(Lower(Strip(value)), false));
  }

  lemma {:induction false} PlainUncollapsed(s: string)
    requires NameCharsOnly(s)
    ensures CollapseOthers(s, false) == s
    decreases |s|
  {
    if s != "" {
      assert s[0] in s && forall c :: c in s[1..] ==> c in s;
      PlainUncollapsed(s[1..]);
      assert s == [s[0]] + s[1..];
    }
  }

  /** A plain name stands for itself. */
  lemma PlainStays(s: string)
    requires PlainName(s)
    ensures NormalizeName(s) == s
  {
    if s != "" {
      assert s[0] in s && s[|s| - 1] in s;
    }
    TightStays(s);
    forall i | 0 <= i < |s|
      ensures LowerChar(s[i]) == s[i]
    {
      assert s[i] in s;
    }
    assert Lower(s) == s;
    PlainUncollapsed(s);
  }

  /** Capitals and other letters do not matter, and neither do blanks around a name. */
  lemma SpellingIrrelevant(value: string)
    ensures NormalizeName(Strip(value)) == NormalizeName(value)
    ensures NormalizeName(Lower(Strip(value))) == NormalizeName(value)
  {
    var s := Strip(value);
    var _, _ := StripMeans(value);
    TightStays(s);
    forall i | 0 <= i < |s|
      ensures IsSpace(LowerChar(s[i])) <==> IsSpace(s[i])
      ensures LowerChar(LowerChar(s[i])) == LowerChar(s[i])
    {
    }
    assert Tight(Lower(s)) && Lower(Lower(s)) == Lower(s);
    TightStays(Lower(s));
  }

  /** A run of other characters between two plain names becomes one underscore. */
  lemma RunBecomesUnderscore(a: string, run: string, b: string)
    requires PlainName(a) && PlainName(b) && a != "" && b != ""
    requires run != "" && forall c :: c in run ==> !IsNameChar(c)
    ensures NormalizeName(a + run + b) == a + "_" + b
  {
    var s := a + run + b;
    assert a[0] in a && b[|b| - 1] in b && s[0] == a[0] && s[|s| - 1] == b[|b| - 1];
    TightStays(s);
    forall i | 0 <= i < |s|
      ensures LowerChar(s[i]) == s[i]
    {
      assert s[i] in a || s[i] in run || s[i] in b;
    }
    assert Lower(s) == s;
    CollapseRun(a, run, b);
    var joined := a + "_" + b;
    assert joined[0] != '_' && joined[|joined| - 1] != '_';
  }

  lemma {:induction false} CollapseRun(a: string, run: string, b: string)
    requires NameCharsOnly(a) && NameCharsOnly(b) && run != "" && forall c :: c in run ==> !IsNameChar(c)
    ensures CollapseOthers(a + run + b, false) == a + "_" + b
    decreases |a|
  {
    if a == "" {
      assert a + run + b == run + b && (run + b)[1..] == run[1..] + b;
      assert run[0] in run;
      SkipRun(run[1..], b);
    } else {
      assert a[0] in a && forall c :: c in a[1..] ==> c in a;
      assert (a + run + b)[1..] == a[1..] + run + b;
      CollapseRun(a[1..], run, b);
      assert [a[0]] + (a[1..] + "_" + b) == a + "_" + b;
    }
  }

  lemma {:induction false} SkipRun(run: string, b: string)
    requires NameCharsOnly(b) && forall c :: c in run ==> !IsNameChar(c)
    ensures CollapseOthers(run + b, true) == b
    decreases |run|
  {
    if run == "" {
      assert run + b == b;
      if b != "" {
        assert b[0] in b && forall c :: c in b[1..] ==> c in b;
        PlainUncollapsed(b[1..]);
        assert b == [b[0]] + b[1..];
      }
    } else {
      assert run[0] in run && (run + b)[1..] == run[1..] + b;
      SkipRun(run[1..], b);
    }
  }
}
