/**
 The JSON path printed for a source path, and a reader for the child segments it uses: dot names, and quoted
 names with escaped backslash and quote (section 2.5.1 of RFC 9535).
 */
module JsonPaths {
  import opened Wrappers
  import opened SchemaPaths
  import Text

  predicate IsNameStart(c: char) {
    'A' <= c <= 'Z' || 'a' <= c <= 'z' || c == '_'
  }

  predicate IsNamePart(c: char) {
    IsNameStart(c) || '0' <= c <= '9'
  }

  /** `[A-Za-z_][A-Za-z0-9_]*`, in full. */
  predicate IsName(s: string) {
    s != "" && IsNameStart(s[0]) && forall i :: 0 <= i < |s| ==> IsNamePart(s[i])
  }

  /** Python's `replace` of one character. */
  function Replace(s: string, c: char, with: string): string {
    if s == "" then "" else (if s[0] == c then with else [s[0]]) + Replace(s[1..], c, with)
  }

  /** Backslashes first, then quotes. */
  function Escaped(segment: string): string {
    Replace(Replace(segment, '\\', "\\\\"), '\'', "\\'")
  }

  function PrintSegment(segment: string): string {
    if IsName(segment) then "." + segment else "['" + Escaped(segment) + "']"
  }

  predicate IsDigit(c: char) {
    '0' <= c <= '9'
  }

  predicate IsLetter(c: char) {
    'A' <= c <= 'Z' || 'a' <= c <= 'z'
  }

  /** A segment is printed after a dot exactly if it is letters, digits and underscores, and begins with no digit. */
  lemma DotIff(segment: string)
    ensures PrintSegment(segment) == "." + segment <==>
            segment != "" && !IsDigit(segment[0]) && forall c :: c in segment ==> IsLetter(c) || IsDigit(c) || c == '_'
    ensures PrintSegment(segment) != "." + segment ==> PrintSegment(segment) == "['" + Escaped(segment) + "']"
  {
    assert ("." + segment)[0] == '.' && ("['" + Escaped(segment) + "']")[0] == '[';
    if IsName(segment) {
      forall c | c in segment
        ensures IsLetter(c) || IsDigit(c) || c == '_'
      {
        var i :| 0 <= i < |segment| && segment[i] == c;
        assert IsNamePart(segment[i]);
      }
    }
    if segment != "" && !IsDigit(segment[0]) && forall c :: c in segment ==> IsLetter(c) || IsDigit(c) || c == '_' {
      forall i | 0 <= i < |segment|
        ensures IsNamePart(segment[i])
      {
        assert segment[i] in segment;
      }
    }
  }

  function PrintSegments(segments: Segments): string {
    if segments == [] then "" else PrintSegment(segments[0]) + PrintSegments(segments[1..])
  }

  // ----- Reading -----

  /** The longest run of name characters at the front. */
  function TakeName(s: string): string {
    if s == "" || !IsNamePart(s[0]) then "" else [s[0]] + TakeName(s[1..])
  }

  datatype Quoted = Quoted(content: string, rest: string)

  /** Reads up to the closing quote and bracket, undoing escapes. */
  function ReadQuoted(s: string): Option<Quoted> {
    if s == "" then None
    else if s[0] == '\'' then if |s| >= 2 && s[1] == ']' then Some(Quoted("", s[2..])) else None
    else if s[0] == '\\' then
      if |s| >= 2 && (s[1] == '\\' || s[1] == '\'') then
        match ReadQuoted(s[2..])
        case None => None
        case Some(q) => Some(Quoted([s[1]] + q.content, q.rest))
      else None
    else
      match ReadQuoted(s[1..])
      case None => None
      case Some(q) => Some(Quoted([s[0]] + q.content, q.rest))
  }

  lemma {:induction false} ReadShrinks(s: string)
    ensures ReadQuoted(s).Some? ==> |ReadQuoted(s).value.rest| < |s|
    decreases |s|
  {
    if |s| >= 2 && s[0] == '\\' {
      ReadShrinks(s[2..]);
    } else if s != "" {
      ReadShrinks(s[1..]);
    }
  }

  lemma {:induction false} NameShrinks(s: string)
    ensures |TakeName(s)| <= |s| && s[..|TakeName(s)|] == TakeName(s)
  {
    if s != "" && IsNamePart(s[0]) {
      NameShrinks(s[1..]);
    }
  }

  function ReadSegments(s: string): Option<Segments>
    decreases |s|
  {
    if s == "" then Some([])
    else if s[0] == '.' then
      NameShrinks(s[1..]);
      var name := TakeName(s[1..]);
      if !IsName(name) then None
      else
        match ReadSegments(s[1 + |name|..])
        case None => None
        case Some(rest) => Some([name] + rest)
    else if |s| >= 2 && s[0] == '[' && s[1] == '\'' then
      ReadShrinks(s[2..]);
      match ReadQuoted(s[2..])
      case None => None
      case Some(q) =>
        match ReadSegments(q.rest)
        case None => None
        case Some(rest) => Some([q.content] + rest)
    else None
  }

  function ReadPath(s: string): Option<Segments> {
    if s == "" || s[0] != '$' then None else ReadSegments(s[1..])
  }

  // ----- Reading undoes printing -----

  /** What the two replacements do to one character. */
  function EscapedChar(c: char): string {
    if c == '\\' then "\\\\" else if c == '\'' then "\\'" else [c]
  }

  lemma {:induction false} ReplaceAppend(a: string, b: string, c: char, with: string)
    ensures Replace(a + b, c, with) == Replace(a, c, with) + Replace(b, c, with)
    decreases |a|
  {
    if a == "" {
      assert a + b == b;
    } else {
      assert (a + b)[1..] == a[1..] + b;
      ReplaceAppend(a[1..], b, c, with);
    }
  }

  function EscapeEach(s: string): string {
    if s == "" then "" else EscapedChar(s[0]) + EscapeEach(s[1..])
  }

  /** The two replacements act character by character. */
  lemma {:induction false} EscapedIsEach(s: string)
    ensures Escaped(s) == EscapeEach(s)
  {
    if s != "" {
      var first := if s[0] == '\\' then "\\\\" else [s[0]];
      EscapedIsEach(s[1..]);
      ReplaceAppend(first, Replace(s[1..], '\\', "\\\\"), '\'', "\\'");
      assert Replace("\\\\", '\'', "\\'") == "\\\\" by {
        assert "\\\\"[1..] == "\\" && "\\"[1..] == "";
      }
      assert [s[0]][1..] == "";
    }
  }

  function Prepend(c: char, q: Option<Quoted>): Option<Quoted> {
    match q
    case None => None
    case Some(read) => Some(Quoted([c] + read.content, read.rest))
  }

  lemma ReadChar(c: char, more: string)
    ensures ReadQuoted(EscapedChar(c) + more) == Prepend(c, ReadQuoted(more))
  {
    var text := EscapedChar(c) + more;
    if c == '\\' || c == '\'' {
      assert text[0] == '\\' && text[1] == c && text[2..] == more;
    } else {
      assert text[0] == c && text[1..] == more;
    }
  }

  lemma ReadClose(rest: string)
    ensures ReadQuoted("']" + rest) == Some(Quoted("", rest))
  {
    var tail := "']" + rest;
    assert tail[0] == '\'' && tail[1] == ']' && tail[2..] == rest;
  }

  lemma EscapeFirst(segment: string, tail: string)
    requires segment != ""
    ensures EscapeEach(segment) + tail == EscapedChar(segment[0]) + (EscapeEach(segment[1..]) + tail)
  {
    Associative(EscapedChar(segment[0]), EscapeEach(segment[1..]), tail);
  }

  lemma Associative(a: string, b: string, c: string)
    ensures (a + b) + c == a + (b + c)
  {
  }

  lemma {:induction false} ReadEscaped(segment: string, tail: string, rest: string)
    requires ReadQuoted(tail) == Some(Quoted("", rest))
    ensures ReadQuoted(EscapeEach(segment) + tail) == Some(Quoted(segment, rest))
    decreases |segment|
  {
    if segment == "" {
      assert EscapeEach(segment) + tail == tail;
    } else {
      var more := EscapeEach(segment[1..]) + tail;
      ReadEscaped(segment[1..], tail, rest);
      EscapeFirst(segment, tail);
      ReadChar(segment[0], more);
      assert [segment[0]] + segment[1..] == segment;
    }
  }

  lemma {:induction false} TakeWholeName(name: string, rest: string)
    requires forall i :: 0 <= i < |name| ==> IsNamePart(name[i])
    requires rest == "" || !IsNamePart(rest[0])
    ensures TakeName(name + rest) == name
    decreases |name|
  {
    if name == "" {
      assert name + rest == rest;
    } else {
      assert (name + rest)[1..] == name[1..] + rest;
      TakeWholeName(name[1..], rest);
    }
  }

  lemma ReadName(name: string, rest: string)
    requires IsName(name) && (rest == "" || !IsNamePart(rest[0]))
    ensures ReadSegments("." + name + rest)
         == (var tail := ReadSegments(rest); if tail.None? then None else Some([name] + tail.value))
  {
    var text := "." + name + rest;
    assert text[1..] == name + rest;
    TakeWholeName(name, rest);
    assert text[1 + |name|..] == rest;
  }

  lemma ReadQuotedSegment(segment: string, rest: string)
    ensures ReadSegments("['" + Escaped(segment) + "']" + rest)
         == (var tail := ReadSegments(rest); if tail.None? then None else Some([segment] + tail.value))
  {
    var text := "['" + Escaped(segment) + "']" + rest;
    assert text[2..] == Escaped(segment) + ("']" + rest);
    EscapedIsEach(segment);
    ReadClose(rest);
    ReadEscaped(segment, "']" + rest, rest);
  }

  /** Reading recovers exactly the printed segments. */
  lemma {:induction false} ReadPrinted(segments: Segments)
    ensures ReadSegments(PrintSegments(segments)) == Some(segments)
  {
    if segments != [] {
      var first, rest := segments[0], PrintSegments(segments[1..]);
      ReadPrinted(segments[1..]);
      assert [first] + segments[1..] == segments;
      if IsName(first) {
        assert PrintSegments(segments) == "." + first + rest;
        ReadName(first, rest);
      } else {
        assert PrintSegments(segments) == "['" + Escaped(first) + "']" + rest;
        ReadQuotedSegment(first, rest);
      }
    }
  }

  lemma PrintStep(path: string, segments: Segments, i: nat)
    requires i < |segments|
    ensures path + PrintSegments(segments[i..])
         == (path + PrintSegment(segments[i])) + PrintSegments(segments[i + 1..])
  {
    assert segments[i..][0] == segments[i] && segments[i..][1..] == segments[i + 1..];
  }

  lemma ReadPathPrinted(segments: Segments)
    ensures ReadPath("$" + PrintSegments(segments)) == Some(segments)
  {
    var path := "$" + PrintSegments(segments);
    ReadPrinted(segments);
    assert path[0] == '$' && path[1..] == PrintSegments(segments);
  }

  /** The printer, growing the path segment by segment; None for an invalid source path. */
  method JsonPath(source: string) returns (r: Option<string>)
    ensures r.Some? <==> SplitSourcePath(source).Some?
    ensures r.Some? ==> r.value == "$" + PrintSegments(SplitSourcePath(source).value)
    ensures r.Some? ==> ReadPath(r.value) == SplitSourcePath(source)
  {
    var split := SplitSourcePath(source);
    if split.None? {
      return None;
    }
    var segments := split.value;
    ReadPathPrinted(segments);
    var path := PrintAll(segments);
    r := Some(path);
  }

  method PrintAll(segments: Segments) returns (path: string)
    ensures path == "$" + PrintSegments(segments)
  {
    path := "$";
    assert segments[0..] == segments;
    for i := 0 to |segments|
      invariant path + PrintSegments(segments[i..]) == "$" + PrintSegments(segments)
    {
      PrintStep(path, segments, i);
      if IsName(segments[i]) {
        path := path + ("." + segments[i]);
      } else {
        path := path + ("['" + Escaped(segments[i]) + "']");
      }
    }
    assert segments[|segments|..] == [] && path + "" == path;
  }

  /** Source paths that print alike are the same path up to surrounding blanks. */
  lemma PrintedPathsDiffer(a: string, b: string)
    requires SplitSourcePath(a).Some? && SplitSourcePath(b).Some?
    requires PrintSegments(SplitSourcePath(a).value) == PrintSegments(SplitSourcePath(b).value)
    ensures Text.Strip(a) == Text.Strip(b)
  {
    var p, q := SplitDots(Text.Strip(a), ""), SplitDots(Text.Strip(b), "");
    assert SplitSourcePath(a) == Some(p) && SplitSourcePath(b) == Some(q);
    ReadPrinted(p);
    ReadPrinted(q);
    assert Some(p) == Some(q);
    calc {
      Text.Strip(a);
      "" + Text.Strip(a);
      { JoinSplit(Text.Strip(a), ""); }
      JoinDots(p);
      { JoinSplit(Text.Strip(b), ""); }
      "" + Text.Strip(b);
      Text.Strip(b);
    }
  }
}
