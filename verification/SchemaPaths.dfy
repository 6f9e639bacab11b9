/**
 Kafka source paths: splitting, the nested schema tree, and the index of object keys. A nested dictionary is
 named by the path that leads to it from the root; its keys are listed in insertion order.
 */
module SchemaPaths {
  import opened Wrappers
  import opened Text

  type Segments = seq<string>

  datatype FieldType = LongType | DoubleType | BooleanType | TimestampType | StringType

  /** Python's `split(".")`. */
  function SplitDots(s: string, current: string): Segments {
    if s == "" then [current]
    else if s[0] == '.' then [current] + SplitDots(s[1..], "")
    else SplitDots(s[1..], current + [s[0]])
  }

  /** A segment as a valid path may contain it. */
  predicate ValidSegment(s: string) {
    s != "" && forall i :: 0 <= i < |s| ==> s[i] != '.'
  }

  predicate ValidSegments(p: Segments) {
    p != [] && forall i :: 0 <= i < |p| ==> ValidSegment(p[i])
  }

  /** None stands for the "invalid source path" error. */
  function SplitSourcePath(value: string): (r: Option<Segments>)
    ensures r.Some? ==> ValidSegments(r.value)
  {
    var path := Strip(value);
    SplitSegmentsValid(path, "");
    var segments := SplitDots(path, "");
    if path == "" || "" in segments then None else Some(segments)
  }

  lemma {:induction false} SplitSegmentsValid(s: string, current: string)
    requires forall i :: 0 <= i < |current| ==> current[i] != '.'
    ensures SplitDots(s, current) != []
    ensures forall k :: 0 <= k < |SplitDots(s, current)| ==>
      forall i :: 0 <= i < |SplitDots(s, current)[k]| ==> SplitDots(s, current)[k][i] != '.'
    decreases |s|
  {
    if s != "" {
      if s[0] == '.' {
        SplitSegmentsValid(s[1..], "");
      } else {
        SplitSegmentsValid(s[1..], current + [s[0]]);
      }
    }
  }

  // ----- Joined paths -----

  function JoinDots(p: Segments): string {
    if p == [] then "" else if |p| == 1 then p[0] else JoinDots(p[..|p| - 1]) + "." + p[|p| - 1]
  }

  /** Splitting undoes joining, so joined valid paths are equal only if the paths are. */
  lemma {:induction false} SplitJoin(p: Segments)
    requires ValidSegments(p)
    ensures SplitDots(JoinDots(p), "") == p && JoinDots(p) != ""
  {
    if |p| == 1 {
      SplitPlain(p[0], "", "");
      assert p[0] + "" == p[0] && "" + p[0] == p[0];
    } else {
      var front, last := p[..|p| - 1], p[|p| - 1];
      SplitJoin(front);
      SplitAppend(JoinDots(front), "", last);
      assert JoinDots(p) == JoinDots(front) + ("." + last);
    }
  }

  lemma {:induction false} JoinFirst(first: string, rest: Segments)
    requires rest != []
    ensures JoinDots([first] + rest) == first + "." + JoinDots(rest)
  {
    var all, last := [first] + rest, rest[|rest| - 1];
    if |rest| > 1 {
      JoinFirst(first, rest[..|rest| - 1]);
      assert all[..|all| - 1] == [first] + rest[..|rest| - 1];
    } else {
      assert all[..|all| - 1] == [first];
    }
  }

  lemma JoinOne(segment: string)
    ensures JoinDots([segment]) == segment
  {
  }

  lemma SplitStep(s: string, current: string)
    requires s != ""
    ensures SplitDots(s, current)
         == if s[0] == '.' then [current] + SplitDots(s[1..], "") else SplitDots(s[1..], current + [s[0]])
    ensures s == [s[0]] + s[1..]
  {
  }

  /** Joining undoes splitting. */
  lemma {:induction false} JoinSplit(s: string, current: string)
    ensures JoinDots(SplitDots(s, current)) == current + s
    decreases |s|
  {
    hide JoinDots;
    if s == "" {
      JoinOne(current);
      assert current + s == current;
    } else {
      hide SplitDots;
      SplitStep(s, current);
      if s[0] == '.' {
        JoinSplit(s[1..], "");
        SplitSegmentsValid(s[1..], "");
        JoinFirst(current, SplitDots(s[1..], ""));
        assert current + "." + ("" + s[1..]) == current + ("." + s[1..]);
      } else {
        JoinSplit(s[1..], current + [s[0]]);
        assert current + [s[0]] + s[1..] == current + ([s[0]] + s[1..]);
      }
    }
  }

  /** A plain segment is taken whole. */
  lemma {:induction false} SplitPlain(s: string, current: string, rest: string)
    requires forall i :: 0 <= i < |s| ==> s[i] != '.'
    ensures SplitDots(s + rest, current) == SplitDots(rest, current + s)
    decreases |s|
  {
    if s == "" {
      assert s + rest == rest && current + s == current;
    } else {
      assert (s + rest)[1..] == s[1..] + rest;
      SplitPlain(s[1..], current + [s[0]], rest);
      assert current + [s[0]] + s[1..] == current + s;
    }
  }

  lemma {:induction false} SplitAppend(s: string, current: string, last: string)
    requires forall i :: 0 <= i < |last| ==> last[i] != '.'
    ensures SplitDots(s + ("." + last), current) == SplitDots(s, current) + [last]
    decreases |s|
  {
    var tail := "." + last;
    if s == "" {
      assert s + tail == tail && tail[1..] == last;
      SplitPlain(last, "", "");
      assert last + "" == last && "" + last == last;
    } else {
      assert (s + tail)[1..] == s[1..] + tail;
      SplitAppend(s[1..], if s[0] == '.' then "" else current + [s[0]], last);
    }
  }

  /** A source path is the segments it joins: it is valid exactly if, stripped, it is non-empty segments between dots. */
  lemma SplitsIff(value: string, p: Segments)
    ensures SplitSourcePath(value) == Some(p) <==> ValidSegments(p) && JoinDots(p) == Strip(value)
  {
    hide Strip;
    var path := Strip(value);
    if SplitSourcePath(value) == Some(p) {
      JoinSplit(path, "");
      assert "" + path == path;
    }
    if ValidSegments(p) && JoinDots(p) == path {
      SplitJoin(p);
    }
  }

  lemma JoinInjective(p: Segments, q: Segments)
    requires p == [] || ValidSegments(p)
    requires q == [] || ValidSegments(q)
    requires JoinDots(p) == JoinDots(q)
    ensures p == q
  {
    if p != [] {
      SplitJoin(p);
    }
    if q != [] {
      SplitJoin(q);
    }
  }

  // ----- First-seen order -----

  /** The next segments of the paths that go through `p`, in the order they are first seen. */
  function ChildrenOf(paths: seq<Segments>, p: Segments): seq<string> {
    if paths == [] then []
    else
      var n := |paths| - 1;
      var earlier := ChildrenOf(paths[..n], p);
      if p < paths[n] && paths[n][|p|] !in earlier then earlier + [paths[n][|p|]] else earlier
  }

  lemma {:induction false} ChildMember(paths: seq<Segments>, p: Segments, s: string)
    ensures s in ChildrenOf(paths, p) <==> exists i :: 0 <= i < |paths| && p + [s] <= paths[i]
  {
    if paths != [] {
      var n := |paths| - 1;
      ChildMember(paths[..n], p, s);
      if i :| 0 <= i < |paths| && p + [s] <= paths[i] && i < n {
        assert paths[..n][i] == paths[i];
      }
      if p + [s] <= paths[n] {
        assert paths[n][..|p|] == (p + [s])[..|p|] == p;
        assert paths[n][|p|] == (p + [s])[|p|];
      }
      if p < paths[n] && paths[n][|p|] == s {
        assert paths[n][..|p| + 1] == p + [s];
      }
    }
  }

  /** One path more, seen from a node it goes through, does not go through, or ends at. */
  lemma ChildrenGrow(paths: seq<Segments>, q: Segments, p: Segments)
    ensures ChildrenOf(paths + [q], p)
         == (var earlier := ChildrenOf(paths, p);
             if p < q && q[|p|] !in earlier then earlier + [q[|p|]] else earlier)
  {
    assert (paths + [q])[..|paths|] == paths;
  }

  // ----- The tree -----

  datatype Node = Scalar(fieldType: FieldType) | Object(children: seq<string>)

  type Tree = map<Segments, Node>

  datatype BuildResult =
    | Built(tree: Tree)
    | InvalidPath(at: nat)
    | ObjectAndScalar(at: nat)
    | ConflictingTypes(at: nat)
    | ScalarAndObject(at: nat)

  /** Some path goes through `p` and on. */
  predicate Inner(paths: seq<Segments>, p: Segments) {
    exists i :: 0 <= i < |paths| && p < paths[i]
  }

  predicate LeafAt(paths: seq<Segments>, types: seq<FieldType>, p: Segments, t: FieldType)
    requires |paths| == |types|
  {
    exists i :: 0 <= i < |paths| && paths[i] == p && types[i] == t
  }

  /** Dictionaries are exactly the root, the path entered so far and the proper prefixes of the paths. */
  ghost predicate ObjectsRight(tree: Tree, paths: seq<Segments>, partial: Segments) {
    forall p :: p in tree && tree[p].Object? <==> p == [] || p <= partial || Inner(paths, p)
  }

  /** Every dictionary lists its children in the order the paths first show them. */
  ghost predicate ChildrenRight(tree: Tree, paths: seq<Segments>) {
    forall p :: p in tree && tree[p].Object? ==> tree[p].children == ChildrenOf(paths, p)
  }

  /** Scalars are exactly the leaves. */
  ghost predicate ScalarsRight(tree: Tree, paths: seq<Segments>, types: seq<FieldType>)
    requires |paths| == |types|
  {
    forall p, t :: p in tree && tree[p] == Scalar(t) <==> LeafAt(paths, types, p, t)
  }

  /** The tree of the given leaves, while a path is being entered as far as `partial`. */
  ghost predicate Describes(tree: Tree, paths: seq<Segments>, types: seq<FieldType>, partial: Segments)
    requires |paths| == |types|
  {
    && ObjectsRight(tree, paths, partial)
    && ChildrenRight(tree, paths + [partial])
    && ScalarsRight(tree, paths, types)
  }

  /** The finished tree. */
  ghost predicate IsTree(tree: Tree, paths: seq<Segments>, types: seq<FieldType>)
    requires |paths| == |types|
  {
    && ObjectsRight(tree, paths, [])
    && ChildrenRight(tree, paths)
    && ScalarsRight(tree, paths, types)
  }

  /** No path is a proper prefix of another, and equal paths have equal types. */
  predicate Compatible(paths: seq<Segments>, types: seq<FieldType>)
    requires |paths| == |types|
  {
    forall i, j :: 0 <= i < |paths| && 0 <= j < |paths| ==>
      !(paths[i] < paths[j]) && (paths[i] == paths[j] ==> types[i] == types[j])
  }

  lemma WholeTree(tree: Tree, paths: seq<Segments>, types: seq<FieldType>)
    requires |paths| == |types|
    ensures Describes(tree, paths, types, []) <==> IsTree(tree, paths, types)
  {
    forall p
      ensures ChildrenOf(paths + [[]], p) == ChildrenOf(paths, p)
    {
      ChildrenGrow(paths, [], p);
    }
  }

  /** Below an entered prefix there is a node exactly if the prefix lists it as a child. */
  lemma ChildListed(tree: Tree, paths: seq<Segments>, types: seq<FieldType>, q: Segments, s: string)
    requires |paths| == |types| && Describes(tree, paths, types, q)
    ensures q in tree && tree[q].Object?
    ensures q + [s] in tree <==> s in tree[q].children
    ensures tree[q].children == ChildrenOf(paths, q)
  {
    ChildrenGrow(paths, q, q);
    ChildMember(paths, q, s);
    var below := q + [s];
    if below in tree {
      if tree[below].Scalar? {
        assert LeafAt(paths, types, below, tree[below].fieldType);
        var i :| 0 <= i < |paths| && paths[i] == below && types[i] == tree[below].fieldType;
        assert below <= paths[i];
      } else {
        var i :| 0 <= i < |paths| && below < paths[i];
        assert below <= paths[i];
      }
    }
    if i :| 0 <= i < |paths| && below <= paths[i] {
      if below == paths[i] {
        assert LeafAt(paths, types, below, types[i]);
      } else {
        assert below < paths[i] && Inner(paths, below);
      }
    }
  }

  lemma ChildrenDeeper(paths: seq<Segments>, q: Segments, s: string, p: Segments)
    ensures p != q ==> ChildrenOf(paths + [q + [s]], p) == ChildrenOf(paths + [q], p)
  {
    ChildrenGrow(paths, q, p);
    ChildrenGrow(paths, q + [s], p);
    if p < q + [s] && p != q {
      assert p == (q + [s])[..|p|] == q[..|p|];
      assert (q + [s])[|p|] == q[|p|];
    }
  }

  lemma PrefixDeeper(q: Segments, s: string, p: Segments)
    ensures p <= q + [s] <==> p <= q || p == q + [s]
    ensures p < q + [s] <==> p <= q
  {
    if p < q + [s] {
      assert p == (q + [s])[..|p|] == q[..|p|];
    }
  }

  function AddChild(tree: Tree, q: Segments, s: string): Tree
    requires q in tree && tree[q].Object?
  {
    if s in tree[q].children then tree else tree[q := Object(tree[q].children + [s])]
  }

  /** Entering a node that is not there yet creates it, last among its parent's children. */
  lemma EnterNew(tree: Tree, paths: seq<Segments>, types: seq<FieldType>, q: Segments, s: string)
    requires |paths| == |types| && Describes(tree, paths, types, q) && q + [s] !in tree
    ensures q in tree && tree[q].Object?
    ensures Describes(AddChild(tree, q, s)[q + [s] := Object([])], paths, types, q + [s])
  {
    ChildListed(tree, paths, types, q, s);
    var after := AddChild(tree, q, s)[q + [s] := Object([])];
    forall p
      ensures p in after && after[p].Object? <==> p == [] || p <= q + [s] || Inner(paths, p)
    {
      PrefixDeeper(q, s, p);
    }
    EnteredChildren(tree, paths, types, q, s);
    assert forall p :: p in after && after[p].Scalar? ==> p in tree && tree[p] == after[p];
    assert forall p :: p in tree && tree[p].Scalar? ==> p in after && after[p] == tree[p];
  }

  lemma EnteredChildren(tree: Tree, paths: seq<Segments>, types: seq<FieldType>, q: Segments, s: string)
    requires |paths| == |types| && Describes(tree, paths, types, q) && q + [s] !in tree
    requires q in tree && tree[q].Object?
    ensures ChildrenRight(AddChild(tree, q, s)[q + [s] := Object([])], paths + [q + [s]])
  {
    ChildListed(tree, paths, types, q, s);
    var after := AddChild(tree, q, s)[q + [s] := Object([])];
    forall p | p in after && after[p].Object?
      ensures after[p].children == ChildrenOf(paths + [q + [s]], p)
    {
      if p == q + [s] {
        NoChildren(tree, paths, types, q, s);
      } else if p == q {
        ChildrenGrow(paths, q + [s], q);
        assert (q + [s])[|q|] == s;
      } else {
        ChildrenDeeper(paths, q, s, p);
      }
    }
  }

  lemma {:induction false} NoneThrough(paths: seq<Segments>, p: Segments)
    requires !Inner(paths, p)
    ensures ChildrenOf(paths, p) == []
  {
    if paths != [] {
      var n := |paths| - 1;
      assert !(p < paths[n]);
      assert forall i :: 0 <= i < n ==> paths[..n][i] == paths[i];
      NoneThrough(paths[..n], p);
    }
  }

  lemma NoChildren(tree: Tree, paths: seq<Segments>, types: seq<FieldType>, q: Segments, s: string)
    requires |paths| == |types| && Describes(tree, paths, types, q) && q + [s] !in tree
    ensures ChildrenOf(paths + [q + [s]], q + [s]) == []
  {
    NoneThrough(paths, q + [s]);
    ChildrenGrow(paths, q + [s], q + [s]);
  }

  /** Entering a dictionary that is there changes nothing. */
  lemma EnterOld(tree: Tree, paths: seq<Segments>, types: seq<FieldType>, q: Segments, s: string)
    requires |paths| == |types| && Describes(tree, paths, types, q)
    requires q + [s] in tree && tree[q + [s]].Object?
    ensures Describes(tree, paths, types, q + [s])
  {
    ChildListed(tree, paths, types, q, s);
    // The entered node is below q, so only a finished path can have made it a dictionary.
    assert Inner(paths, q + [s]);
    forall p
      ensures p in tree && tree[p].Object? <==> p == [] || p <= q + [s] || Inner(paths, p)
    {
      PrefixDeeper(q, s, p);
    }
    forall p | p in tree && tree[p].Object?
      ensures tree[p].children == ChildrenOf(paths + [q + [s]], p)
    {
      ChildrenDeeper(paths, q, s, p);
      ChildrenGrow(paths, q + [s], p);
      if p == q {
        assert (q + [s])[|q|] == s;
      }
    }
  }

  lemma FinishedObjects(tree: Tree, paths: seq<Segments>, q: Segments, s: string)
    requires ObjectsRight(tree, paths, q)
    ensures ObjectsRight(tree, paths + [q + [s]], [])
  {
    var more := paths + [q + [s]];
    forall p
      ensures Inner(more, p) <==> Inner(paths, p) || p <= q
    {
      PrefixDeeper(q, s, p);
      if i :| 0 <= i < |paths| && p < paths[i] {
        assert more[i] == paths[i];
      }
      if p <= q {
        assert p < more[|paths|];
      }
    }
  }

  lemma LeafGrows(paths: seq<Segments>, types: seq<FieldType>, leaf: Segments, t: FieldType, p: Segments, u: FieldType)
    requires |paths| == |types|
    ensures LeafAt(paths + [leaf], types + [t], p, u) <==> LeafAt(paths, types, p, u) || (p == leaf && u == t)
  {
    var morePaths, moreTypes := paths + [leaf], types + [t];
    if i :| 0 <= i < |paths| && paths[i] == p && types[i] == u {
      assert morePaths[i] == p && moreTypes[i] == u;
    }
    if p == leaf && u == t {
      assert morePaths[|paths|] == p && moreTypes[|paths|] == u;
    }
  }

  lemma FinishedScalars(tree: Tree, paths: seq<Segments>, types: seq<FieldType>, q: Segments, s: string, t: FieldType)
    requires |paths| == |types| && ScalarsRight(tree, paths, types)
    requires q in tree && tree[q].Object? && (q + [s] in tree ==> tree[q + [s]] == Scalar(t))
    ensures ScalarsRight(AddChild(tree, q, s)[q + [s] := Scalar(t)], paths + [q + [s]], types + [t])
  {
    var after := AddChild(tree, q, s)[q + [s] := Scalar(t)];
    forall p, u
      ensures p in after && after[p] == Scalar(u) <==> LeafAt(paths + [q + [s]], types + [t], p, u)
    {
      assert p in tree && tree[p] == Scalar(u) <==> LeafAt(paths, types, p, u);
      LeafGrows(paths, types, q + [s], t, p, u);
    }
  }

  lemma FinishedChildren(tree: Tree, paths: seq<Segments>, types: seq<FieldType>, q: Segments, s: string, t: FieldType)
    requires |paths| == |types| && Describes(tree, paths, types, q)
    requires q in tree && tree[q].Object?
    ensures ChildrenRight(AddChild(tree, q, s)[q + [s] := Scalar(t)], paths + [q + [s]])
  {
    ChildListed(tree, paths, types, q, s);
    var after := AddChild(tree, q, s)[q + [s] := Scalar(t)];
    forall p | p in after && after[p].Object?
      ensures after[p].children == ChildrenOf(paths + [q + [s]], p)
    {
      if p == q {
        ChildrenGrow(paths, q + [s], q);
        assert (q + [s])[|q|] == s;
      } else {
        ChildrenDeeper(paths, q, s, p);
      }
    }
  }

  /** Setting a leaf finishes its path. */
  lemma SetLeaf(
    tree: Tree, paths: seq<Segments>, types: seq<FieldType>, q: Segments, s: string, t: FieldType)
    requires |paths| == |types| && Describes(tree, paths, types, q)
    requires q + [s] in tree ==> tree[q + [s]] == Scalar(t)
    ensures q in tree && tree[q].Object?
    ensures IsTree(AddChild(tree, q, s)[q + [s] := Scalar(t)], paths + [q + [s]], types + [t])
  {
    ChildListed(tree, paths, types, q, s);
    var after := AddChild(tree, q, s)[q + [s] := Scalar(t)];
    FinishedChildren(tree, paths, types, q, s, t);
    FinishedScalars(tree, paths, types, q, s, t);
    FinishedObjects(after, paths, q, s);
  }

  predicate AllValid(bindings: seq<(string, FieldType)>) {
    forall i :: 0 <= i < |bindings| ==> SplitSourcePath(bindings[i].0).Some?
  }

  function PathsOf(bindings: seq<(string, FieldType)>): (r: seq<Segments>)
    requires AllValid(bindings)
    ensures |r| == |bindings|
  {
    seq(|bindings|, i requires 0 <= i < |bindings| => SplitSourcePath(bindings[i].0).value)
  }

  function TypesOf(bindings: seq<(string, FieldType)>): (r: seq<FieldType>)
    ensures |r| == |bindings|
  {
    seq(|bindings|, i requires 0 <= i < |bindings| => bindings[i].1)
  }

  /** The path conflicts with an earlier one, in the way the error says. */
  predicate ConflictWith(
    r: BuildResult, at: nat, paths: seq<Segments>, types: seq<FieldType>, segments: Segments, fieldType: FieldType)
    requires |paths| == |types|
  {
    match r
    case ScalarAndObject(k) => k == at && exists i :: 0 <= i < |paths| && paths[i] < segments
    case ObjectAndScalar(k) => k == at && exists i :: 0 <= i < |paths| && segments < paths[i]
    case ConflictingTypes(k) => k == at && exists i :: 0 <= i < |paths| && paths[i] == segments && types[i] != fieldType
    case _ => false
  }

  /** Walks one path down the tree, creating dictionaries as needed, and sets its leaf. */
  method AddBinding(tree: Tree, segments: Segments, fieldType: FieldType, at: nat,
                    ghost paths: seq<Segments>, ghost types: seq<FieldType>)
    returns (r: BuildResult)
    requires |paths| == |types| && IsTree(tree, paths, types) && segments != []
    ensures r.Built? ==> IsTree(r.tree, paths + [segments], types + [fieldType])
    ensures !r.Built? ==> !Compatible(paths + [segments], types + [fieldType])
    ensures !r.Built? ==> ConflictWith(r, at, paths, types, segments, fieldType)
  {
    WholeTree(tree, paths, types);
    var current: Tree, node: Segments := tree, [];
    for index := 0 to |segments| - 1
      invariant node == segments[..index]
      invariant Describes(current, paths, types, node)
    {
      var segment := segments[index];
      var child := node + [segment];
      assert child == segments[..index + 1];
      if child in current && current[child].Scalar? {
        LeafConflict(current, paths, types, node, child, segments, fieldType);
        return ScalarAndObject(at);
      }
      if child !in current {
        EnterNew(current, paths, types, node, segment);
        current := AddChild(current, node, segment)[child := Object([])];
      } else {
        EnterOld(current, paths, types, node, segment);
      }
      node := child;
    }
    var last := segments[|segments| - 1];
    var leaf := node + [last];
    assert leaf == segments;
    if leaf in current && current[leaf].Object? {
      ObjectConflict(current, paths, types, node, segments, fieldType);
      return ObjectAndScalar(at);
    }
    if leaf in current && current[leaf].fieldType != fieldType {
      LeafConflict(current, paths, types, node, leaf, segments, fieldType);
      return ConflictingTypes(at);
    }
    SetLeaf(current, paths, types, node, last, fieldType);
    r := Built(AddChild(current, node, last)[leaf := Scalar(fieldType)]);
  }

  /** A scalar on the way, or a scalar of another type at the end, contradicts an earlier binding. */
  lemma LeafConflict(tree: Tree, paths: seq<Segments>, types: seq<FieldType>, q: Segments, p: Segments,
                     segments: Segments, t: FieldType)
    requires |paths| == |types| && Describes(tree, paths, types, q)
    requires p in tree && tree[p].Scalar?
    requires p < segments || (p == segments && tree[p].fieldType != t)
    ensures !Compatible(paths + [segments], types + [t])
    ensures exists i :: 0 <= i < |paths| && paths[i] == p && types[i] == tree[p].fieldType
  {
    assert LeafAt(paths, types, p, tree[p].fieldType);
    var i :| 0 <= i < |paths| && paths[i] == p && types[i] == tree[p].fieldType;
    var morePaths, moreTypes := paths + [segments], types + [t];
    assert morePaths[i] == p && moreTypes[i] == tree[p].fieldType && morePaths[|paths|] == segments;
  }

  /** A dictionary where the leaf should go contradicts an earlier, longer binding. */
  lemma ObjectConflict(tree: Tree, paths: seq<Segments>, types: seq<FieldType>, q: Segments,
                       segments: Segments, t: FieldType)
    requires |paths| == |types| && Describes(tree, paths, types, q) && q < segments
    requires segments in tree && tree[segments].Object?
    ensures !Compatible(paths + [segments], types + [t]) && Inner(paths, segments)
  {
    assert Inner(paths, segments);
    var i :| 0 <= i < |paths| && segments < paths[i];
    var morePaths := paths + [segments];
    assert morePaths[i] == paths[i] && morePaths[|paths|] == segments;
  }

  /** A conflict among the first bindings is a conflict of the whole list. */
  lemma PrefixConflict(bindings: seq<(string, FieldType)>, n: nat)
    requires n <= |bindings| && AllValid(bindings[..n])
    requires !Compatible(PathsOf(bindings[..n]), TypesOf(bindings[..n]))
    ensures !(AllValid(bindings) && Compatible(PathsOf(bindings), TypesOf(bindings)))
  {
    var paths, types := PathsOf(bindings[..n]), TypesOf(bindings[..n]);
    var i, j :| 0 <= i < n && 0 <= j < n && (paths[i] < paths[j] || (paths[i] == paths[j] && types[i] != types[j]));
    if AllValid(bindings) {
      assert PathsOf(bindings)[i] == paths[i] && PathsOf(bindings)[j] == paths[j];
      assert TypesOf(bindings)[i] == types[i] && TypesOf(bindings)[j] == types[j];
    }
  }

  /** The bindings before this one have a tree; this one is no valid path, or conflicts with them as the error says. */
  predicate FirstConflict(bindings: seq<(string, FieldType)>, r: BuildResult)
    requires !r.Built?
  {
    && r.at < |bindings| && AllValid(bindings[..r.at])
    && Compatible(PathsOf(bindings[..r.at]), TypesOf(bindings[..r.at]))
    && match SplitSourcePath(bindings[r.at].0)
       case None => r.InvalidPath?
       case Some(path) =>
         ConflictWith(r, r.at, PathsOf(bindings[..r.at]), TypesOf(bindings[..r.at]), path, bindings[r.at].1)
  }

  lemma ConflictIsAt(
    r: BuildResult, at: nat, paths: seq<Segments>, types: seq<FieldType>, segments: Segments, fieldType: FieldType)
    requires |paths| == |types| && ConflictWith(r, at, paths, types, segments, fieldType)
    ensures !r.Built? && r.at == at
  {
  }

  /**
   The nested schema tree of the bindings, or the first conflict. It succeeds exactly when all paths are
   valid, none is a proper prefix of another and equal paths have equal types.
   */
  method BuildNestedSchemaTree(bindings: seq<(string, FieldType)>) returns (r: BuildResult)
    ensures r.Built? <==> AllValid(bindings) && Compatible(PathsOf(bindings), TypesOf(bindings))
    ensures r.Built? ==> IsTree(r.tree, PathsOf(bindings), TypesOf(bindings))
    ensures !r.Built? ==> FirstConflict(bindings, r)
  {
    hide SplitSourcePath, ConflictWith;
    var root: Tree := map[[] := Object([])];
    for i := 0 to |bindings|
      invariant AllValid(bindings[..i])
      invariant IsTree(root, PathsOf(bindings[..i]), TypesOf(bindings[..i]))
      invariant Compatible(PathsOf(bindings[..i]), TypesOf(bindings[..i]))
    {
      var segments := SplitSourcePath(bindings[i].0);
      if segments.None? {
        return InvalidPath(i);
      }
      var paths, types := PathsOf(bindings[..i]), TypesOf(bindings[..i]);
      assert PathsOf(bindings[..i + 1]) == paths + [segments.value];
      assert TypesOf(bindings[..i + 1]) == types + [bindings[i].1];
      var result := AddBinding(root, segments.value, bindings[i].1, i, paths, types);
      if !result.Built? {
        PrefixConflict(bindings, i + 1);
        ConflictIsAt(result, i, paths, types, segments.value, bindings[i].1);
        return result;
      }
      TreeIsCompatible(result.tree, paths + [segments.value], types + [bindings[i].1]);
      root := result.tree;
    }
    assert bindings[..|bindings|] == bindings;
    r := Built(root);
  }

  /** Whatever has a tree is compatible: a node cannot be both, nor a scalar of two types. */
  lemma TreeIsCompatible(tree: Tree, paths: seq<Segments>, types: seq<FieldType>)
    requires |paths| == |types| && IsTree(tree, paths, types)
    ensures Compatible(paths, types)
  {
    forall i, j | 0 <= i < |paths| && 0 <= j < |paths|
      ensures !(paths[i] < paths[j]) && (paths[i] == paths[j] ==> types[i] == types[j])
    {
      assert LeafAt(paths, types, paths[i], types[i]) && LeafAt(paths, types, paths[j], types[j]);
      if paths[i] < paths[j] {
        assert Inner(paths, paths[i]);
      }
    }
  }

  // ----- The order of bindings does not matter -----

  /** The tree as a nested map, without the order of its keys. */
  ghost predicate SameMap(a: Tree, b: Tree) {
    && a.Keys == b.Keys
    && forall p :: p in a ==>
         && a[p].Object? == b[p].Object?
         && (a[p].Scalar? ==> a[p] == b[p])
         && (a[p].Object? ==> forall s :: s in a[p].children <==> s in b[p].children)
  }

  /** The same bindings, whatever their order and repetition. */
  ghost predicate SameBindings(a: seq<(string, FieldType)>, b: seq<(string, FieldType)>) {
    forall x :: x in a <==> x in b
  }

  lemma SameLeaves(a: seq<(string, FieldType)>, b: seq<(string, FieldType)>)
    requires SameBindings(a, b) && AllValid(a)
    ensures AllValid(b)
    ensures forall p, t :: LeafAt(PathsOf(a), TypesOf(a), p, t) ==> LeafAt(PathsOf(b), TypesOf(b), p, t)
    ensures forall p :: Inner(PathsOf(a), p) ==> Inner(PathsOf(b), p)
  {
    forall j | 0 <= j < |b|
      ensures SplitSourcePath(b[j].0).Some?
    {
      assert b[j] in a;
    }
    forall i | 0 <= i < |a|
      ensures exists j :: 0 <= j < |b| && PathsOf(b)[j] == PathsOf(a)[i] && TypesOf(b)[j] == TypesOf(a)[i]
    {
      assert a[i] in b;
      var j :| 0 <= j < |b| && b[j] == a[i];
      assert PathsOf(b)[j] == PathsOf(a)[i] && TypesOf(b)[j] == TypesOf(a)[i];
    }
  }

  lemma CompatibleEither(a: seq<(string, FieldType)>, b: seq<(string, FieldType)>)
    requires SameBindings(a, b) && AllValid(a) && Compatible(PathsOf(a), TypesOf(a))
    ensures AllValid(b) && Compatible(PathsOf(b), TypesOf(b))
  {
    SameLeaves(a, b);
    var paths, types := PathsOf(b), TypesOf(b);
    SameLeaves(b, a);
    forall i, j | 0 <= i < |paths| && 0 <= j < |paths|
      ensures !(paths[i] < paths[j]) && (paths[i] == paths[j] ==> types[i] == types[j])
    {
      assert LeafAt(paths, types, paths[i], types[i]) && LeafAt(paths, types, paths[j], types[j]);
      assert LeafAt(PathsOf(a), TypesOf(a), paths[i], types[i]) && LeafAt(PathsOf(a), TypesOf(a), paths[j], types[j]);
    }
  }

  /** Success, and the tree as a map, depend on the set of bindings alone. */
  lemma OrderIrrelevant(a: seq<(string, FieldType)>, b: seq<(string, FieldType)>)
    requires SameBindings(a, b)
    ensures (AllValid(a) && Compatible(PathsOf(a), TypesOf(a)))
       <==> (AllValid(b) && Compatible(PathsOf(b), TypesOf(b)))
    ensures AllValid(a) && AllValid(b) ==> forall s, t ::
              IsTree(s, PathsOf(a), TypesOf(a)) && IsTree(t, PathsOf(b), TypesOf(b)) ==> SameMap(s, t)
  {
    if AllValid(a) && Compatible(PathsOf(a), TypesOf(a)) {
      CompatibleEither(a, b);
    }
    if AllValid(b) && Compatible(PathsOf(b), TypesOf(b)) {
      CompatibleEither(b, a);
    }
    if AllValid(a) && AllValid(b) {
      forall s, t | IsTree(s, PathsOf(a), TypesOf(a)) && IsTree(t, PathsOf(b), TypesOf(b))
        ensures SameMap(s, t)
      {
        TreesAgree(a, b, s, t);
      }
    }
  }

  lemma TreesAgree(a: seq<(string, FieldType)>, b: seq<(string, FieldType)>, s: Tree, t: Tree)
    requires SameBindings(a, b) && AllValid(a) && AllValid(b)
    requires IsTree(s, PathsOf(a), TypesOf(a)) && IsTree(t, PathsOf(b), TypesOf(b))
    ensures SameMap(s, t)
  {
    SameLeaves(a, b);
    SameLeaves(b, a);
    forall p
      ensures p in s <==> p in t
      ensures p in s ==> s[p].Object? == t[p].Object? && (s[p].Scalar? ==> s[p] == t[p])
    {
      if p in s && s[p].Scalar? {
        assert LeafAt(PathsOf(a), TypesOf(a), p, s[p].fieldType);
        assert t[p] == Scalar(s[p].fieldType);
      }
      if p in t && t[p].Scalar? {
        assert LeafAt(PathsOf(b), TypesOf(b), p, t[p].fieldType);
        assert s[p] == Scalar(t[p].fieldType);
      }
    }
    forall p, c | p in s && s[p].Object?
      ensures c in s[p].children <==> c in t[p].children
    {
      ChildMember(PathsOf(a), p, c);
      ChildMember(PathsOf(b), p, c);
      SameThrough(a, b, p + [c]);
      SameThrough(b, a, p + [c]);
    }
  }

  lemma SameThrough(a: seq<(string, FieldType)>, b: seq<(string, FieldType)>, q: Segments)
    requires SameBindings(a, b) && AllValid(a) && AllValid(b)
    ensures (exists i :: 0 <= i < |a| && q <= PathsOf(a)[i]) ==> (exists j :: 0 <= j < |b| && q <= PathsOf(b)[j])
  {
    if i :| 0 <= i < |a| && q <= PathsOf(a)[i] {
      assert a[i] in b;
      var j :| 0 <= j < |b| && b[j] == a[i];
      assert q <= PathsOf(b)[j];
    }
  }

  // ----- The index of object keys -----

  type Index = map<string, seq<string>>

  predicate AllPathsValid(sources: seq<string>) {
    forall i :: 0 <= i < |sources| ==> SplitSourcePath(sources[i]).Some?
  }

  function SplitAll(sources: seq<string>): (r: seq<Segments>)
    requires AllPathsValid(sources)
    ensures |r| == |sources|
    ensures forall i :: 0 <= i < |r| ==> ValidSegments(r[i])
  {
    seq(|sources|, i requires 0 <= i < |sources| => SplitSourcePath(sources[i]).value)
  }

  /** Prefixes of valid paths: nothing yet, or valid segments. */
  predicate AllSegmentsValid(paths: seq<Segments>) {
    forall i :: 0 <= i < |paths| ==> paths[i] == [] || ValidSegments(paths[i])
  }

  /** The index holds the children of every inner node under its dotted name, and nothing else. */
  ghost predicate IsIndex(index: Index, paths: seq<Segments>) {
    && (forall p :: Inner(paths, p) ==> JoinDots(p) in index && index[JoinDots(p)] == ChildrenOf(paths, p))
    && (forall key :: key in index ==> exists p :: Inner(paths, p) && JoinDots(p) == key)
  }

  lemma InnerValid(paths: seq<Segments>, p: Segments)
    requires AllSegmentsValid(paths) && Inner(paths, p)
    ensures p == [] || ValidSegments(p)
  {
    var i :| 0 <= i < |paths| && p < paths[i];
    assert forall k :: 0 <= k < |p| ==> p[k] == paths[i][k];
  }

  lemma InnerDeeper(paths: seq<Segments>, q: Segments, s: string, p: Segments)
    ensures Inner(paths + [q + [s]], p) <==> Inner(paths + [q], p) || p == q
  {
    PrefixDeeper(q, s, p);
    var before, after := paths + [q], paths + [q + [s]];
    if i :| 0 <= i < |after| && p < after[i] {
      if i < |paths| {
        assert p < before[i];
      } else if p != q {
        assert p < before[|paths|];
      }
    }
    if i :| 0 <= i < |before| && p < before[i] {
      if i < |paths| {
        assert p < after[i];
      } else {
        assert p < after[|paths|];
      }
    }
    if p == q {
      assert p < after[|paths|];
    }
  }

  function Listed(index: Index, parent: string): seq<string> {
    if parent in index then index[parent] else []
  }

  function Indexed(index: Index, parent: string, s: string): Index {
    index[parent := if s in Listed(index, parent) then Listed(index, parent) else Listed(index, parent) + [s]]
  }

  /** What is listed under a parent so far are its children so far. */
  lemma ParentListed(index: Index, paths: seq<Segments>, q: Segments)
    requires AllSegmentsValid(paths) && (q == [] || ValidSegments(q)) && IsIndex(index, paths + [q])
    ensures Listed(index, JoinDots(q)) == ChildrenOf(paths, q)
  {
    ChildrenGrow(paths, q, q);
    assert AllSegmentsValid(paths + [q]);
    if JoinDots(q) in index {
      var p :| Inner(paths + [q], p) && JoinDots(p) == JoinDots(q);
      InnerValid(paths + [q], p);
      JoinInjective(p, q);
    } else {
      NoneThrough(paths + [q], q);
    }
  }

  lemma IndexedParent(index: Index, paths: seq<Segments>, q: Segments, s: string)
    requires AllSegmentsValid(paths) && (q == [] || ValidSegments(q)) && IsIndex(index, paths + [q])
    ensures Indexed(index, JoinDots(q), s)[JoinDots(q)] == ChildrenOf(paths + [q + [s]], q)
  {
    ParentListed(index, paths, q);
    ChildrenGrow(paths, q + [s], q);
    PrefixDeeper(q, s, q);
    assert (q + [s])[|q|] == s;
  }

  lemma IndexedOther(index: Index, paths: seq<Segments>, q: Segments, s: string, p: Segments)
    requires AllSegmentsValid(paths) && (q == [] || ValidSegments(q)) && IsIndex(index, paths + [q])
    requires p != q && Inner(paths + [q], p)
    ensures var after := Indexed(index, JoinDots(q), s);
      JoinDots(p) in after && after[JoinDots(p)] == ChildrenOf(paths + [q + [s]], p)
  {
    ChildrenDeeper(paths, q, s, p);
    assert AllSegmentsValid(paths + [q]);
    InnerValid(paths + [q], p);
    if JoinDots(p) == JoinDots(q) {
      JoinInjective(p, q);
    }
  }

  lemma IndexedNode(index: Index, paths: seq<Segments>, q: Segments, s: string, p: Segments)
    requires AllSegmentsValid(paths) && (q == [] || ValidSegments(q)) && IsIndex(index, paths + [q])
    requires Inner(paths + [q + [s]], p)
    ensures var after := Indexed(index, JoinDots(q), s);
      JoinDots(p) in after && after[JoinDots(p)] == ChildrenOf(paths + [q + [s]], p)
  {
    if p == q {
      IndexedParent(index, paths, q, s);
    } else {
      InnerDeeper(paths, q, s, p);
      IndexedOther(index, paths, q, s, p);
    }
  }

  /** One segment more under its parent. */
  lemma IndexSegment(index: Index, paths: seq<Segments>, q: Segments, s: string)
    requires AllSegmentsValid(paths) && (q == [] || ValidSegments(q)) && IsIndex(index, paths + [q])
    ensures IsIndex(Indexed(index, JoinDots(q), s), paths + [q + [s]])
  {
    forall p | Inner(paths + [q + [s]], p)
      ensures var after := Indexed(index, JoinDots(q), s);
        JoinDots(p) in after && after[JoinDots(p)] == ChildrenOf(paths + [q + [s]], p)
    {
      IndexedNode(index, paths, q, s, p);
    }
    forall key | key in Indexed(index, JoinDots(q), s)
      ensures exists p :: Inner(paths + [q + [s]], p) && JoinDots(p) == key
    {
      if key == JoinDots(q) {
        InnerDeeper(paths, q, s, q);
      } else {
        var p :| Inner(paths + [q], p) && JoinDots(p) == key;
        InnerDeeper(paths, q, s, p);
      }
    }
  }

  lemma JoinSnoc(q: Segments, s: string)
    requires q == [] || ValidSegments(q)
    ensures JoinDots(q + [s]) == if JoinDots(q) == "" then s else JoinDots(q) + "." + s
  {
    assert (q + [s])[..|q|] == q;
    if q != [] {
      SplitJoin(q);
    }
  }

  lemma EmptyPartial(index: Index, paths: seq<Segments>)
    ensures IsIndex(index, paths + [[]]) <==> IsIndex(index, paths)
  {
    forall p
      ensures Inner(paths + [[]], p) <==> Inner(paths, p)
      ensures ChildrenOf(paths + [[]], p) == ChildrenOf(paths, p)
    {
      ChildrenGrow(paths, [], p);
      if i :| 0 <= i < |paths| && p < paths[i] {
        assert p < (paths + [[]])[i];
      }
    }
  }

  /** Lists the segments of one path, each under the dotted name of what precedes it. */
  method IndexPath(index: Index, segments: Segments, ghost paths: seq<Segments>) returns (expected: Index)
    requires ValidSegments(segments) && AllSegmentsValid(paths) && IsIndex(index, paths)
    ensures IsIndex(expected, paths + [segments])
  {
    expected := index;
    EmptyPartial(index, paths);
    var parent := "";
    for k := 0 to |segments|
      invariant parent == JoinDots(segments[..k])
      invariant IsIndex(expected, paths + [segments[..k]])
    {
      ghost var entered := segments[..k];
      assert entered == [] || ValidSegments(entered);
      assert segments[..k + 1] == entered + [segments[k]];
      IndexSegment(expected, paths, entered, segments[k]);
      JoinSnoc(entered, segments[k]);
      expected := Indexed(expected, parent, segments[k]);
      parent := if parent != "" then parent + "." + segments[k] else segments[k];
    }
    assert segments[..|segments|] == segments;
  }

  /** For every object on the way to a source path, its keys in the order they are first seen. */
  method ExpectedObjectKeys(sources: seq<string>) returns (r: Option<Index>)
    ensures r.Some? <==> AllPathsValid(sources)
    ensures r.Some? ==> IsIndex(r.value, SplitAll(sources))
  {
    var expected: Index := map[];
    for i := 0 to |sources|
      invariant AllPathsValid(sources[..i])
      invariant IsIndex(expected, SplitAll(sources[..i]))
    {
      var segments := SplitSourcePath(sources[i]);
      if segments.None? {
        return None;
      }
      expected := IndexPath(expected, segments.value, SplitAll(sources[..i]));
      assert SplitAll(sources[..i + 1]) == SplitAll(sources[..i]) + [segments.value];
    }
    assert sources[..|sources|] == sources;
    r := Some(expected);
  }

  function SourcesOf(bindings: seq<(string, FieldType)>): (r: seq<string>)
    ensures |r| == |bindings|
  {
    seq(|bindings|, i requires 0 <= i < |bindings| => bindings[i].0)
  }

  /** For every inner node of the tree the index lists its children in the tree's own order. */
  lemma IndexMatchesTree(bindings: seq<(string, FieldType)>, tree: Tree, index: Index, p: Segments)
    requires AllValid(bindings) && AllPathsValid(SourcesOf(bindings))
    requires IsTree(tree, PathsOf(bindings), TypesOf(bindings)) && IsIndex(index, SplitAll(SourcesOf(bindings)))
    requires p in tree && tree[p].Object? && p != []
    ensures JoinDots(p) in index && index[JoinDots(p)] == tree[p].children
    ensures bindings != [] ==> "" in index && [] in tree && tree[[]].Object? && index[""] == tree[[]].children
  {
    assert SplitAll(SourcesOf(bindings)) == PathsOf(bindings);
    if bindings != [] {
      assert [] < PathsOf(bindings)[0] && Inner(PathsOf(bindings), []);
      assert JoinDots([]) == "";
    }
  }
}
