/**
 Kafka offsets compressed into half-open ranges, in the two ways the maintenance job does it: a loop that
 extends the last range in place, and a grouping by offset minus row number.
 */
module OffsetRanges {
  datatype Point = Point(topic: string, partition: int, offset: int)

  datatype Range = Range(topic: string, partition: int, start: int, end: int)
  {
    predicate Contains(p: Point) {
      p.topic == topic && p.partition == partition && start <= p.offset < end
    }
  }

  // ----- The order of topics, partitions and offsets -----

  predicate TopicLess(a: string, b: string) {
    b != [] && (a == [] || a[0] < b[0] || (a[0] == b[0] && TopicLess(a[1..], b[1..])))
  }

  lemma {:induction false} TopicOrder(a: string, b: string)
    ensures !TopicLess(a, a)
    ensures TopicLess(a, b) || a == b || TopicLess(b, a)
    ensures !(TopicLess(a, b) && TopicLess(b, a))
  {
    if a != [] {
      TopicOrder(a[1..], if b == [] then [] else b[1..]);
      if b != [] {
        assert a == [a[0]] + a[1..] && b == [b[0]] + b[1..];
      }
    }
  }

  lemma {:induction false} TopicTransitive(a: string, b: string, c: string)
    requires TopicLess(a, b) && TopicLess(b, c)
    ensures TopicLess(a, c)
  {
    if a != [] && a[0] == b[0] == c[0] {
      TopicTransitive(a[1..], b[1..], c[1..]);
    }
  }

  predicate LogLess(t: string, p: int, u: string, q: int) {
    TopicLess(t, u) || (t == u && p < q)
  }

  predicate Before(a: Point, b: Point) {
    LogLess(a.topic, a.partition, b.topic, b.partition)
    || (a.topic == b.topic && a.partition == b.partition && a.offset < b.offset)
  }

  lemma BeforeOrder(a: Point, b: Point)
    ensures !Before(a, a)
    ensures Before(a, b) || a == b || Before(b, a)
    ensures !(Before(a, b) && Before(b, a))
  {
    TopicOrder(a.topic, b.topic);
    TopicOrder(b.topic, a.topic);
  }

  lemma BeforeTransitive(a: Point, b: Point, c: Point)
    requires Before(a, b) && Before(b, c)
    ensures Before(a, c)
  {
    if TopicLess(a.topic, b.topic) && TopicLess(b.topic, c.topic) {
      TopicTransitive(a.topic, b.topic, c.topic);
    }
  }

  /** The topic is a proper beginning of the other, or smaller at the first character where they differ. */
  predicate TopicBefore(a: string, b: string) {
    exists i :: 0 <= i <= |a| && i <= |b| && a[..i] == b[..i] && i < |b| && (i == |a| || a[i] < b[i])
  }

  lemma {:induction false} TopicMeans(a: string, b: string)
    ensures TopicLess(a, b) <==> TopicBefore(a, b)
  {
    if a == [] {
      assert b != [] ==> a[..0] == b[..0];
    } else if b != [] {
      TopicMeans(a[1..], b[1..]);
      if i :| 0 <= i <= |a| && i <= |b| && a[..i] == b[..i] && i < |b| && (i == |a| || a[i] < b[i]) && i > 0 {
        assert a[0] == a[..i][0] == b[..i][0] == b[0];
        assert a[1..][..i - 1] == a[..i][1..] == b[..i][1..] == b[1..][..i - 1];
      }
      if a[0] == b[0] && TopicBefore(a[1..], b[1..]) {
        var i :| 0 <= i <= |a[1..]| && i <= |b[1..]| && a[1..][..i] == b[1..][..i] && i < |b[1..]|
          && (i == |a[1..]| || a[1..][i] < b[1..][i]);
        assert a[..i + 1] == [a[0]] + a[1..][..i] && b[..i + 1] == [b[0]] + b[1..][..i];
      }
      if a[0] < b[0] {
        assert a[..0] == b[..0];
      }
    }
  }

  /** Offsets are in order by topic, then partition, then offset, each from the smallest. */
  lemma BeforeMeans(a: Point, b: Point)
    ensures Before(a, b) <==>
      || TopicBefore(a.topic, b.topic)
      || (a.topic == b.topic && a.partition < b.partition)
      || (a.topic == b.topic && a.partition == b.partition && a.offset < b.offset)
  {
    TopicMeans(a.topic, b.topic);
  }

  predicate Sorted(s: seq<Point>) {
    forall i, j :: 0 <= i < j < |s| ==> Before(s[i], s[j])
  }

  function Insert(p: Point, s: seq<Point>): seq<Point> {
    if s == [] || Before(p, s[0]) then [p] + s
    else if s[0] == p then s
    else [s[0]] + Insert(p, s[1..])
  }

  /** `distinct().orderBy(topic, partition, offset)`. */
  function SortDistinct(rows: seq<Point>): seq<Point> {
    if rows == [] then [] else Insert(rows[0], SortDistinct(rows[1..]))
  }

  lemma {:induction false} InsertSorts(p: Point, s: seq<Point>)
    requires Sorted(s)
    ensures Sorted(Insert(p, s))
    ensures forall q :: q in Insert(p, s) <==> q == p || q in s
  {
    if s != [] {
      BeforeOrder(p, s[0]);
      assert s == [s[0]] + s[1..];
      if Before(p, s[0]) {
        forall j | 1 <= j < |s|
          ensures Before(p, s[j])
        {
          BeforeTransitive(p, s[0], s[j]);
        }
      } else if p != s[0] {
        InsertSorts(p, s[1..]);
        var rest := Insert(p, s[1..]);
        forall j | 0 <= j < |rest|
          ensures Before(s[0], rest[j])
        {
          assert rest[j] in rest;
        }
      }
    }
  }

  lemma {:induction false} SortDistinctSorts(rows: seq<Point>)
    ensures Sorted(SortDistinct(rows))
    ensures forall q :: q in SortDistinct(rows) <==> q in rows
  {
    if rows != [] {
      SortDistinctSorts(rows[1..]);
      InsertSorts(rows[0], SortDistinct(rows[1..]));
    }
  }

  // ----- Canonical lists of ranges -----

  /** `a` ends before `b` starts, with at least one offset between them if they share a partition. */
  predicate Apart(a: Range, b: Range) {
    LogLess(a.topic, a.partition, b.topic, b.partition)
    || (a.topic == b.topic && a.partition == b.partition && a.end < b.start)
  }

  /** Non-empty half-open ranges, sorted, disjoint and not adjacent. */
  predicate Canonical(ranges: seq<Range>) {
    && (forall i :: 0 <= i < |ranges| ==> ranges[i].start < ranges[i].end)
    && (forall i, j :: 0 <= i < j < |ranges| ==> Apart(ranges[i], ranges[j]))
  }

  predicate Covers(ranges: seq<Range>, p: Point) {
    exists i :: 0 <= i < |ranges| && ranges[i].Contains(p)
  }

  /** The ranges cover exactly the offsets of the rows. */
  ghost predicate Describes(ranges: seq<Range>, rows: seq<Point>) {
    Canonical(ranges) && forall p: Point :: Covers(ranges, p) <==> p in rows
  }

  function StartOf(r: Range): Point {
    Point(r.topic, r.partition, r.start)
  }

  /** Everything after the first range lies strictly behind it, and its end is not covered. */
  lemma FirstRange(ranges: seq<Range>)
    requires Canonical(ranges) && ranges != []
    ensures var r := ranges[0];
      && (forall p :: Covers(ranges[1..], p) <==> Covers(ranges, p) && !r.Contains(p))
      && (forall p :: Covers(ranges, p) ==> p == StartOf(r) || Before(StartOf(r), p))
      && !Covers(ranges, Point(r.topic, r.partition, r.end))
  {
    var r := ranges[0];
    forall i, p | 1 <= i < |ranges| && ranges[i].Contains(p)
      ensures !r.Contains(p) && Before(StartOf(r), p)
      ensures p != Point(r.topic, r.partition, r.end)
    {
      assert Apart(r, ranges[i]);
      TopicOrder(r.topic, p.topic);
    }
    forall p | Covers(ranges, p) && !r.Contains(p)
      ensures Covers(ranges[1..], p)
    {
      var i :| 0 <= i < |ranges| && ranges[i].Contains(p);
      assert ranges[1..][i - 1].Contains(p);
    }
    forall p | Covers(ranges[1..], p)
      ensures Covers(ranges, p) && !r.Contains(p)
    {
      var i :| 0 <= i < |ranges[1..]| && ranges[1..][i].Contains(p);
      assert ranges[i + 1].Contains(p);
    }
  }

  lemma StartCovered(ranges: seq<Range>)
    requires Canonical(ranges) && ranges != []
    ensures Covers(ranges, StartOf(ranges[0]))
  {
    assert ranges[0].Contains(StartOf(ranges[0]));
  }

  /** A set of offsets has at most one canonical list of ranges. */
  lemma {:induction false} CanonicalUnique(a: seq<Range>, b: seq<Range>)
    requires Canonical(a) && Canonical(b)
    requires forall p: Point :: Covers(a, p) <==> Covers(b, p)
    ensures a == b
    decreases |a|
  {
    if a != [] {
      StartCovered(a);
    }
    if b != [] {
      StartCovered(b);
    }
    if a != [] && b != [] {
      var r, s := a[0], b[0];
      FirstRange(a);
      FirstRange(b);
      BeforeOrder(StartOf(r), StartOf(s));
      assert StartOf(r) == StartOf(s);
      var endR, endS := Point(r.topic, r.partition, r.end), Point(s.topic, s.partition, s.end);
      assert !s.Contains(endR) && !r.Contains(endS);
      assert r == s;
      CanonicalUnique(a[1..], b[1..]);
      assert a == [r] + a[1..] && b == [s] + b[1..];
    }
  }

  // ----- The merge loop -----

  /** One pass over the sorted distinct rows, extending the last range in place where it can. */
  method CompactKafkaSourceRanges(rows: seq<Point>) returns (ranges: seq<Range>)
    ensures Describes(ranges, rows)
  {
    var sorted := SortDistinct(rows);
    SortDistinctSorts(rows);
    ranges := [];
    for i := 0 to |sorted|
      invariant Canonical(ranges)
      invariant forall p: Point :: Covers(ranges, p) <==> p in sorted[..i]
      invariant ranges == [] <==> i == 0
      invariant i > 0 ==> var last := ranges[|ranges| - 1];
        last.topic == sorted[i - 1].topic && last.partition == sorted[i - 1].partition
        && last.end == sorted[i - 1].offset + 1
    {
      var row := sorted[i];
      assert sorted[..i + 1] == sorted[..i] + [row];
      if i > 0 {
        assert Before(sorted[i - 1], row);
      }
      if ranges != [] {
        var last := |ranges| - 1;
        var previous := ranges[last];
        if previous.topic == row.topic && previous.partition == row.partition && previous.end == row.offset {
          ExtendLast(ranges, row);
          ranges := ranges[last := previous.(end := row.offset + 1)];
          continue;
        }
      }
      AppendRange(ranges, row);
      ranges := ranges + [Range(row.topic, row.partition, row.offset, row.offset + 1)];
    }
    assert sorted[..|sorted|] == sorted;
  }

  lemma ExtendLast(ranges: seq<Range>, row: Point)
    requires Canonical(ranges) && ranges != []
    requires var r := ranges[|ranges| - 1]; r.topic == row.topic && r.partition == row.partition && r.end == row.offset
    ensures var longer := ranges[|ranges| - 1 := ranges[|ranges| - 1].(end := row.offset + 1)];
      Canonical(longer) && forall p: Point :: Covers(longer, p) <==> Covers(ranges, p) || p == row
  {
    var last := |ranges| - 1;
    var longer := ranges[last := ranges[last].(end := row.offset + 1)];
    assert longer[last].Contains(row);
    forall p: Point | Covers(ranges, p)
      ensures Covers(longer, p)
    {
      var i :| 0 <= i < |ranges| && ranges[i].Contains(p);
      assert longer[i].Contains(p);
    }
    forall p: Point | Covers(longer, p) && p != row
      ensures Covers(ranges, p)
    {
      var i :| 0 <= i < |longer| && longer[i].Contains(p);
      assert ranges[i].Contains(p);
    }
  }

  lemma AppendRange(ranges: seq<Range>, row: Point)
    requires Canonical(ranges)
    requires ranges != [] ==> var r := ranges[|ranges| - 1];
      Before(Point(r.topic, r.partition, r.end - 1), row)
      && !(r.topic == row.topic && r.partition == row.partition && r.end == row.offset)
    ensures var longer := ranges + [Range(row.topic, row.partition, row.offset, row.offset + 1)];
      Canonical(longer) && forall p: Point :: Covers(longer, p) <==> Covers(ranges, p) || p == row
  {
    var one := Range(row.topic, row.partition, row.offset, row.offset + 1);
    var longer := ranges + [one];
    forall i | 0 <= i < |ranges|
      ensures Apart(ranges[i], one)
    {
      var last := ranges[|ranges| - 1];
      TopicOrder(last.topic, row.topic);
      if i < |ranges| - 1 {
        assert Apart(ranges[i], last);
        if TopicLess(ranges[i].topic, last.topic) && TopicLess(last.topic, row.topic) {
          TopicTransitive(ranges[i].topic, last.topic, row.topic);
        }
      }
    }
    assert longer[|ranges|].Contains(row);
    forall p: Point | Covers(ranges, p)
      ensures Covers(longer, p)
    {
      var i :| 0 <= i < |ranges| && ranges[i].Contains(p);
      assert longer[i].Contains(p);
    }
  }

  // ----- The grouping -----

  /** The distinct offsets of a partition up to and including `upTo`. */
  function UpTo(points: set<Point>, topic: string, partition: int, upTo: int): set<Point> {
    set p | p in points && p.topic == topic && p.partition == partition && p.offset <= upTo
  }

  /** `row_number()` over the partition of the row, in offset order. */
  function RowNumber(points: set<Point>, row: Point): nat {
    |UpTo(points, row.topic, row.partition, row.offset)|
  }

  /** The group a row falls into: its topic and partition, and its offset minus its row number. */
  function GroupOf(points: set<Point>, row: Point): Point {
    row.(offset := row.offset - RowNumber(points, row))
  }

  function GroupKeys(points: set<Point>, rows: seq<Point>): seq<Point> {
    if rows == [] then [] else [GroupOf(points, rows[0])] + GroupKeys(points, rows[1..])
  }

  function Members(points: set<Point>, rows: seq<Point>, key: Point): seq<int> {
    if rows == [] then []
    else if GroupOf(points, rows[0]) == key then [rows[0].offset] + Members(points, rows[1..], key)
    else Members(points, rows[1..], key)
  }

  function Smallest(offsets: seq<int>): (m: int)
    requires offsets != []
    ensures m in offsets && forall o :: o in offsets ==> m <= o
  {
    if |offsets| == 1 then offsets[0]
    else
      var rest := Smallest(offsets[1..]);
      assert forall o :: o in offsets ==> o == offsets[0] || o in offsets[1..];
      if offsets[0] <= rest then offsets[0] else rest
  }

  function Largest(offsets: seq<int>): (m: int)
    requires offsets != []
    ensures m in offsets && forall o :: o in offsets ==> o <= m
  {
    if |offsets| == 1 then offsets[0]
    else
      var rest := Largest(offsets[1..]);
      assert forall o :: o in offsets ==> o == offsets[0] || o in offsets[1..];
      if offsets[0] >= rest then offsets[0] else rest
  }

  /** The aggregate of one group; a group is never empty. */
  function GroupRange(points: set<Point>, rows: seq<Point>, key: Point): Range {
    var offsets := Members(points, rows, key);
    if offsets == [] then Range(key.topic, key.partition, 0, 0)
    else Range(key.topic, key.partition, Smallest(offsets), Largest(offsets) + 1)
  }

  function GroupRanges(points: set<Point>, rows: seq<Point>, keys: seq<Point>): (r: seq<Range>)
    ensures |r| == |keys|
    ensures forall i :: 0 <= i < |keys| ==> r[i] == GroupRange(points, rows, keys[i])
  {
    if keys == [] then []
    else [GroupRange(points, rows, keys[0])] + GroupRanges(points, rows, keys[1..])
  }

  function InsertRange(r: Range, s: seq<Range>): seq<Range> {
    if s == [] || Before(StartOf(r), StartOf(s[0])) then [r] + s else [s[0]] + InsertRange(r, s[1..])
  }

  /** `orderBy(topic, partition, start_offset)`. */
  function OrderByStart(s: seq<Range>): seq<Range> {
    if s == [] then [] else InsertRange(s[0], OrderByStart(s[1..]))
  }

  /** Distinct rows, numbered within their partition, grouped by offset minus number, aggregated and ordered. */
  function ReplaySourceRanges(rows: seq<Point>): seq<Range> {
    var distinct := SortDistinct(rows);
    var points := set p | p in rows;
    OrderByStart(GroupRanges(points, distinct, SortDistinct(GroupKeys(points, distinct))))
  }

  // Row numbers grow by one exactly at the offsets present.

  lemma NextNumber(points: set<Point>, row: Point, upTo: int)
    ensures var next := row.(offset := upTo + 1);
      |UpTo(points, row.topic, row.partition, upTo + 1)|
      == |UpTo(points, row.topic, row.partition, upTo)| + (if next in points then 1 else 0)
  {
    var next := row.(offset := upTo + 1);
    var longer, shorter := UpTo(points, row.topic, row.partition, upTo + 1), UpTo(points, row.topic, row.partition, upTo);
    if next in points {
      assert longer == shorter + {next};
    } else {
      assert longer == shorter;
    }
  }

  /** Between two offsets the row number grows by their distance exactly if every offset between is present. */
  lemma {:induction false} NumbersGrow(points: set<Point>, row: Point, lo: int, hi: int)
    requires lo <= hi
    ensures var grown := |UpTo(points, row.topic, row.partition, hi)| - |UpTo(points, row.topic, row.partition, lo)|;
      && 0 <= grown <= hi - lo
      && (grown == hi - lo <==> forall o :: lo < o <= hi ==> row.(offset := o) in points)
    decreases hi - lo
  {
    if lo < hi {
      NumbersGrow(points, row, lo, hi - 1);
      NextNumber(points, row, hi - 1);
    }
  }

  /** Two rows of a partition share their group exactly if no offset between them is missing. */
  lemma SameGroup(points: set<Point>, a: Point, b: Point)
    requires a.topic == b.topic && a.partition == b.partition && a.offset <= b.offset
    ensures GroupOf(points, a).offset <= GroupOf(points, b).offset
    ensures GroupOf(points, a) == GroupOf(points, b)
       <==> forall o :: a.offset < o <= b.offset ==> a.(offset := o) in points
  {
    NumbersGrow(points, a, a.offset, b.offset);
  }

  lemma {:induction false} KeysOfRows(points: set<Point>, rows: seq<Point>)
    ensures forall key :: key in GroupKeys(points, rows) <==> exists row :: row in rows && GroupOf(points, row) == key
  {
    if rows != [] {
      KeysOfRows(points, rows[1..]);
      assert forall row :: row in rows <==> row == rows[0] || row in rows[1..];
    }
  }

  lemma {:induction false} MembersOfGroup(points: set<Point>, rows: seq<Point>, key: Point, o: int)
    ensures o in Members(points, rows, key)
       <==> key.(offset := o) in rows && GroupOf(points, key.(offset := o)) == key
  {
    if rows != [] {
      MembersOfGroup(points, rows[1..], key, o);
      assert forall row :: row in rows <==> row == rows[0] || row in rows[1..];
    }
  }

  /** A group's range holds exactly the rows of the group, and every offset in it is a row. */
  lemma GroupCovers(points: set<Point>, rows: seq<Point>, row: Point)
    requires row in rows && forall p :: p in points <==> p in rows
    ensures var key := GroupOf(points, row);
      var range := GroupRange(points, rows, key);
      && range.start < range.end
      && forall p: Point :: range.Contains(p) <==> p in rows && GroupOf(points, p) == key
  {
    var key := GroupOf(points, row);
    var offsets := Members(points, rows, key);
    MembersOfGroup(points, rows, key, row.offset);
    assert key.(offset := row.offset) == row;
    var low, high := Smallest(offsets), Largest(offsets);
    MembersOfGroup(points, rows, key, low);
    MembersOfGroup(points, rows, key, high);
    var first, last := key.(offset := low), key.(offset := high);
    SameGroup(points, first, last);
    forall p: Point | GroupRange(points, rows, key).Contains(p)
      ensures p in rows && GroupOf(points, p) == key
    {
      assert p == first.(offset := p.offset);
      SameGroup(points, first, p);
    }
    forall p: Point | p in rows && GroupOf(points, p) == key
      ensures GroupRange(points, rows, key).Contains(p)
    {
      assert p == key.(offset := p.offset);
      MembersOfGroup(points, rows, key, p.offset);
    }
  }

  /** The ranges of two groups never touch. */
  lemma GroupsApart(points: set<Point>, rows: seq<Point>, a: Point, b: Point)
    requires a in rows && b in rows && forall p :: p in points <==> p in rows
    requires GroupOf(points, a) != GroupOf(points, b)
    ensures var r, s := GroupRange(points, rows, GroupOf(points, a)), GroupRange(points, rows, GroupOf(points, b));
      Apart(r, s) || Apart(s, r)
  {
    var r, s := GroupRange(points, rows, GroupOf(points, a)), GroupRange(points, rows, GroupOf(points, b));
    GroupCovers(points, rows, a);
    GroupCovers(points, rows, b);
    TopicOrder(r.topic, s.topic);
    if r.topic == s.topic && r.partition == s.partition {
      GapBetween(points, rows, r, s, GroupOf(points, a), GroupOf(points, b));
      GapBetween(points, rows, s, r, GroupOf(points, b), GroupOf(points, a));
    }
  }

  /** If one group's range starts no later than another's in the same partition, a gap separates them. */
  lemma GapBetween(points: set<Point>, rows: seq<Point>, r: Range, s: Range, a: Point, b: Point)
    requires r.topic == s.topic && r.partition == s.partition && r.start < r.end && s.start < s.end && a != b
    requires forall p :: p in points <==> p in rows
    requires forall p: Point :: r.Contains(p) <==> p in rows && GroupOf(points, p) == a
    requires forall p: Point :: s.Contains(p) <==> p in rows && GroupOf(points, p) == b
    ensures r.start <= s.start ==> r.end < s.start
  {
    var last := Point(r.topic, r.partition, r.end - 1);
    var first := StartOf(s);
    assert r.Contains(last) && s.Contains(first);
    if r.start <= s.start && s.start <= r.end {
      assert !r.Contains(first);
      SameGroup(points, last, first);
      assert false;
    }
  }

  // ----- Ordering the groups gives the canonical list -----

  lemma ApartTransitive(a: Range, b: Range, c: Range)
    requires Apart(a, b) && Apart(b, c) && b.start < b.end
    ensures Apart(a, c)
  {
    if TopicLess(a.topic, b.topic) && TopicLess(b.topic, c.topic) {
      TopicTransitive(a.topic, b.topic, c.topic);
    }
  }

  lemma StartsOrder(a: Range, b: Range)
    requires Apart(a, b) && a.start < a.end
    ensures Before(StartOf(a), StartOf(b)) && !Before(StartOf(b), StartOf(a))
  {
    TopicOrder(a.topic, b.topic);
  }

  lemma {:induction false} InsertRangeCanonical(r: Range, s: seq<Range>)
    requires Canonical(s) && r.start < r.end
    requires forall x :: x in s ==> Apart(r, x) || Apart(x, r)
    ensures Canonical(InsertRange(r, s))
    ensures forall x :: x in InsertRange(r, s) <==> x == r || x in s
  {
    if s != [] {
      assert s == [s[0]] + s[1..] && s[0] in s;
      if Before(StartOf(r), StartOf(s[0])) {
        if Apart(s[0], r) {
          StartsOrder(s[0], r);
        }
        forall j | 1 <= j < |s|
          ensures Apart(r, s[j])
        {
          ApartTransitive(r, s[0], s[j]);
        }
      } else {
        if Apart(r, s[0]) {
          StartsOrder(r, s[0]);
        }
        InsertRangeCanonical(r, s[1..]);
        var rest := InsertRange(r, s[1..]);
        forall j | 0 <= j < |rest|
          ensures Apart(s[0], rest[j])
        {
          assert rest[j] in rest;
        }
      }
    }
  }

  lemma {:induction false} OrderCanonical(s: seq<Range>)
    requires forall i :: 0 <= i < |s| ==> s[i].start < s[i].end
    requires forall i, j :: 0 <= i < j < |s| ==> Apart(s[i], s[j]) || Apart(s[j], s[i])
    ensures Canonical(OrderByStart(s))
    ensures forall x :: x in OrderByStart(s) <==> x in s
  {
    if s != [] {
      OrderCanonical(s[1..]);
      forall x | x in OrderByStart(s[1..])
        ensures Apart(s[0], x) || Apart(x, s[0])
      {
        var j :| 0 <= j < |s[1..]| && s[1..][j] == x;
        assert s[j + 1] == x;
      }
      InsertRangeCanonical(s[0], OrderByStart(s[1..]));
    }
  }

  ghost predicate KeysOf(points: set<Point>, distinct: seq<Point>, keys: seq<Point>) {
    && (forall p :: p in points <==> p in distinct)
    && Sorted(keys)
    && (forall key :: key in keys <==> key in GroupKeys(points, distinct))
  }

  lemma KeyHasRow(points: set<Point>, distinct: seq<Point>, keys: seq<Point>, i: nat) returns (row: Point)
    requires KeysOf(points, distinct, keys) && i < |keys|
    ensures row in distinct && GroupOf(points, row) == keys[i]
  {
    KeysOfRows(points, distinct);
    assert keys[i] in keys;
    row :| row in distinct && GroupOf(points, row) == keys[i];
  }

  lemma TwoGroupsApart(points: set<Point>, distinct: seq<Point>, keys: seq<Point>, i: nat, j: nat)
    requires KeysOf(points, distinct, keys) && i < j < |keys|
    ensures var r, s := GroupRange(points, distinct, keys[i]), GroupRange(points, distinct, keys[j]);
      Apart(r, s) || Apart(s, r)
  {
    var a := KeyHasRow(points, distinct, keys, i);
    var b := KeyHasRow(points, distinct, keys, j);
    assert Before(keys[i], keys[j]);
    BeforeOrder(keys[i], keys[j]);
    GroupsApart(points, distinct, a, b);
  }

  /** The groups of the distinct rows, before they are ordered. */
  lemma GroupsDescribe(points: set<Point>, distinct: seq<Point>, keys: seq<Point>)
    requires KeysOf(points, distinct, keys)
    ensures var ranges := GroupRanges(points, distinct, keys);
      && (forall i :: 0 <= i < |ranges| ==> ranges[i].start < ranges[i].end)
      && (forall i, j :: 0 <= i < j < |ranges| ==> Apart(ranges[i], ranges[j]) || Apart(ranges[j], ranges[i]))
      && (forall p: Point :: Covers(ranges, p) <==> p in distinct)
  {
    var ranges := GroupRanges(points, distinct, keys);
    forall i | 0 <= i < |ranges|
      ensures ranges[i].start < ranges[i].end
      ensures forall p: Point :: ranges[i].Contains(p) <==> p in distinct && GroupOf(points, p) == keys[i]
    {
      var row := KeyHasRow(points, distinct, keys, i);
      GroupCovers(points, distinct, row);
    }
    forall i, j | 0 <= i < j < |ranges|
      ensures Apart(ranges[i], ranges[j]) || Apart(ranges[j], ranges[i])
    {
      TwoGroupsApart(points, distinct, keys, i, j);
    }
    KeysOfRows(points, distinct);
    forall p: Point | p in distinct
      ensures Covers(ranges, p)
    {
      assert GroupOf(points, p) in keys;
      var i :| 0 <= i < |keys| && keys[i] == GroupOf(points, p);
      assert ranges[i].Contains(p);
    }
  }

  lemma SameCover(a: seq<Range>, b: seq<Range>)
    requires forall x :: x in a <==> x in b
    ensures forall p: Point :: Covers(a, p) <==> Covers(b, p)
  {
    forall p: Point
      ensures Covers(a, p) <==> exists x :: x in a && x.Contains(p)
      ensures Covers(b, p) <==> exists x :: x in b && x.Contains(p)
    {
    }
  }

  /** The grouping describes its rows. */
  lemma ReplayDescribes(rows: seq<Point>)
    ensures Describes(ReplaySourceRanges(rows), rows)
  {
    var distinct := SortDistinct(rows);
    var points := set p | p in rows;
    var keys := SortDistinct(GroupKeys(points, distinct));
    var ranges := GroupRanges(points, distinct, keys);
    SortDistinctSorts(rows);
    SortDistinctSorts(GroupKeys(points, distinct));
    GroupsDescribe(points, distinct, keys);
    OrderCanonical(ranges);
    SameCover(ranges, OrderByStart(ranges));
  }

  /** Whatever describes the rows, the merge loop's result included, is what the grouping returns. */
  lemma AlgorithmsAgree(rows: seq<Point>, ranges: seq<Range>)
    ensures Describes(ranges, rows) <==> ranges == ReplaySourceRanges(rows)
  {
    ReplayDescribes(rows);
    if Describes(ranges, rows) {
      CanonicalUnique(ranges, ReplaySourceRanges(rows));
    }
  }

  /** The ranges depend on the set of offsets alone, not on order or repetition. */
  lemma RangesOfASet(a: seq<Point>, b: seq<Point>)
    requires forall p :: p in a <==> p in b
    ensures ReplaySourceRanges(a) == ReplaySourceRanges(b)
  {
    ReplayDescribes(a);
    ReplayDescribes(b);
    CanonicalUnique(ReplaySourceRanges(a), ReplaySourceRanges(b));
  }
}
