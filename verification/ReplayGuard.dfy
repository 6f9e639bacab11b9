/**
 The replay guard of the gateway: a bounded table of signed contexts with a fixed time to live, and what its
 answers mean over any sequence of calls with a clock that never goes back.
 */
module ReplayGuard {
  import opened Sets

  datatype Entry = Entry(key: string, expires: real)

  /** The entries in the order they were inserted, as a Python dict keeps them. */
  type Table = seq<Entry>

  predicate Holds(seen: Table, key: string) {
    exists e :: e in seen && e.key == key
  }

  /** The entries still alive. */
  function Alive(seen: Table, now: real): (r: Table)
    ensures |r| <= |seen|
    ensures forall e :: e in r <==> e in seen && e.expires > now
  {
    if seen == [] then []
    else
      var rest := Alive(seen[1..], now);
      if seen[0].expires > now then [seen[0]] + rest else rest
  }

  predicate KeysOnce(seen: Table) {
    forall i, j :: 0 <= i < j < |seen| ==> seen[i].key != seen[j].key
  }

  /** Where `min` finds the entry that expires first: the first of them in insertion order. */
  function Earliest(seen: Table): (i: nat)
    requires seen != []
    ensures i < |seen|
    ensures forall j :: 0 <= j < |seen| ==> seen[i].expires <= seen[j].expires
    ensures forall j :: 0 <= j < i ==> seen[i].expires < seen[j].expires
  {
    if |seen| == 1 then 0
    else
      var k := Earliest(seen[1..]);
      if seen[0].expires <= seen[1..][k].expires then 0 else k + 1
  }

  function Without(seen: Table, i: nat): Table
    requires i < |seen|
  {
    seen[..i] + seen[i + 1..]
  }

  /** Whether a call accepts its key, and the table it leaves. */
  function Consumed(seen: Table, max: nat, key: string, now: real, ttl: real): (bool, Table) {
    var alive := Alive(seen, now);
    if Holds(alive, key) then (false, alive)
    else if |alive| >= max && alive != [] then (true, Without(alive, Earliest(alive)) + [Entry(key, now + ttl)])
    else (true, alive + [Entry(key, now + ttl)])
  }

  class ContextReplayGuard {
    var seen: Table
    const maxEntries: nat

    ghost predicate Valid()
      reads this
    {
      maxEntries >= 1 && KeysOnce(seen) && |seen| <= maxEntries
    }

    constructor (maxEntries: nat)
      requires maxEntries >= 1
      ensures Valid() && seen == [] && this.maxEntries == maxEntries
    {
      seen, this.maxEntries := [], maxEntries;
    }

    method Consume(key: string, now: real, ttl: real) returns (accepted: bool)
      requires Valid()
      modifies this`seen
      ensures Valid()
      ensures (accepted, seen) == Consumed(old(seen), maxEntries, key, now, ttl)
    {
      AliveKeepsKeys(seen, now);
      seen := Alive(seen, now);
      if exists e :: e in seen && e.key == key {
        return false;
      }
      if |seen| >= maxEntries {
        var earliest := Earliest(seen);
        WithoutKeepsKeys(seen, earliest);
        seen := seen[..earliest] + seen[earliest + 1..];
      }
      AppendKeepsKeys(seen, Entry(key, now + ttl));
      seen := seen + [Entry(key, now + ttl)];
      accepted := true;
    }
  }

  lemma {:induction false} AliveKeepsKeys(seen: Table, now: real)
    requires KeysOnce(seen)
    ensures KeysOnce(Alive(seen, now))
  {
    if seen != [] {
      AliveKeepsKeys(seen[1..], now);
      var rest := Alive(seen[1..], now);
      forall j | 0 <= j < |rest|
        ensures rest[j].key != seen[0].key
      {
        assert rest[j] in seen[1..];
        var k :| 0 <= k < |seen[1..]| && seen[1..][k] == rest[j];
        assert seen[k + 1] == rest[j];
      }
    }
  }

  lemma WithoutKeepsKeys(seen: Table, i: nat)
    requires i < |seen| && KeysOnce(seen)
    ensures KeysOnce(Without(seen, i)) && |Without(seen, i)| == |seen| - 1
    ensures forall e :: e in Without(seen, i) ==> e in seen
  {
    var less := Without(seen, i);
    forall j | 0 <= j < |less|
      ensures less[j] == seen[if j < i then j else j + 1]
    {
    }
  }

  lemma AppendKeepsKeys(seen: Table, e: Entry)
    requires KeysOnce(seen) && !Holds(seen, e.key)
    ensures KeysOnce(seen + [e])
  {
    forall j | 0 <= j < |seen|
      ensures seen[j].key != e.key
    {
      assert seen[j] in seen;
    }
  }

  // ----- Sequences of calls -----

  datatype Call = Call(key: string, now: real)

  /** A run of the guard: the calls, their answers, and the table before each call and after the last. */
  datatype Run = Run(max: nat, ttl: real, calls: seq<Call>, answers: seq<bool>, tables: seq<Table>)
  {
    predicate Sized() {
      |answers| == |calls| && |tables| == |calls| + 1
    }

    predicate Step(n: nat)
      requires Sized() && n < |calls|
    {
      (answers[n], tables[n + 1]) == Consumed(tables[n], max, calls[n].key, calls[n].now, ttl)
    }

    function EntryOf(i: nat): Entry
      requires i < |calls|
    {
      Entry(calls[i].key, calls[i].now + ttl)
    }

    /** Starts empty, takes the guard's steps, and its clock never goes back. */
    ghost predicate Valid() {
      && Sized() && max >= 1 && tables[0] == []
      && (forall n: nat :: n < |calls| ==> Step(n))
      && (forall i: nat, j: nat {:trigger NoLater(i, j)} :: i <= j < |calls| ==> NoLater(i, j))
    }

    predicate NoLater(i: nat, j: nat)
      requires i < |calls| && j < |calls|
    {
      calls[i].now <= calls[j].now
    }

    predicate Accepted(i: nat)
      requires Sized() && i < |calls|
    {
      answers[i]
    }
  }

  /** The accepted calls before call `n + 1`, given those before call `n`. */
  function Grown(r: Run, n: nat, h: seq<nat>): seq<nat>
    requires r.Sized() && n < |r.calls|
  {
    if r.Accepted(n) then h + [n] else h
  }

  /** The accepted calls before call `n`, in order. */
  function History(r: Run, n: nat): seq<nat>
    requires r.Sized() && n <= |r.calls|
  {
    if n == 0 then [] else Grown(r, n - 1, History(r, n - 1))
  }

  predicate IsHistory(r: Run, n: nat, h: seq<nat>)
    requires r.Sized() && n <= |r.calls|
  {
    && (forall p :: 0 <= p < |h| ==> h[p] < n && r.Accepted(h[p]))
    && (forall p, q :: 0 <= p < q < |h| ==> h[p] < h[q])
    && (forall i: nat {:trigger i in h} :: i < n && r.Accepted(i) ==> i in h)
  }

  lemma HistoryGrows(r: Run, n: nat, h: seq<nat>)
    requires r.Sized() && n < |r.calls| && IsHistory(r, n, h)
    ensures IsHistory(r, n + 1, Grown(r, n, h))
  {
    var longer := Grown(r, n, h);
    forall i: nat | i < n + 1 && r.Accepted(i)
      ensures i in longer
    {
      if i < n {
        assert i in h;
      } else {
        assert longer[|h|] == n;
      }
    }
  }

  lemma {:induction false} HistoryIs(r: Run, n: nat)
    requires r.Sized() && n <= |r.calls|
    ensures IsHistory(r, n, History(r, n))
  {
    if n > 0 {
      HistoryIs(r, n - 1);
      HistoryGrows(r, n - 1, History(r, n - 1));
    }
  }

  /** The keys other than its own that were accepted after call `j` and before call `n`. */
  function OtherKeys(r: Run, j: nat, n: nat): set<string>
    requires r.Sized() && j < |r.calls| && n <= |r.calls|
  {
    set i: nat | j < i < n && r.Accepted(i) && r.calls[i].key != r.calls[j].key :: r.calls[i].key
  }

  predicate Expired(r: Run, j: nat, n: nat)
    requires j < |r.calls| && 1 <= n <= |r.calls|
  {
    r.calls[j].now + r.ttl <= r.calls[n - 1].now
  }

  /** Why an accepted call is no longer in the table: it expired, or enough other keys came after it. */
  predicate Gone(r: Run, j: nat, n: nat)
    requires r.Sized() && j < n <= |r.calls|
  {
    Expired(r, j, n) || |OtherKeys(r, j, n)| >= r.max
  }

  predicate Sorted(seen: Table) {
    forall i, j :: 0 <= i < j < |seen| ==> seen[i].expires <= seen[j].expires
  }

  /** The table holds the most recent accepted calls, in order, and no others. */
  predicate IsSuffix(r: Run, h: seq<nat>, seen: Table)
    requires forall p :: 0 <= p < |h| ==> h[p] < |r.calls|
  {
    |seen| <= |h| && forall p :: 0 <= p < |seen| ==> seen[p] == r.EntryOf(h[|h| - |seen| + p])
  }

  predicate AllGone(r: Run, h: seq<nat>, dropped: int, n: nat)
    requires r.Sized() && n <= |r.calls| && dropped <= |h|
    requires forall p :: 0 <= p < |h| ==> h[p] < n
  {
    forall q {:trigger Gone(r, h[q], n)} :: 0 <= q < dropped ==> Gone(r, h[q], n)
  }

  /** A table of at most the allowed size that holds the most recent accepted calls, the others being gone. */
  ghost predicate Fits(r: Run, h: seq<nat>, seen: Table, n: nat)
    requires r.Sized() && n <= |r.calls|
  {
    && (forall p :: 0 <= p < |h| ==> h[p] < n)
    && KeysOnce(seen) && Sorted(seen) && |seen| <= r.max
    && IsSuffix(r, h, seen) && AllGone(r, h, |h| - |seen|, n)
  }

  // ----- One call -----

  lemma {:induction false} AliveIsSuffix(seen: Table, now: real)
    requires Sorted(seen)
    ensures var alive := Alive(seen, now);
      && alive == seen[|seen| - |alive|..]
      && forall p :: 0 <= p < |seen| - |alive| ==> seen[p].expires <= now
  {
    if seen != [] {
      AliveIsSuffix(seen[1..], now);
      if seen[0].expires > now {
        AllAlive(seen, now);
      }
    }
  }

  lemma {:induction false} AllAlive(seen: Table, now: real)
    requires forall p :: 0 <= p < |seen| ==> seen[p].expires > now
    ensures Alive(seen, now) == seen
  {
    if seen != [] {
      AllAlive(seen[1..], now);
    }
  }

  function Keys(seen: Table): set<string> {
    set e | e in seen :: e.key
  }

  lemma {:induction false} KeysCount(seen: Table)
    requires KeysOnce(seen)
    ensures |Keys(seen)| == |seen|
  {
    if seen != [] {
      var rest := seen[1..];
      assert seen == [seen[0]] + rest;
      KeysCount(rest);
      forall e | e in rest
        ensures e.key != seen[0].key
      {
        var p :| 0 <= p < |rest| && rest[p] == e;
        assert seen[p + 1] == e;
      }
      assert forall e :: e in seen <==> e == seen[0] || e in rest;
      assert Keys(seen) == {seen[0].key} + Keys(rest);
    }
  }

  lemma GoneStays(r: Run, j: nat, n: nat)
    requires r.Valid() && j < n < |r.calls| && Gone(r, j, n)
    ensures Gone(r, j, n + 1)
  {
    assert r.NoLater(n - 1, n);
    SubsetSize(OtherKeys(r, j, n), OtherKeys(r, j, n + 1));
  }

  /** The rest of a table from an entry on keeps its shape. */
  lemma RestOfTable(r: Run, h: seq<nat>, seen: Table, from: nat)
    requires (forall p :: 0 <= p < |h| ==> h[p] < |r.calls|) && IsSuffix(r, h, seen) && from <= |seen|
    requires KeysOnce(seen) && Sorted(seen)
    ensures var rest := seen[from..]; KeysOnce(rest) && Sorted(rest) && IsSuffix(r, h, rest)
  {
    var rest := seen[from..];
    forall p | 0 <= p < |rest|
      ensures rest[p] == r.EntryOf(h[|h| - |rest| + p])
    {
      assert rest[p] == seen[from + p];
    }
  }

  lemma DroppedGone(r: Run, n: nat, h: seq<nat>, seen: Table, from: nat)
    requires r.Valid() && n < |r.calls| && Fits(r, h, seen, n) && from <= |seen|
    requires forall p :: 0 <= p < from ==> seen[p].expires <= r.calls[n].now
    ensures AllGone(r, h, |h| - |seen| + from, n + 1)
  {
    forall q | 0 <= q < |h| - |seen| + from
      ensures Gone(r, h[q], n + 1)
    {
      if q < |h| - |seen| {
        assert Gone(r, h[q], n);
        GoneStays(r, h[q], n);
      } else {
        assert seen[q - (|h| - |seen|)] == r.EntryOf(h[q]);
      }
    }
  }

  /** Filtering the table of a call drops expired entries only. */
  lemma AliveFits(r: Run, n: nat, h: seq<nat>, seen: Table)
    requires r.Valid() && n < |r.calls| && Fits(r, h, seen, n)
    ensures Fits(r, h, Alive(seen, r.calls[n].now), n + 1)
  {
    var from := |seen| - |Alive(seen, r.calls[n].now)|;
    AliveIsSuffix(seen, r.calls[n].now);
    RestOfTable(r, h, seen, from);
    DroppedGone(r, n, h, seen, from);
  }

  /** Appending a fresh key to a suffix of the history keeps it one. */
  lemma Append(r: Run, n: nat, h: seq<nat>, seen: Table)
    requires r.Valid() && n < |r.calls| && KeysOnce(seen) && Sorted(seen) && !Holds(seen, r.calls[n].key)
    requires (forall p :: 0 <= p < |h| ==> h[p] < n) && IsSuffix(r, h, seen)
    ensures var longer := seen + [r.EntryOf(n)];
      KeysOnce(longer) && Sorted(longer) && IsSuffix(r, h + [n], longer)
  {
    forall p | 0 <= p < |seen|
      ensures seen[p].key != r.calls[n].key && seen[p].expires <= r.calls[n].now + r.ttl
    {
      assert seen[p] in seen && seen[p] == r.EntryOf(h[|h| - |seen| + p]);
      assert r.NoLater(h[|h| - |seen| + p], n);
    }
  }

  /** The keys accepted after the oldest entry of a table are those of the entries behind it and of the new call. */
  lemma YoungerKeys(r: Run, n: nat, h: seq<nat>, alive: Table)
    requires r.Sized() && n < |r.calls| && r.Accepted(n) && IsHistory(r, n, h)
    requires KeysOnce(alive) && IsSuffix(r, h, alive) && alive != [] && !Holds(alive, r.calls[n].key)
    ensures var next := alive[1..] + [r.EntryOf(n)];
      KeysOnce(next) && Keys(next) <= OtherKeys(r, h[|h| - |alive|], n + 1)
  {
    var q := |h| - |alive|;
    var next := alive[1..] + [r.EntryOf(n)];
    assert alive[0] in alive && alive[0] == r.EntryOf(h[q + 0]);
    forall p | 0 <= p < |alive| - 1
      ensures next[p].key in OtherKeys(r, h[q], n + 1) && next[p] == alive[p + 1]
      ensures next[p].key != r.calls[n].key
    {
      assert next[p] == alive[p + 1] && alive[p + 1] in alive;
      assert alive[p + 1] == r.EntryOf(h[q + (p + 1)]) && h[q] < h[q + (p + 1)];
    }
    assert next[|alive| - 1].key == r.calls[n].key && r.calls[n].key in OtherKeys(r, h[q], n + 1);
  }

  lemma EarliestIsFirst(seen: Table)
    requires Sorted(seen) && seen != []
    ensures Earliest(seen) == 0 && Without(seen, 0) == seen[1..]
  {
  }

  lemma OldestGone(r: Run, n: nat, h: seq<nat>, alive: Table)
    requires r.Sized() && n < |r.calls| && r.Accepted(n) && IsHistory(r, n, h) && |alive| == r.max
    requires KeysOnce(alive) && IsSuffix(r, h, alive) && alive != [] && !Holds(alive, r.calls[n].key)
    ensures Gone(r, h[|h| - |alive|], n + 1)
  {
    var next := alive[1..] + [r.EntryOf(n)];
    YoungerKeys(r, n, h, alive);
    KeysCount(next);
    SubsetSize(Keys(next), OtherKeys(r, h[|h| - |alive|], n + 1));
  }

  lemma OneMoreGone(r: Run, n: nat, h: seq<nat>, dropped: nat)
    requires r.Sized() && n < |r.calls| && dropped < |h| && forall p :: 0 <= p < |h| ==> h[p] < n
    requires AllGone(r, h, dropped, n + 1) && Gone(r, h[dropped], n + 1)
    ensures AllGone(r, h + [n], dropped + 1, n + 1)
  {
    var longer := h + [n];
    forall q | 0 <= q < dropped + 1
      ensures Gone(r, longer[q], n + 1)
    {
      assert longer[q] == h[q];
    }
  }

  /** The oldest entry of a full table goes when a new key arrives; as many other keys as fit came after it. */
  lemma EvictFits(r: Run, n: nat, h: seq<nat>, alive: Table)
    requires r.Valid() && n < |r.calls| && r.Accepted(n) && IsHistory(r, n, h)
    requires Fits(r, h, alive, n + 1) && |alive| == r.max && !Holds(alive, r.calls[n].key)
    ensures Fits(r, h + [n], alive[1..] + [r.EntryOf(n)], n + 1)
  {
    OldestGone(r, n, h, alive);
    OneMoreGone(r, n, h, |h| - |alive|);
    Shorter(r, h, alive, r.calls[n].key);
    Append(r, n, h, alive[1..]);
  }

  lemma Shorter(r: Run, h: seq<nat>, alive: Table, key: string)
    requires (forall p :: 0 <= p < |h| ==> h[p] < |r.calls|) && IsSuffix(r, h, alive)
    requires alive != [] && KeysOnce(alive) && Sorted(alive) && !Holds(alive, key)
    ensures var rest := alive[1..]; KeysOnce(rest) && Sorted(rest) && !Holds(rest, key) && IsSuffix(r, h, rest)
  {
    assert forall e :: e in alive[1..] ==> e in alive;
    RestOfTable(r, h, alive, 1);
  }

  lemma AppendFits(r: Run, n: nat, h: seq<nat>, alive: Table)
    requires r.Valid() && n < |r.calls| && IsHistory(r, n, h)
    requires Fits(r, h, alive, n + 1) && |alive| < r.max && !Holds(alive, r.calls[n].key)
    ensures Fits(r, h + [n], alive + [r.EntryOf(n)], n + 1)
  {
    Append(r, n, h, alive);
  }

  /** With entries in the order they expire, a call drops the expired ones and, if needed, the oldest one left. */
  lemma ConsumedSorted(seen: Table, max: nat, key: string, now: real, ttl: real)
    requires max >= 1 && Sorted(seen) && |Alive(seen, now)| <= max
    ensures var alive := Alive(seen, now);
      Consumed(seen, max, key, now, ttl) ==
        if Holds(alive, key) then (false, alive)
        else (true, (if |alive| == max then alive[1..] else alive) + [Entry(key, now + ttl)])
  {
    var alive := Alive(seen, now);
    AliveIsSuffix(seen, now);
    if |alive| == max {
      EarliestIsFirst(alive);
    }
  }

  lemma NextTable(r: Run, n: nat, alive: Table)
    requires r.Valid() && n < |r.calls| && Sorted(r.tables[n])
    requires alive == Alive(r.tables[n], r.calls[n].now) && |alive| <= r.max
    ensures r.Accepted(n) <==> !Holds(alive, r.calls[n].key)
    ensures r.tables[n + 1] ==
      if r.Accepted(n) then (if |alive| == r.max then alive[1..] else alive) + [r.EntryOf(n)] else alive
  {
    hide Consumed, Alive, Sorted, Holds;
    ConsumedSorted(r.tables[n], r.max, r.calls[n].key, r.calls[n].now, r.ttl);
    StepTaken(r, n);
  }

  lemma StepTaken(r: Run, n: nat)
    requires r.Valid() && n < |r.calls|
    ensures Consumed(r.tables[n], r.max, r.calls[n].key, r.calls[n].now, r.ttl) == (r.Accepted(n), r.tables[n + 1])
  {
    assert r.Step(n);
  }

  lemma StepFits(r: Run, n: nat, h: seq<nat>)
    requires r.Valid() && n < |r.calls| && IsHistory(r, n, h) && Fits(r, h, r.tables[n], n)
    ensures Fits(r, Grown(r, n, h), r.tables[n + 1], n + 1)
  {
    var alive := Alive(r.tables[n], r.calls[n].now);
    AliveFits(r, n, h, r.tables[n]);
    NextTable(r, n, alive);
    AnswerFits(r, n, h, alive, r.tables[n + 1]);
  }

  lemma AnswerFits(r: Run, n: nat, h: seq<nat>, alive: Table, next: Table)
    requires r.Valid() && n < |r.calls| && IsHistory(r, n, h) && Fits(r, h, alive, n + 1)
    requires r.Accepted(n) <==> !Holds(alive, r.calls[n].key)
    requires next == if r.Accepted(n) then (if |alive| == r.max then alive[1..] else alive) + [r.EntryOf(n)] else alive
    ensures Fits(r, Grown(r, n, h), next, n + 1)
  {
    if r.Accepted(n) {
      if |alive| == r.max {
        EvictFits(r, n, h, alive);
      } else {
        AppendFits(r, n, h, alive);
      }
    }
  }

  /**
   At every moment the table has at most the allowed number of entries, is the most recent part of the history of
   accepted calls, and every older accepted call has expired or was followed by that many other keys.
   */
  lemma {:induction false} Always(r: Run, n: nat)
    requires r.Valid() && n <= |r.calls|
    ensures Fits(r, History(r, n), r.tables[n], n)
  {
    if n > 0 {
      Always(r, n - 1);
      HistoryIs(r, n - 1);
      StepFits(r, n - 1, History(r, n - 1));
    }
  }

  // ----- What the answers mean -----

  /** No call accepted between two calls has the key of the first. */
  predicate LastOfItsKey(r: Run, j: nat, i: nat)
    requires r.Sized() && j < i < |r.calls|
  {
    forall k: nat :: j < k < i && r.Accepted(k) ==> r.calls[k].key != r.calls[j].key
  }

  lemma AnswerIs(r: Run, i: nat)
    requires r.Valid() && i < |r.calls|
    ensures r.Accepted(i) <==> !Holds(Alive(r.tables[i], r.calls[i].now), r.calls[i].key)
  {
    assert r.Step(i);
  }

  lemma HeldWasAccepted(r: Run, i: nat, h: seq<nat>, seen: Table, e: Entry) returns (j: nat)
    requires r.Valid() && i < |r.calls| && IsHistory(r, i, h) && Fits(r, h, seen, i) && e in seen
    ensures j < i && r.Accepted(j) && e == r.EntryOf(j) && j in h[|h| - |seen|..]
  {
    var p :| 0 <= p < |seen| && seen[p] == e;
    j := h[|h| - |seen| + p];
    assert h[|h| - |seen|..][p] == j;
  }

  /** A refusal has a reason: the key was accepted less than one time to live ago. */
  lemma RefusedWasAccepted(r: Run, i: nat) returns (j: nat)
    requires r.Valid() && i < |r.calls| && !r.Accepted(i)
    ensures j < i && r.Accepted(j) && r.calls[j].key == r.calls[i].key && r.calls[i].now < r.calls[j].now + r.ttl
  {
    Always(r, i);
    HistoryIs(r, i);
    AnswerIs(r, i);
    var e :| e in Alive(r.tables[i], r.calls[i].now) && e.key == r.calls[i].key;
    j := HeldWasAccepted(r, i, History(r, i), r.tables[i], e);
  }

  /** Fewer entries than the limit can stand behind an entry of the table, one for each key accepted since. */
  lemma FewerBehind(r: Run, n: nat, h: seq<nat>, seen: Table, q: nat)
    requires r.Sized() && n <= |r.calls| && IsHistory(r, n, h) && Fits(r, h, seen, n)
    requires |h| - |seen| <= q < |h|
    ensures |OtherKeys(r, h[q], n)| < r.max
  {
    var behind := seen[q - (|h| - |seen|) + 1..];
    forall i: nat | h[q] < i < n && r.Accepted(i)
      ensures r.calls[i].key in Keys(behind)
    {
      assert i in h;
      var p :| 0 <= p < |h| && h[p] == i;
      var at := p - (|h| - |seen|);
      assert seen[at] == r.EntryOf(i);
      assert behind[at - (q - (|h| - |seen|) + 1)] == seen[at];
    }
    assert KeysOnce(behind);
    KeysCount(behind);
    SubsetSize(OtherKeys(r, h[q], n), Keys(behind));
  }

  /** A key whose last acceptance has expired, or has left the table, is not held. */
  lemma NotHeld(r: Run, i: nat, h: seq<nat>, seen: Table, j: nat)
    requires r.Valid() && i < |r.calls| && IsHistory(r, i, h) && Fits(r, h, seen, i)
    requires j < i && r.Accepted(j) && LastOfItsKey(r, j, i) && r.calls[j].key == r.calls[i].key
    requires r.calls[j].now + r.ttl <= r.calls[i].now || j !in h[|h| - |seen|..]
    ensures !Holds(Alive(seen, r.calls[i].now), r.calls[i].key)
  {
    forall e | e in Alive(seen, r.calls[i].now)
      ensures e.key != r.calls[i].key
    {
      var k := HeldWasAccepted(r, i, h, seen, e);
      if r.calls[k].key == r.calls[j].key {
        OtherEntryExpired(r, i, h, seen, j, k);
      }
    }
  }

  /** An entry of the key in the table is that of its last acceptance or of an earlier one. */
  lemma OtherEntryExpired(r: Run, i: nat, h: seq<nat>, seen: Table, j: nat, k: nat)
    requires r.Valid() && i < |r.calls| && IsHistory(r, i, h) && |seen| <= |h|
    requires j < i && r.Accepted(j) && LastOfItsKey(r, j, i)
    requires r.calls[j].now + r.ttl <= r.calls[i].now || j !in h[|h| - |seen|..]
    requires k < i && r.Accepted(k) && k in h[|h| - |seen|..] && r.calls[k].key == r.calls[j].key
    ensures r.calls[k].now + r.ttl <= r.calls[i].now
  {
    assert k <= j;
    assert r.NoLater(k, j);
    if k < j {
      OlderLeft(r, i, h, seen, k, j);
    }
  }

  /** If an accepted call is still in the table, so is every later one. */
  lemma OlderLeft(r: Run, i: nat, h: seq<nat>, seen: Table, k: nat, j: nat)
    requires r.Sized() && i <= |r.calls| && IsHistory(r, i, h) && |seen| <= |h|
    requires k < j < i && r.Accepted(j) && k in h[|h| - |seen|..]
    ensures j in h[|h| - |seen|..]
  {
    var p :| 0 <= p < |seen| && h[|h| - |seen|..][p] == k;
    assert j in h;
    var q :| 0 <= q < |h| && h[q] == j;
    assert q > |h| - |seen| + p;
    assert h[|h| - |seen|..][q - (|h| - |seen|)] == j;
  }

  lemma StillHeld(r: Run, i: nat, h: seq<nat>, seen: Table, q: nat)
    requires r.Valid() && i < |r.calls| && IsHistory(r, i, h) && Fits(r, h, seen, i)
    requires |h| - |seen| <= q < |h|
    ensures r.calls[h[q]].now + r.ttl > r.calls[i].now ==> Holds(Alive(seen, r.calls[i].now), r.calls[h[q]].key)
  {
    assert seen[q - (|h| - |seen|)] == r.EntryOf(h[q]);
    if r.calls[h[q]].now + r.ttl > r.calls[i].now {
      assert r.EntryOf(h[q]) in Alive(seen, r.calls[i].now);
    }
  }

  /**
   The exact answer to a key accepted before: it is accepted again exactly if its last acceptance has expired, or
   at least as many other keys as the table can hold were accepted since.
   */
  lemma AcceptedAgain(r: Run, j: nat, i: nat)
    requires r.Valid() && j < i < |r.calls| && r.Accepted(j) && r.calls[j].key == r.calls[i].key
    requires LastOfItsKey(r, j, i)
    ensures r.Accepted(i) <==> r.calls[j].now + r.ttl <= r.calls[i].now || |OtherKeys(r, j, i)| >= r.max
  {
    Always(r, i);
    HistoryIs(r, i);
    AnswerIs(r, i);
    var seen, h := r.tables[i], History(r, i);
    assert j in h;
    var q :| 0 <= q < |h| && h[q] == j;
    if q >= |h| - |seen| {
      FewerBehind(r, i, h, seen, q);
      StillHeld(r, i, h, seen, q);
      if r.calls[j].now + r.ttl <= r.calls[i].now {
        NotHeld(r, i, h, seen, j);
      }
    } else {
      assert Gone(r, h[q], i);
      assert r.NoLater(i - 1, i);
      NotInSuffix(r, i, h, |h| - |seen|, q);
      NotHeld(r, i, h, seen, j);
    }
  }

  lemma NotInSuffix(r: Run, i: nat, h: seq<nat>, from: nat, q: nat)
    requires r.Sized() && i <= |r.calls| && IsHistory(r, i, h) && q < from <= |h|
    ensures h[q] !in h[from..]
  {
    forall p | 0 <= p < |h[from..]|
      ensures h[from..][p] != h[q]
    {
      assert h[from..][p] == h[from + p];
    }
  }

  /** A key accepted twice within its time to live had as many other keys as the table can hold in between. */
  lemma {:induction false} TwiceNeedsMany(r: Run, j: nat, i: nat)
    requires r.Valid() && j < i < |r.calls| && r.Accepted(j) && r.Accepted(i) && r.calls[j].key == r.calls[i].key
    requires r.calls[i].now < r.calls[j].now + r.ttl
    ensures |OtherKeys(r, j, i)| >= r.max
    decreases i - j
  {
    if LastOfItsKey(r, j, i) {
      AcceptedAgain(r, j, i);
    } else {
      var k: nat :| j < k < i && r.Accepted(k) && r.calls[k].key == r.calls[j].key;
      assert r.NoLater(j, k);
      TwiceNeedsMany(r, k, i);
      SubsetSize(OtherKeys(r, k, i), OtherKeys(r, j, i));
    }
  }

  /** A key that was not accepted before is accepted. */
  lemma FirstTimeAccepted(r: Run, i: nat)
    requires r.Valid() && i < |r.calls|
    requires forall j: nat :: j < i && r.Accepted(j) ==> r.calls[j].key != r.calls[i].key
    ensures r.Accepted(i)
  {
    if !r.Accepted(i) {
      var j := RefusedWasAccepted(r, i);
    }
  }

  /** The table never holds more entries than allowed, nor a key twice. */
  lemma Bounded(r: Run, n: nat)
    requires r.Valid() && n <= |r.calls|
    ensures |r.tables[n]| <= r.max && KeysOnce(r.tables[n])
  {
    Always(r, n);
  }
}
