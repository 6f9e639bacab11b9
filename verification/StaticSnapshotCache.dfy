/**
 The process-wide caches of static snapshots: the frames, the dataset-to-key index and the set of verified
 join keys, and what a batch may conclude from them.
 */
module StaticSnapshotCache {
  import opened Wrappers
  import opened Expressions
  import opened Sets
  import opened StaticJoins
  import T = Text

  datatype Key = Key(dataset: string, snapshot: string, fingerprint: string)

  /** The snapshot was found unique on columns of these normalized names. */
  datatype Verification = Verification(key: Key, columns: seq<string>)

  datatype Relation = Relation(alias: string, dataset: string, table: string, fingerprint: string, cacheHint: bool)

  datatype Binding = Binding(dataset: string, snapshot: string, fingerprint: string)

  datatype Outcome = Verified | KeyMissing | KeyDuplicate

  function OrElse(preferred: string, fallback: string): string {
    if preferred != "" then preferred else fallback
  }

  /** None stands for the identity error. */
  function CacheKey(relation: Relation, binding: Binding): Option<Key> {
    var dataset := T.Strip(OrElse(relation.dataset, binding.dataset));
    var snapshot := T.Strip(binding.snapshot);
    var fingerprint := T.Strip(OrElse(binding.fingerprint, relation.fingerprint));
    if dataset == "" || snapshot == "" || fingerprint == "" then None
    else Some(Key(dataset, snapshot, fingerprint))
  }

  // ----- Verified join keys -----

  function Current(verified: set<Verification>, key: Key): set<Verification> {
    set v | v in verified && !(v.key.dataset == key.dataset && v.key != key)
  }

  /** Right columns of the joins on an alias, in order, without blanks and repetitions. */
  function UniqueKeys(joins: seq<Join>, alias: string): seq<string> {
    if joins == [] then []
    else if NormalizeIdentifier(joins[0].rightAlias) != alias then UniqueKeys(joins[1..], alias)
    else MergeColumns(joins[0].keys, UniqueKeys(joins[1..], alias))
  }

  function MergeColumns(keys: seq<JoinKey>, rest: seq<string>): seq<string> {
    if keys == [] then rest
    else
      var c, merged := keys[0].rightColumn, MergeColumns(keys[1..], rest);
      if c == "" then merged else [c] + Without(merged, c)
  }

  function Without(columns: seq<string>, c: string): seq<string> {
    if columns == [] then []
    else if columns[0] == c then Without(columns[1..], c)
    else [columns[0]] + Without(columns[1..], c)
  }

  function Names(columns: seq<string>): (r: seq<string>)
    ensures |r| == |columns|
  {
    seq(|columns|, i requires 0 <= i < |columns| => NormalizeIdentifier(columns[i]))
  }

  /** However its columns are written, uniqueness is a matter of their names. */
  lemma NamesDecide(rows: seq<Cells>, columns: seq<string>, others: seq<string>)
    requires Names(columns) == Names(others) && UniqueOn(rows, columns)
    ensures UniqueOn(rows, others)
  {
    forall i, j | 0 <= i < j < |rows|
      ensures !SameKey(others, rows[i], rows[j])
    {
      if SameKey(others, rows[i], rows[j]) {
        forall c | 0 <= c < |columns|
          ensures Lookup(rows[i], columns[c]) == Lookup(rows[j], columns[c])
        {
          assert Names(columns)[c] == Names(others)[c];
          assert Lookup(rows[i], others[c]) == Lookup(rows[j], others[c]);
        }
      }
    }
  }

  function VerifyOutcome(verified: set<Verification>, key: Key, columns: seq<string>, frame: seq<Cells>): Outcome {
    if columns == [] then KeyMissing
    else if Verification(key, Names(columns)) in Current(verified, key) || UniqueOn(frame, columns) then Verified
    else KeyDuplicate
  }

  /** The verifications after a relation was accepted. */
  function Accepted(verified: set<Verification>, relation: Relation, binding: Binding, joins: seq<Join>)
    : set<Verification>
  {
    var identity := CacheKey(relation, binding);
    if identity.None? then verified
    else
      Current(verified, identity.value)
      + {Verification(identity.value, Names(UniqueKeys(joins, NormalizeIdentifier(relation.alias))))}
  }

  /** What a micro-batch brings: its rows and the joins and key limit of its plan. */
  datatype Batch = Batch(stream: seq<Cells>, streamAlias: string, joins: seq<Join>, limit: Limit)

  /** All verifications of a dataset are of one snapshot. */
  ghost predicate OneIdentity(verified: set<Verification>) {
    forall v, w :: v in verified && w in verified && v.key.dataset == w.key.dataset ==> v.key == w.key
  }

  /** The frames and the dataset-to-key index name the same snapshots, one for each dataset. */
  ghost predicate Mirrors(frames: map<Key, seq<Cells>>, index: map<string, Key>) {
    && (forall key :: key in frames ==> key.dataset in index && index[key.dataset] == key)
    && (forall d :: d in index ==> index[d] in frames && index[d].dataset == d)
  }

  lemma PutMirrors(frames: map<Key, seq<Cells>>, index: map<string, Key>, key: Key, frame: seq<Cells>)
    requires Mirrors(frames, index) && key.dataset !in index
    ensures Mirrors(frames[key := frame], index[key.dataset := key])
  {
  }

  lemma RemoveMirrors(frames: map<Key, seq<Cells>>, index: map<string, Key>, key: Key)
    requires Mirrors(frames, index) && key in frames
    ensures Mirrors(frames - {key}, index - {key.dataset})
  {
  }

  lemma NoFramesNoIndex(frames: map<Key, seq<Cells>>, index: map<string, Key>)
    requires Mirrors(frames, index) && frames == map[]
    ensures index == map[]
  {
    assert forall d :: d in index ==> index[d] in frames;
  }

  class StaticSnapshotCache {
    const read: (string, string) -> Option<seq<Cells>>
    const tableOf: string -> string
    var frames: map<Key, seq<Cells>>
    var keyByDataset: map<string, Key>
    var verified: set<Verification>

    /** The content of a snapshot never changes, and its dataset determines its table; None if reading it raises. */
    function Fetched(key: Key): Option<seq<Cells>> {
      read(tableOf(key.dataset), key.snapshot)
    }

    function Snapshot(key: Key): seq<Cells> {
      match Fetched(key)
      case Some(rows) => rows
      case None => []
    }

    ghost predicate Valid()
      reads this
    {
      && Mirrors(frames, keyByDataset)
      && (forall key :: key in frames ==> Fetched(key) == Some(frames[key]))
      && OneIdentity(verified)
    }

    /** Verifications of these datasets speak about the whole snapshot. */
    ghost predicate SoundSet(verified: set<Verification>, datasets: set<string>) {
      forall v, columns :: v in verified && v.key.dataset in datasets && Names(columns) == v.columns ==>
        UniqueOn(Snapshot(v.key), columns)
    }

    ghost predicate Sound(datasets: set<string>)
      reads this
    {
      SoundSet(verified, datasets)
    }

    constructor (read: (string, string) -> Option<seq<Cells>>, tableOf: string -> string)
      ensures Valid() && frames == map[] && keyByDataset == map[] && verified == {}
      ensures this.read == read && this.tableOf == tableOf
    {
      this.read, this.tableOf := read, tableOf;
      frames, keyByDataset, verified := map[], map[], {};
    }

    method EvictStaleVerifications(key: Key)
      requires Valid()
      modifies this`verified
      ensures Valid() && verified == Current(old(verified), key)
    {
      var stale := set v | v in verified && v.key.dataset == key.dataset && v.key != key;
      verified := verified - stale;
      assert verified == Current(old(verified), key);
    }

    method EvictStaticSnapshot(key: Key)
      requires Valid()
      modifies this
      ensures Valid()
      ensures frames == old(frames) - {key}
      ensures keyByDataset == (if key in old(frames) then old(keyByDataset) - {key.dataset} else old(keyByDataset))
      ensures verified == set v | v in old(verified) && v.key != key
    {
      if key in frames {
        RemoveMirrors(frames, keyByDataset, key);
      }
      frames := frames - {key};
      if key.dataset in keyByDataset && keyByDataset[key.dataset] == key {
        keyByDataset := keyByDataset - {key.dataset};
      }
      verified := verified - set v | v in verified && v.key == key;
    }

    /**
     The frame of a relation, from the cache if this very snapshot is in it; the dataset's older one goes, even if
     reading the snapshot then raises.
     */
    method ReusableStaticSnapshot(relation: Relation, key: Key) returns (frame: Option<seq<Cells>>)
      requires Valid() && relation.table == tableOf(key.dataset)
      modifies this
      ensures Valid()
      ensures frame == Fetched(key)
      ensures !relation.cacheHint ==> unchanged(this)
      ensures relation.cacheHint ==>
        && keyByDataset
           == (if frame.Some? then old(keyByDataset)[key.dataset := key] else old(keyByDataset) - {key.dataset})
        && (forall k: Key :: k.dataset != key.dataset ==> (k in frames <==> k in old(frames)))
      ensures verified <= old(verified) && Current(verified, key) == Current(old(verified), key)
    {
      hide OneIdentity;
      if !relation.cacheHint {
        return read(relation.table, key.snapshot);
      }
      if key in frames {
        return Some(frames[key]);
      }
      if key.dataset in keyByDataset && keyByDataset[key.dataset] != key {
        EvictStaticSnapshot(keyByDataset[key.dataset]);
      }
      frame := read(relation.table, key.snapshot);
      if frame.None? {
        return;
      }
      PutMirrors(frames, keyByDataset, key, frame.value);
      frames := frames[key := frame.value];
      keyByDataset := keyByDataset[key.dataset := key];
    }

    /** Accepts a frame if its snapshot was verified before on these columns, else looks for duplicates. */
    method VerifyStaticKeyUniqueness(frame: seq<Cells>, key: Key, columns: seq<string>) returns (outcome: Outcome)
      requires Valid()
      modifies this`verified
      ensures Valid()
      ensures outcome == VerifyOutcome(old(verified), key, columns, frame)
      ensures verified == match outcome
        case KeyMissing => old(verified)
        case KeyDuplicate => Current(old(verified), key)
        case Verified => Current(old(verified), key) + {Verification(key, Names(columns))}
    {
      if columns == [] {
        return KeyMissing;
      }
      EvictStaleVerifications(key);
      if Verification(key, Names(columns)) in verified {
        assert verified == verified + {Verification(key, Names(columns))};
        return Verified;
      }
      if !UniqueOn(frame, columns) {
        return KeyDuplicate;
      }
      verified := verified + {Verification(key, Names(columns))};
      return Verified;
    }

    method ResetStaticSnapshotCache()
      requires Valid()
      modifies this
      ensures Valid() && frames == map[] && keyByDataset == map[] && verified == {}
    {
      hide Fetched, Mirrors;
      while frames != map[]
        invariant Valid()
        decreases |frames|
      {
        var key :| key in frames;
        var before := frames;
        EvictStaticSnapshot(key);
        assert before == frames[key := before[key]];
      }
      NoFramesNoIndex(frames, keyByDataset);
      verified := {};
    }

    /** The frame of a relation: the whole snapshot if it is cached, else its pruning by the batch. */
    ghost function FrameFor(
      relation: Relation, key: Key, stream: seq<Cells>, streamAlias: string, joins: seq<Join>): seq<Cells>
    {
      if relation.cacheHint then Snapshot(key)
      else SemiJoin(PruningPairs(streamAlias, relation.alias, joins), stream, Snapshot(key))
    }

    /** The snapshot can be read and, unless it is cached whole, pruned by the batch. */
    ghost predicate Fetchable(relation: Relation, key: Key, batch: Batch) {
      && Fetched(key).Some?
      && (|| relation.cacheHint
          || Prunable(PruningPairs(batch.streamAlias, relation.alias, batch.joins), batch.stream, batch.limit))
    }

    /** A relation has an identity, a frame, and a frame that passes the uniqueness check. */
    ghost predicate Acceptable(
      verified: set<Verification>, relation: Relation, binding: Binding, batch: Batch)
    {
      var identity := CacheKey(relation, binding);
      && identity.Some?
      && Fetchable(relation, identity.value, batch)
      && VerifyOutcome(verified, identity.value, UniqueKeys(batch.joins, NormalizeIdentifier(relation.alias)),
                       FrameFor(relation, identity.value, batch.stream, batch.streamAlias, batch.joins)).Verified?
    }

    /** What a relation may be registered with: its frame, unique on its join keys if it is the whole snapshot. */
    ghost predicate Admissible(frame: seq<Cells>, relation: Relation, binding: Binding, batch: Batch) {
      var identity := CacheKey(relation, binding);
      var columns := UniqueKeys(batch.joins, NormalizeIdentifier(relation.alias));
      && identity.Some?
      && columns != []
      && frame == FrameFor(relation, identity.value, batch.stream, batch.streamAlias, batch.joins)
      && (relation.cacheHint ==> UniqueOn(frame, columns))
    }

    /** The relation names the table of its dataset, and is cached whole exactly if its dataset is `hinted`. */
    ghost predicate Consistent(relation: Relation, binding: Binding, hinted: set<string>) {
      CacheKey(relation, binding).Some? ==>
        var dataset := CacheKey(relation, binding).value.dataset;
        relation.table == tableOf(dataset) && (relation.cacheHint <==> dataset in hinted)
    }

    method FetchRelation(engine: Engine, batch: Batch, relation: Relation, key: Key) returns (frame: Option<seq<Cells>>)
      requires Valid() && relation.table == tableOf(key.dataset)
      modifies this
      ensures Valid() && verified <= old(verified) && Current(verified, key) == Current(old(verified), key)
      ensures frame.Some? <==> Fetchable(relation, key, batch)
      ensures frame.Some? ==> frame.value == FrameFor(relation, key, batch.stream, batch.streamAlias, batch.joins)
    {
      if relation.cacheHint {
        frame := ReusableStaticSnapshot(relation, key);
        return;
      }
      var snapshot := read(relation.table, key.snapshot);
      if snapshot.None? {
        return None;
      }
      var pruned := PrunedStaticSnapshot(
        engine, batch.stream, batch.streamAlias, relation.alias, batch.joins, batch.limit, snapshot.value);
      frame := if pruned.Pruned? then Some(pruned.rows) else None;
    }

    /** An accepted relation is registered with an admissible frame. */
    lemma AcceptedMeans(
      verified: set<Verification>, relation: Relation, binding: Binding, batch: Batch, hinted: set<string>)
      requires SoundSet(verified, hinted) && Consistent(relation, binding, hinted)
      requires Acceptable(verified, relation, binding, batch)
      ensures var key := CacheKey(relation, binding).value;
        Admissible(FrameFor(relation, key, batch.stream, batch.streamAlias, batch.joins), relation, binding, batch)
    {
    }

    /** Accepting a relation keeps the verifications sound. */
    lemma AcceptedSound(
      verified: set<Verification>, relation: Relation, binding: Binding, batch: Batch, hinted: set<string>)
      requires SoundSet(verified, hinted) && Consistent(relation, binding, hinted)
      requires Acceptable(verified, relation, binding, batch)
      ensures SoundSet(Accepted(verified, relation, binding, batch.joins), hinted)
    {
      hide UniqueOn, UniqueKeys, NormalizeIdentifier, Names;
      AcceptedMeans(verified, relation, binding, batch, hinted);
      var key, own := CacheKey(relation, binding).value, UniqueKeys(batch.joins, NormalizeIdentifier(relation.alias));
      forall v, columns | v in Accepted(verified, relation, binding, batch.joins)
                          && v.key.dataset in hinted && Names(columns) == v.columns
        ensures UniqueOn(Snapshot(v.key), columns)
      {
        if v !in verified {
          NamesDecide(Snapshot(key), own, columns);
        }
      }
    }

    /** One static relation of a batch: its frame exactly if it is acceptable, else an error. */
    method PrepareRelation(
      engine: Engine, batch: Batch, relation: Relation, binding: Binding, ghost hinted: set<string>)
      returns (frame: Option<seq<Cells>>)
      requires Valid() && Sound(hinted) && Consistent(relation, binding, hinted)
      modifies this
      ensures Valid() && Sound(hinted)
      ensures frame.Some? <==> Acceptable(old(verified), relation, binding, batch)
      ensures frame.Some? ==>
        && Admissible(frame.value, relation, binding, batch)
        && verified == Accepted(old(verified), relation, binding, batch.joins)
    {
      var identity := CacheKey(relation, binding);
      if identity.None? {
        return None;
      }
      frame := CheckRelation(engine, batch, relation, identity.value);
      if frame.Some? {
        AcceptedMeans(old(verified), relation, binding, batch, hinted);
        AcceptedSound(old(verified), relation, binding, batch, hinted);
      }
    }

    /** Fetches the frame of a relation and checks that it is unique on its join keys. */
    method CheckRelation(engine: Engine, batch: Batch, relation: Relation, key: Key)
      returns (frame: Option<seq<Cells>>)
      requires Valid() && relation.table == tableOf(key.dataset)
      modifies this
      ensures Valid()
      ensures var columns := UniqueKeys(batch.joins, NormalizeIdentifier(relation.alias));
        var found := FrameFor(relation, key, batch.stream, batch.streamAlias, batch.joins);
        if Fetchable(relation, key, batch) && VerifyOutcome(old(verified), key, columns, found).Verified?
        then frame == Some(found) && verified == Current(old(verified), key) + {Verification(key, Names(columns))}
        else frame == None && verified <= old(verified)
    {
      frame := FetchRelation(engine, batch, relation, key);
      if frame.Some? {
        var columns := UniqueKeys(batch.joins, NormalizeIdentifier(relation.alias));
        var outcome := VerifyStaticKeyUniqueness(frame.value, key, columns);
        if !outcome.Verified? {
          return None;
        }
      }
    }
  }

  // ----- What a verification is worth on the pruned path -----

  /** Some stream row can equal the row on every pair: it has no NULL there, and no contradiction. */
  predicate Matchable(pairs: seq<KeyPair>, row: Cells) {
    && (forall p :: 0 <= p < |pairs| ==> Lookup(row, pairs[p].1) != Null)
    && (forall p, q :: 0 <= p < q < |pairs| && NormalizeIdentifier(pairs[p].0) == NormalizeIdentifier(pairs[q].0) ==>
          Lookup(row, pairs[p].1) == Lookup(row, pairs[q].1))
  }

  /** Two rows share their key, and a batch can bring a row that matches them. */
  predicate Ambiguous(pairs: seq<KeyPair>, columns: seq<string>, rows: seq<Cells>) {
    exists i, j :: 0 <= i < j < |rows| && SameKey(columns, rows[i], rows[j]) && Matchable(pairs, rows[i])
  }

  /** The stream row that matches a row on every pair, if any does. */
  function StreamRowFor(pairs: seq<KeyPair>, row: Cells): Cells {
    if pairs == [] then map[]
    else
      var last := pairs[|pairs| - 1];
      StreamRowFor(pairs[..|pairs| - 1], row)[NormalizeIdentifier(last.0) := Lookup(row, last.1)]
  }

  lemma {:induction false} StreamRowHas(pairs: seq<KeyPair>, row: Cells, p: nat)
    requires Matchable(pairs, row) && p < |pairs|
    ensures Lookup(StreamRowFor(pairs, row), pairs[p].0) == Lookup(row, pairs[p].1)
  {
    var last := |pairs| - 1;
    if p < last {
      assert Matchable(pairs[..last], row);
      StreamRowHas(pairs[..last], row, p);
    }
  }

  lemma MatchableIff(pairs: seq<KeyPair>, row: Cells)
    ensures Matchable(pairs, row) <==> exists s :: PairsMatch(pairs, s, row)
  {
    if Matchable(pairs, row) {
      forall p | 0 <= p < |pairs|
        ensures Equal3(Lookup(StreamRowFor(pairs, row), pairs[p].0), Lookup(row, pairs[p].1)) == TRUE
      {
        StreamRowHas(pairs, row, p);
      }
      assert PairsMatch(pairs, StreamRowFor(pairs, row), row);
    }
    if s :| PairsMatch(pairs, s, row) {
      assert forall p :: 0 <= p < |pairs| ==> Equal3(Lookup(s, pairs[p].0), Lookup(row, pairs[p].1)) == TRUE;
    }
  }

  lemma SameKeyMatches(pairs: seq<KeyPair>, columns: seq<string>, s: Cells, a: Cells, b: Cells)
    requires forall p :: 0 <= p < |pairs| ==> pairs[p].1 in columns
    requires SameKey(columns, a, b) && PairsMatch(pairs, s, a)
    ensures PairsMatch(pairs, s, b)
  {
    forall p | 0 <= p < |pairs|
      ensures Equal3(Lookup(s, pairs[p].0), Lookup(b, pairs[p].1)) == TRUE
    {
      var c :| 0 <= c < |columns| && columns[c] == pairs[p].1;
      assert Lookup(a, columns[c]) == Lookup(b, columns[c]);
      assert Equal3(Lookup(s, pairs[p].0), Lookup(a, pairs[p].1)) == TRUE;
    }
  }

  /** Two rows of a semijoin are two rows of the snapshot, in order, that rows of the batch match. */
  lemma {:induction false} FromSnapshot(pairs: seq<KeyPair>, stream: seq<Cells>, rows: seq<Cells>, a: nat, b: nat)
    returns (i: nat, j: nat)
    requires a < b < |SemiJoin(pairs, stream, rows)|
    ensures i < j < |rows| && rows[i] == SemiJoin(pairs, stream, rows)[a] && rows[j] == SemiJoin(pairs, stream, rows)[b]
    ensures exists s :: s in stream && PairsMatch(pairs, s, rows[i])
  {
    hide PairsMatch;
    var rest := SemiJoin(pairs, stream, rows[1..]);
    if exists s :: s in stream && PairsMatch(pairs, s, rows[0]) {
      if a == 0 {
        i := 0;
        j := OneFromSnapshot(pairs, stream, rows[1..], b - 1);
        j := j + 1;
      } else {
        i, j := FromSnapshot(pairs, stream, rows[1..], a - 1, b - 1);
        i, j := i + 1, j + 1;
      }
    } else {
      i, j := FromSnapshot(pairs, stream, rows[1..], a, b);
      i, j := i + 1, j + 1;
    }
  }

  lemma {:induction false} OneFromSnapshot(pairs: seq<KeyPair>, stream: seq<Cells>, rows: seq<Cells>, a: nat)
    returns (i: nat)
    requires a < |SemiJoin(pairs, stream, rows)|
    ensures i < |rows| && rows[i] == SemiJoin(pairs, stream, rows)[a]
  {
    hide PairsMatch;
    if exists s :: s in stream && PairsMatch(pairs, s, rows[0]) {
      if a == 0 {
        i := 0;
      } else {
        i := OneFromSnapshot(pairs, stream, rows[1..], a - 1);
        i := i + 1;
      }
    } else {
      i := OneFromSnapshot(pairs, stream, rows[1..], a);
      i := i + 1;
    }
  }

  /** Two matched rows of the snapshot are two rows of the semijoin, in order. */
  lemma {:induction false} IntoSemiJoin(pairs: seq<KeyPair>, s: Cells, rows: seq<Cells>, i: nat, j: nat)
    returns (a: nat, b: nat)
    requires i < j < |rows| && PairsMatch(pairs, s, rows[i]) && PairsMatch(pairs, s, rows[j])
    ensures a < b < |SemiJoin(pairs, [s], rows)|
    ensures SemiJoin(pairs, [s], rows)[a] == rows[i] && SemiJoin(pairs, [s], rows)[b] == rows[j]
  {
    hide PairsMatch;
    assert s in [s];
    var first := if exists t :: t in [s] && PairsMatch(pairs, t, rows[0]) then 1 else 0;
    if i == 0 {
      a := 0;
      b := OneIntoSemiJoin(pairs, s, rows[1..], j - 1);
      b := b + 1;
    } else {
      a, b := IntoSemiJoin(pairs, s, rows[1..], i - 1, j - 1);
      a, b := a + first, b + first;
    }
  }

  lemma {:induction false} OneIntoSemiJoin(pairs: seq<KeyPair>, s: Cells, rows: seq<Cells>, i: nat) returns (a: nat)
    requires i < |rows| && PairsMatch(pairs, s, rows[i])
    ensures a < |SemiJoin(pairs, [s], rows)| && SemiJoin(pairs, [s], rows)[a] == rows[i]
  {
    hide PairsMatch;
    assert s in [s];
    if i == 0 {
      a := 0;
    } else {
      a := OneIntoSemiJoin(pairs, s, rows[1..], i - 1);
      a := a + if exists t :: t in [s] && PairsMatch(pairs, t, rows[0]) then 1 else 0;
    }
  }

  /** Every pruning of a snapshot is unique exactly if the snapshot is not ambiguous. */
  lemma PruningsUnique(pairs: seq<KeyPair>, columns: seq<string>, rows: seq<Cells>)
    requires forall p :: 0 <= p < |pairs| ==> pairs[p].1 in columns
    ensures (forall stream :: UniqueOn(SemiJoin(pairs, stream, rows), columns)) <==> !Ambiguous(pairs, columns, rows)
  {
    if !Ambiguous(pairs, columns, rows) {
      forall stream, a, b | 0 <= a < b < |SemiJoin(pairs, stream, rows)|
        ensures !SameKey(columns, SemiJoin(pairs, stream, rows)[a], SemiJoin(pairs, stream, rows)[b])
      {
        var i, j := FromSnapshot(pairs, stream, rows, a, b);
        MatchableIff(pairs, rows[i]);
      }
    } else {
      var i, j :| 0 <= i < j < |rows| && SameKey(columns, rows[i], rows[j]) && Matchable(pairs, rows[i]);
      MatchableIff(pairs, rows[i]);
      var s :| PairsMatch(pairs, s, rows[i]);
      SameKeyMatches(pairs, columns, s, rows[i], rows[j]);
      var a, b := IntoSemiJoin(pairs, s, rows, i, j);
      assert !UniqueOn(SemiJoin(pairs, [s], rows), columns);
    }
  }

  /**
   On the pruned path, acceptance means that the frame is unique, whatever the batch brings, exactly if the
   columns were not verified before for the snapshot, or the snapshot is not ambiguous.
   */
  lemma AcceptanceMeansUnique(
    verified: set<Verification>, key: Key, pairs: seq<KeyPair>, columns: seq<string>, rows: seq<Cells>)
    requires columns != [] && forall p :: 0 <= p < |pairs| ==> pairs[p].1 in columns
    ensures (forall stream ::
               VerifyOutcome(verified, key, columns, SemiJoin(pairs, stream, rows)).Verified?
               ==> UniqueOn(SemiJoin(pairs, stream, rows), columns))
       <==> Verification(key, Names(columns)) !in verified || !Ambiguous(pairs, columns, rows)
  {
    PruningsUnique(pairs, columns, rows);
    if Verification(key, Names(columns)) in verified {
      assert forall frame :: VerifyOutcome(verified, key, columns, frame).Verified?;
    }
  }

  /** The columns a relation is pruned by are among those it is verified on. */
  lemma {:induction false} PrunedByVerified(joins: seq<Join>, streamAlias: string, alias: string, p: nat)
    requires p < |PruningPairs(streamAlias, alias, joins)|
    ensures PruningPairs(streamAlias, alias, joins)[p].1 in UniqueKeys(joins, NormalizeIdentifier(alias))
  {
    var name := NormalizeIdentifier(alias);
    if NormalizeIdentifier(joins[0].rightAlias) == name {
      PairsMerged(joins[0].keys, NormalizeIdentifier(streamAlias), UniqueKeys(joins[1..], name), p);
    } else {
      PrunedByVerified(joins[1..], streamAlias, alias, p);
    }
  }

  lemma {:induction false} PairsMerged(keys: seq<JoinKey>, streamAlias: string, rest: seq<string>, p: nat)
    requires p < |KeyPairs(keys, streamAlias)|
    ensures KeyPairs(keys, streamAlias)[p].1 in MergeColumns(keys, rest)
  {
    var column := KeyPairs(keys, streamAlias)[p].1;
    if |KeyPairs(keys[1..], streamAlias)| < |KeyPairs(keys, streamAlias)| && p == 0 {
      assert column == keys[0].rightColumn && T.Strip("") == "";
    } else {
      var shorter := KeyPairs(keys[1..], streamAlias);
      PairsMerged(keys[1..], streamAlias, rest, if shorter == KeyPairs(keys, streamAlias) then p else p - 1);
      if column != keys[0].rightColumn {
        StillIn(MergeColumns(keys[1..], rest), keys[0].rightColumn, column);
      }
    }
  }

  lemma {:induction false} StillIn(columns: seq<string>, c: string, x: string)
    requires x in columns && x != c
    ensures x in Without(columns, c)
  {
    if columns[0] != x {
      StillIn(columns[1..], c, x);
    }
  }

  // ----- The relations of a batch -----

  /** Every relation of the batch is registered under its alias with an admissible frame. */
  ghost predicate Registered(
    cache: StaticSnapshotCache, frames: Frames, relations: seq<Relation>, bindings: seq<Binding>, n: nat, batch: Batch)
    requires n <= |relations| == |bindings|
  {
    forall i :: 0 <= i < n ==>
      var alias := NormalizeIdentifier(relations[i].alias);
      alias in frames && cache.Admissible(frames[alias], relations[i], bindings[i], batch)
  }

  predicate RelationAliases(relations: seq<Relation>) {
    forall i, j :: 0 <= i < j < |relations| ==>
      NormalizeIdentifier(relations[i].alias) != NormalizeIdentifier(relations[j].alias)
  }

  lemma RegisterOne(
    cache: StaticSnapshotCache, frames: Frames, relations: seq<Relation>, bindings: seq<Binding>, i: nat,
    batch: Batch, frame: seq<Cells>)
    requires i < |relations| == |bindings| && RelationAliases(relations)
    requires Registered(cache, frames, relations, bindings, i, batch)
    requires cache.Admissible(frame, relations[i], bindings[i], batch)
    ensures var alias := NormalizeIdentifier(relations[i].alias);
      Registered(cache, frames[alias := frame], relations, bindings, i + 1, batch)
  {
  }

  /** The verifications when a batch comes to its relation `n`, all those before it having been accepted. */
  function AcceptedUpTo(
    verified: set<Verification>, relations: seq<Relation>, bindings: seq<Binding>, n: nat, joins: seq<Join>)
    : set<Verification>
    requires n <= |relations| == |bindings|
  {
    if n == 0 then verified
    else Accepted(AcceptedUpTo(verified, relations, bindings, n - 1, joins), relations[n - 1], bindings[n - 1], joins)
  }

  /** Each of the first `n` relations is acceptable when its turn comes. */
  ghost predicate AllAcceptable(
    cache: StaticSnapshotCache, verified: set<Verification>, relations: seq<Relation>, bindings: seq<Binding>, n: nat,
    batch: Batch)
    requires n <= |relations| == |bindings|
  {
    forall i :: 0 <= i < n ==>
      cache.Acceptable(AcceptedUpTo(verified, relations, bindings, i, batch.joins), relations[i], bindings[i], batch)
  }

  /** The next relation decides whether the batch goes on. */
  lemma NextAcceptable(
    cache: StaticSnapshotCache, verified: set<Verification>, relations: seq<Relation>, bindings: seq<Binding>, i: nat,
    batch: Batch)
    requires i < |relations| == |bindings| && AllAcceptable(cache, verified, relations, bindings, i, batch)
    ensures var here := AcceptedUpTo(verified, relations, bindings, i, batch.joins);
      && AcceptedUpTo(verified, relations, bindings, i + 1, batch.joins)
         == Accepted(here, relations[i], bindings[i], batch.joins)
      && (cache.Acceptable(here, relations[i], bindings[i], batch)
          ==> AllAcceptable(cache, verified, relations, bindings, i + 1, batch))
      && (!cache.Acceptable(here, relations[i], bindings[i], batch)
          ==> !AllAcceptable(cache, verified, relations, bindings, |relations|, batch))
  {
    hide cache.Acceptable, Accepted;
  }

  predicate AllHinted(relations: seq<Relation>) {
    forall i :: 0 <= i < |relations| ==> relations[i].cacheHint
  }

  /** Every alias of the batch has a whole snapshot, unique on its join keys. */
  ghost predicate RegisteredUnique(frames: Frames, relations: seq<Relation>, joins: seq<Join>) {
    forall i :: 0 <= i < |relations| ==>
      var alias := NormalizeIdentifier(relations[i].alias);
      alias in frames && UniqueOn(frames[alias], UniqueKeys(joins, alias))
  }

  /**
   The uniqueness check of a relation speaks of the frame it gets: the relation is cached whole, or its columns were
   not verified before, or its snapshot is not ambiguous.
   */
  ghost predicate Trusted(
    cache: StaticSnapshotCache, verified: set<Verification>, relation: Relation, binding: Binding, batch: Batch)
  {
    var identity, columns := CacheKey(relation, binding), UniqueKeys(batch.joins, NormalizeIdentifier(relation.alias));
    identity.Some? ==>
      || relation.cacheHint
      || Verification(identity.value, Names(columns)) !in verified
      || !Ambiguous(PruningPairs(batch.streamAlias, relation.alias, batch.joins), columns,
                    cache.Snapshot(identity.value))
  }

  /** Each relation is trusted when its turn comes. */
  ghost predicate AllTrusted(
    cache: StaticSnapshotCache, verified: set<Verification>, relations: seq<Relation>, bindings: seq<Binding>,
    batch: Batch)
    requires |relations| == |bindings|
  {
    forall i :: 0 <= i < |relations| ==>
      Trusted(cache, AcceptedUpTo(verified, relations, bindings, i, batch.joins), relations[i], bindings[i], batch)
  }

  lemma HintedAreTrusted(
    cache: StaticSnapshotCache, verified: set<Verification>, relations: seq<Relation>, bindings: seq<Binding>,
    batch: Batch)
    requires |relations| == |bindings| && AllHinted(relations)
    ensures AllTrusted(cache, verified, relations, bindings, batch)
  {
    hide AcceptedUpTo, UniqueKeys, CacheKey, Ambiguous, NormalizeIdentifier;
  }

  lemma TrustedUnique(
    cache: StaticSnapshotCache, verified: set<Verification>, relation: Relation, binding: Binding, batch: Batch,
    frame: seq<Cells>)
    requires cache.Acceptable(verified, relation, binding, batch) && Trusted(cache, verified, relation, binding, batch)
    requires cache.Admissible(frame, relation, binding, batch)
    ensures UniqueOn(frame, UniqueKeys(batch.joins, NormalizeIdentifier(relation.alias)))
  {
    hide UniqueOn, UniqueKeys, CacheKey, Ambiguous, NormalizeIdentifier, PruningPairs, SemiJoin;
    var key := CacheKey(relation, binding).value;
    if !relation.cacheHint {
      var pairs := PruningPairs(batch.streamAlias, relation.alias, batch.joins);
      var columns := UniqueKeys(batch.joins, NormalizeIdentifier(relation.alias));
      forall p | 0 <= p < |pairs|
        ensures pairs[p].1 in columns
      {
        PrunedByVerified(batch.joins, batch.streamAlias, relation.alias, p);
      }
      PruningsUnique(pairs, columns, cache.Snapshot(key));
      var mark := Verification(key, Names(columns));
      assert mark in Current(verified, key) ==> mark in verified;
      assert frame == SemiJoin(pairs, batch.stream, cache.Snapshot(key));
    }
  }

  /** The frames of an accepted batch of trusted relations are unique. */
  lemma TrustedRegistered(
    cache: StaticSnapshotCache, verified: set<Verification>, frames: Frames, relations: seq<Relation>,
    bindings: seq<Binding>, batch: Batch)
    requires |relations| == |bindings| && AllAcceptable(cache, verified, relations, bindings, |relations|, batch)
    requires AllTrusted(cache, verified, relations, bindings, batch)
    requires Registered(cache, frames, relations, bindings, |relations|, batch)
    ensures RegisteredUnique(frames, relations, batch.joins)
  {
    hide UniqueOn, UniqueKeys, NormalizeIdentifier, AcceptedUpTo, Trusted, cache.Acceptable, cache.Admissible;
    forall i | 0 <= i < |relations|
      ensures var alias := NormalizeIdentifier(relations[i].alias);
        alias in frames && UniqueOn(frames[alias], UniqueKeys(batch.joins, alias))
    {
      var here := AcceptedUpTo(verified, relations, bindings, i, batch.joins);
      TrustedUnique(cache, here, relations[i], bindings[i], batch, frames[NormalizeIdentifier(relations[i].alias)]);
    }
  }

  /** All static relations of a batch, however many batches, snapshots and evictions came before. */
  method PrepareBatch(
    cache: StaticSnapshotCache, engine: Engine, batch: Batch, relations: seq<Relation>, bindings: seq<Binding>,
    ghost hinted: set<string>)
    returns (frames: Option<Frames>)
    requires |bindings| == |relations| && RelationAliases(relations)
    requires cache.Valid() && cache.Sound(hinted)
    requires forall i :: 0 <= i < |relations| ==> cache.Consistent(relations[i], bindings[i], hinted)
    modifies cache
    ensures cache.Valid() && cache.Sound(hinted)
    ensures frames.Some? <==> AllAcceptable(cache, old(cache.verified), relations, bindings, |relations|, batch)
    ensures frames.Some? ==> Registered(cache, frames.value, relations, bindings, |relations|, batch)
    ensures frames.Some? && AllTrusted(cache, old(cache.verified), relations, bindings, batch) ==>
      RegisteredUnique(frames.value, relations, batch.joins)
  {
    hide cache.Admissible, cache.Acceptable, cache.Consistent, Accepted;
    hide RelationAliases, NormalizeIdentifier, AllTrusted;
    var registered: Frames := map[];
    ghost var before := cache.verified;
    for i := 0 to |relations|
      invariant cache.Valid() && cache.Sound(hinted)
      invariant AllAcceptable(cache, before, relations, bindings, i, batch)
      invariant cache.verified == AcceptedUpTo(before, relations, bindings, i, batch.joins)
      invariant Registered(cache, registered, relations, bindings, i, batch)
    {
      NextAcceptable(cache, before, relations, bindings, i, batch);
      var frame := cache.PrepareRelation(engine, batch, relations[i], bindings[i], hinted);
      if frame.None? {
        return None;
      }
      RegisterOne(cache, registered, relations, bindings, i, batch, frame.value);
      registered := registered[NormalizeIdentifier(relations[i].alias) := frame.value];
    }
    if AllTrusted(cache, before, relations, bindings, batch) {
      TrustedRegistered(cache, before, registered, relations, bindings, batch);
    }
    frames := Some(registered);
  }

  // ----- When wholly cached relations are accepted -----

  /** The snapshot a relation is bound to can be read, and is unique on its join keys. */
  ghost predicate BoundToUnique(cache: StaticSnapshotCache, relation: Relation, binding: Binding, joins: seq<Join>) {
    var identity, columns := CacheKey(relation, binding), UniqueKeys(joins, NormalizeIdentifier(relation.alias));
    && identity.Some? && cache.Fetched(identity.value).Some?
    && columns != [] && UniqueOn(cache.Snapshot(identity.value), columns)
  }

  lemma WholeAcceptable(
    cache: StaticSnapshotCache, verified: set<Verification>, relation: Relation, binding: Binding, batch: Batch,
    hinted: set<string>)
    requires cache.SoundSet(verified, hinted) && cache.Consistent(relation, binding, hinted) && relation.cacheHint
    ensures cache.Acceptable(verified, relation, binding, batch)
       <==> BoundToUnique(cache, relation, binding, batch.joins)
  {
  }

  /** One more relation: both sides of `WholeBatchAcceptable` extend alike, and verifications stay sound. */
  lemma OneMore(
    cache: StaticSnapshotCache, verified: set<Verification>, relation: Relation, binding: Binding, batch: Batch,
    hinted: set<string>)
    requires cache.SoundSet(verified, hinted) && cache.Consistent(relation, binding, hinted) && relation.cacheHint
    ensures cache.Acceptable(verified, relation, binding, batch)
       <==> BoundToUnique(cache, relation, binding, batch.joins)
    ensures cache.Acceptable(verified, relation, binding, batch) ==>
      cache.SoundSet(Accepted(verified, relation, binding, batch.joins), hinted)
  {
    WholeAcceptable(cache, verified, relation, binding, batch, hinted);
    if cache.Acceptable(verified, relation, binding, batch) {
      cache.AcceptedSound(verified, relation, binding, batch, hinted);
    }
  }

  ghost predicate AllBoundToUnique(
    cache: StaticSnapshotCache, relations: seq<Relation>, bindings: seq<Binding>, n: nat, joins: seq<Join>)
    requires n <= |relations| == |bindings|
  {
    forall i :: 0 <= i < n ==> BoundToUnique(cache, relations[i], bindings[i], joins)
  }

  lemma {:induction false} AcceptableUpTo(
    cache: StaticSnapshotCache, verified: set<Verification>, relations: seq<Relation>, bindings: seq<Binding>, n: nat,
    batch: Batch, hinted: set<string>)
    requires n <= |relations| == |bindings| && AllHinted(relations) && cache.SoundSet(verified, hinted)
    requires forall i :: 0 <= i < |relations| ==> cache.Consistent(relations[i], bindings[i], hinted)
    ensures AllAcceptable(cache, verified, relations, bindings, n, batch)
       <==> AllBoundToUnique(cache, relations, bindings, n, batch.joins)
    ensures AllAcceptable(cache, verified, relations, bindings, n, batch) ==>
      cache.SoundSet(AcceptedUpTo(verified, relations, bindings, n, batch.joins), hinted)
  {
    hide cache.Acceptable, BoundToUnique, Accepted, cache.SoundSet, cache.Consistent;
    if n > 0 {
      AcceptableUpTo(cache, verified, relations, bindings, n - 1, batch, hinted);
      if AllAcceptable(cache, verified, relations, bindings, n - 1, batch) {
        OneMore(cache, AcceptedUpTo(verified, relations, bindings, n - 1, batch.joins),
                relations[n - 1], bindings[n - 1], batch, hinted);
      }
    }
  }

  /** A batch of wholly cached relations is accepted exactly if each is bound to a snapshot unique on its keys. */
  lemma WholeBatchAcceptable(
    cache: StaticSnapshotCache, verified: set<Verification>, relations: seq<Relation>, bindings: seq<Binding>,
    batch: Batch, hinted: set<string>)
    requires |relations| == |bindings| && AllHinted(relations) && cache.SoundSet(verified, hinted)
    requires forall i :: 0 <= i < |relations| ==> cache.Consistent(relations[i], bindings[i], hinted)
    ensures AllAcceptable(cache, verified, relations, bindings, |relations|, batch)
       <==> AllBoundToUnique(cache, relations, bindings, |relations|, batch.joins)
  {
    AcceptableUpTo(cache, verified, relations, bindings, |relations|, batch, hinted);
  }

  // ----- The registered frames join like the whole snapshots -----

  ghost function BoundSnapshot(cache: StaticSnapshotCache, relation: Relation, binding: Binding): seq<Cells> {
    var identity := CacheKey(relation, binding);
    if identity.Some? then cache.Snapshot(identity.value) else []
  }

  function Aliases(relations: seq<Relation>): seq<string> {
    seq(|relations|, i requires 0 <= i < |relations| => NormalizeIdentifier(relations[i].alias))
  }

  /** Frames registered in turn under their aliases. */
  function InTurn(aliases: seq<string>, frames: seq<seq<Cells>>): Frames
    requires |aliases| == |frames|
    decreases |aliases|
  {
    if aliases == [] then map[]
    else
      var last := |aliases| - 1;
      InTurn(aliases[..last], frames[..last])[aliases[last] := frames[last]]
  }

  lemma {:induction false} FoundInTurn(aliases: seq<string>, frames: seq<seq<Cells>>, i: nat)
    requires i < |aliases| == |frames|
    requires forall j :: i < j < |aliases| ==> aliases[j] != aliases[i]
    ensures aliases[i] in InTurn(aliases, frames) && InTurn(aliases, frames)[aliases[i]] == frames[i]
    decreases |aliases|
  {
    var last := |aliases| - 1;
    if i < last {
      FoundInTurn(aliases[..last], frames[..last], i);
    }
  }

  /** The whole snapshots the relations are bound to, by alias. */
  ghost function WholeFrames(cache: StaticSnapshotCache, relations: seq<Relation>, bindings: seq<Binding>): Frames
    requires |relations| == |bindings|
  {
    InTurn(Aliases(relations),
           seq(|relations|, i requires 0 <= i < |relations| => BoundSnapshot(cache, relations[i], bindings[i])))
  }

  lemma WholeFrame(cache: StaticSnapshotCache, relations: seq<Relation>, bindings: seq<Binding>, i: nat)
    requires i < |relations| == |bindings| && RelationAliases(relations)
    ensures var alias, whole := NormalizeIdentifier(relations[i].alias), WholeFrames(cache, relations, bindings);
      alias in whole && whole[alias] == BoundSnapshot(cache, relations[i], bindings[i])
  {
    var frames := seq(|relations|, k requires 0 <= k < |relations| => BoundSnapshot(cache, relations[k], bindings[k]));
    FoundInTurn(Aliases(relations), frames, i);
  }

  /** One join to each alias, every join to a relation of the batch, none to the stream. */
  predicate WellPlanned(batch: Batch, relations: seq<Relation>) {
    && RelationAliases(relations) && DistinctAliases(batch.joins)
    && forall j :: 0 <= j < |batch.joins| ==>
         && HasRelation(relations, NormalizeIdentifier(batch.joins[j].rightAlias))
         && NormalizeIdentifier(batch.joins[j].rightAlias) != NormalizeIdentifier(batch.streamAlias)
  }

  lemma {:induction false} OnlyJoin(joins: seq<Join>, j: nat)
    requires DistinctAliases(joins) && j < |joins|
    ensures FirstJoin(joins, NormalizeIdentifier(joins[j].rightAlias)) == Some(joins[j])
  {
    if j > 0 {
      OnlyJoin(joins[1..], j - 1);
    }
  }

  lemma RegisteredIsPruned(
    cache: StaticSnapshotCache, frames: Frames, relations: seq<Relation>, bindings: seq<Binding>, batch: Batch, j: nat)
    requires |relations| == |bindings| && WellPlanned(batch, relations) && j < |batch.joins|
    requires Registered(cache, frames, relations, bindings, |relations|, batch)
    ensures var join, whole := batch.joins[j], WholeFrames(cache, relations, bindings);
      || FrameOf(frames, join) == FrameOf(whole, join)
      || FrameOf(frames, join)
         == SemiJoin(KeyPairs(join.keys, NormalizeIdentifier(batch.streamAlias)), batch.stream, FrameOf(whole, join))
  {
    var join := batch.joins[j];
    var i :| 0 <= i < |relations| && NormalizeIdentifier(relations[i].alias) == NormalizeIdentifier(join.rightAlias);
    OnlyJoin(batch.joins, j);
    assert cache.Admissible(frames[NormalizeIdentifier(relations[i].alias)], relations[i], bindings[i], batch);
    WholeFrame(cache, relations, bindings, i);
  }

  /** The joins of a batch give the same rows on the frames it registers as on the whole snapshots. */
  lemma RegisteredJoinsAsWhole(
    cache: StaticSnapshotCache, frames: Frames, relations: seq<Relation>, bindings: seq<Binding>, batch: Batch)
    requires |relations| == |bindings| && WellPlanned(batch, relations)
    requires Registered(cache, frames, relations, bindings, |relations|, batch)
    ensures Output(batch, frames) == Output(batch, WholeFrames(cache, relations, bindings))
  {
    forall j | 0 <= j < |batch.joins|
      ensures var join, whole := batch.joins[j], WholeFrames(cache, relations, bindings);
        || FrameOf(frames, join) == FrameOf(whole, join)
        || FrameOf(frames, join)
           == SemiJoin(KeyPairs(join.keys, NormalizeIdentifier(batch.streamAlias)), batch.stream, FrameOf(whole, join))
    {
      RegisteredIsPruned(cache, frames, relations, bindings, batch, j);
    }
    PruningPreservesBatch(NormalizeIdentifier(batch.streamAlias), batch.stream, batch.joins,
                          WholeFrames(cache, relations, bindings), frames);
  }

  /** The joined rows of a batch. */
  function Output(batch: Batch, frames: Frames): seq<Tuple> {
    JoinAll(StreamTuples(NormalizeIdentifier(batch.streamAlias), batch.stream), batch.joins, frames)
  }

  datatype BatchResult = Refused | TooManyRows | Joined(rows: seq<Tuple>)

  /**
   How a batch ends: refused if some relation is not acceptable when its turn comes, else joined like the whole
   snapshots, unless more rows come out than the plan allows for each row that went in: the number it configures,
   ten if that is zero, one if it is negative.
   */
  ghost predicate BatchEnds(
    cache: StaticSnapshotCache, verified: set<Verification>, batch: Batch, relations: seq<Relation>,
    bindings: seq<Binding>, configured: int, r: BatchResult)
    requires |relations| == |bindings|
  {
    var output := Output(batch, WholeFrames(cache, relations, bindings));
    var allowed := if configured > 0 then configured else if configured == 0 then 10 else 1;
    if !AllAcceptable(cache, verified, relations, bindings, |relations|, batch) then r == Refused
    else if |output| > |batch.stream| * allowed then r == TooManyRows
    else r == Joined(output)
  }

  /**
   A batch from its relations to its checked output. If all relations are trusted, as all are that are cached
   whole, it never has too many rows.
   */
  method ExecuteBatch(
    cache: StaticSnapshotCache, engine: Engine, batch: Batch, relations: seq<Relation>, bindings: seq<Binding>,
    configured: int, ghost hinted: set<string>)
    returns (r: BatchResult)
    requires |bindings| == |relations| && WellPlanned(batch, relations)
    requires cache.Valid() && cache.Sound(hinted)
    requires forall i :: 0 <= i < |relations| ==> cache.Consistent(relations[i], bindings[i], hinted)
    modifies cache
    ensures cache.Valid() && cache.Sound(hinted)
    ensures BatchEnds(cache, old(cache.verified), batch, relations, bindings, configured, r)
    ensures AllTrusted(cache, old(cache.verified), relations, bindings, batch) ==> r != TooManyRows
    ensures AllHinted(relations) ==> AllTrusted(cache, old(cache.verified), relations, bindings, batch)
  {
    ghost var before := cache.verified;
    if AllHinted(relations) {
      HintedAreTrusted(cache, before, relations, bindings, batch);
    }
    var frames := PrepareBatch(cache, engine, batch, relations, bindings, hinted);
    if frames.None? {
      return Refused;
    }
    RegisteredJoinsAsWhole(cache, frames.value, relations, bindings, batch);
    if AllTrusted(cache, before, relations, bindings, batch) {
      VerifiedBatchFits(batch, relations, frames.value, configured);
    }
    var output := Output(batch, frames.value);
    CardinalityMeans(configured, |batch.stream|, |output|);
    r := if WithinCardinality(configured, |batch.stream|, |output|) then Joined(output) else TooManyRows;
  }

  // ----- From verified relations to the size of the output -----

  lemma {:induction false} WithoutSubset(columns: seq<string>, c: string)
    ensures forall x :: x in Without(columns, c) ==> x in columns
  {
    if columns != [] {
      WithoutSubset(columns[1..], c);
    }
  }

  lemma {:induction false} MergedColumns(keys: seq<JoinKey>, rest: seq<string>)
    ensures forall x :: x in MergeColumns(keys, rest) ==>
              x in rest || exists k :: 0 <= k < |keys| && keys[k].rightColumn == x
  {
    if keys != [] {
      MergedColumns(keys[1..], rest);
      WithoutSubset(MergeColumns(keys[1..], rest), keys[0].rightColumn);
      forall x | x in MergeColumns(keys, rest) && x !in rest
        ensures exists k :: 0 <= k < |keys| && keys[k].rightColumn == x
      {
        if x != keys[0].rightColumn {
          var k :| 0 <= k < |keys[1..]| && keys[1..][k].rightColumn == x;
          assert keys[k + 1].rightColumn == x;
        }
      }
    }
  }

  lemma {:induction false} NoOtherJoin(joins: seq<Join>, alias: string)
    requires forall i :: 0 <= i < |joins| ==> NormalizeIdentifier(joins[i].rightAlias) != alias
    ensures UniqueKeys(joins, alias) == []
  {
    if joins != [] {
      NoOtherJoin(joins[1..], alias);
    }
  }

  predicate DistinctAliases(joins: seq<Join>) {
    forall i, j :: 0 <= i < j < |joins| ==>
      NormalizeIdentifier(joins[i].rightAlias) != NormalizeIdentifier(joins[j].rightAlias)
  }

  /** With one join per alias, the verified columns are columns that join equates. */
  lemma {:induction false} VerifiedAreEquated(joins: seq<Join>, i: nat)
    requires DistinctAliases(joins) && i < |joins|
    ensures KeyedBy(joins[i], UniqueKeys(joins, NormalizeIdentifier(joins[i].rightAlias)))
  {
    var alias := NormalizeIdentifier(joins[i].rightAlias);
    if i == 0 {
      NoOtherJoin(joins[1..], alias);
      MergedColumns(joins[0].keys, []);
      var columns := UniqueKeys(joins, alias);
      assert forall c :: 0 <= c < |columns| ==> columns[c] in columns;
    } else {
      VerifiedAreEquated(joins[1..], i - 1);
    }
  }

  predicate HasRelation(relations: seq<Relation>, alias: string) {
    exists i :: 0 <= i < |relations| && NormalizeIdentifier(relations[i].alias) == alias
  }

  lemma JoinedIsVerified(batch: Batch, relations: seq<Relation>, frames: Frames, j: nat)
    requires RegisteredUnique(frames, relations, batch.joins) && WellPlanned(batch, relations) && j < |batch.joins|
    ensures var join := batch.joins[j]; var columns := UniqueKeys(batch.joins, NormalizeIdentifier(join.rightAlias));
      KeyedBy(join, columns) && UniqueOn(FrameOf(frames, join), columns)
  {
    hide UniqueKeys, UniqueOn, KeyedBy;
    VerifiedAreEquated(batch.joins, j);
    var i :| 0 <= i < |relations|
      && NormalizeIdentifier(relations[i].alias) == NormalizeIdentifier(batch.joins[j].rightAlias);
  }

  /** A batch whose joins all reach verified whole snapshots passes the cardinality check. */
  lemma VerifiedBatchFits(batch: Batch, relations: seq<Relation>, frames: Frames, configured: int)
    requires RegisteredUnique(frames, relations, batch.joins) && WellPlanned(batch, relations)
    ensures var output, joins := Output(batch, frames), batch.joins;
      && |output| <= |batch.stream|
      && WithinCardinality(configured, |batch.stream|, |output|)
      && ((forall j :: 0 <= j < |joins| ==> joins[j].kind == Left) ==> |output| == |batch.stream|)
  {
    hide UniqueKeys, UniqueOn, KeyedBy, RegisteredUnique, WellPlanned, FrameOf, WithinCardinality, JoinAll;
    var joins, alias := batch.joins, NormalizeIdentifier(batch.streamAlias);
    var columns := map j | 0 <= j < |joins| ::
      NormalizeIdentifier(joins[j].rightAlias) := UniqueKeys(joins, NormalizeIdentifier(joins[j].rightAlias));
    forall j | 0 <= j < |joins|
      ensures var alias := NormalizeIdentifier(joins[j].rightAlias);
        alias in columns && KeyedBy(joins[j], columns[alias]) && UniqueOn(FrameOf(frames, joins[j]), columns[alias])
    {
      JoinedIsVerified(batch, relations, frames, j);
    }
    ChainDoesNotMultiply(StreamTuples(alias, batch.stream), joins, frames, columns);
    CardinalityHolds(alias, batch.stream, joins, frames, columns, configured);
  }

  // ----- A pruned frame that is accepted though it is not unique -----

  const EXAMPLE_KEY := Key("users", "7", "f")
  const EXAMPLE_JOIN := Join(Inner, "u", [JoinKey("s", "id", "id")])

  function ExampleRow(id: int, name: string): Cells {
    map["id" := Value(Long(id)), "name" := Value(Text(name))]
  }

  lemma PlainIdentifier(s: string)
    requires s != "" && forall i :: 0 <= i < |s| ==> 'a' <= s[i] <= 'z'
    ensures NormalizeIdentifier(s) == s
  {
    assert T.StripLeft(s) == s && T.StripRight(s) == s;
    assert StripQuotes(s) == s;
  }

  lemma ExampleId(id: int, name: string)
    ensures Lookup(ExampleRow(id, name), "id") == Value(Long(id))
  {
    PlainIdentifier("id");
  }

  /** The batch of one row with a duplicated key comes out as two rows. */
  lemma DuplicatesMultiply()
    ensures var batch: Tuple := map["s" := ExampleRow(2, "y")];
      |JoinRows(EXAMPLE_JOIN, [batch], [ExampleRow(2, "b"), ExampleRow(2, "c")])| == 2
  {
    var batch: Tuple := map["s" := ExampleRow(2, "y")];
    var b, c := ExampleRow(2, "b"), ExampleRow(2, "c");
    PlainIdentifier("s");
    ExampleId(2, "y");
    ExampleId(2, "b");
    ExampleId(2, "c");
    assert TupleCell(batch, "s", "id") == Value(Long(2));
    assert Matches(batch, EXAMPLE_JOIN.keys, b) && Matches(batch, EXAMPLE_JOIN.keys, c);
    assert [b, c][1..] == [c];
    assert Matching(batch, EXAMPLE_JOIN.keys, [c]) == [c];
    assert Matching(batch, EXAMPLE_JOIN.keys, [b, c]) == [b, c];
    assert JoinRows(EXAMPLE_JOIN, [batch][1..], [b, c]) == [];
  }

  const EXAMPLE_SNAPSHOT := [ExampleRow(1, "a"), ExampleRow(2, "b"), ExampleRow(2, "c")]

  lemma FirstBatchSees()
    ensures SemiJoin([("id", "id")], [ExampleRow(1, "x")], EXAMPLE_SNAPSHOT) == [ExampleRow(1, "a")]
  {
    var pairs, one := [("id", "id")], ExampleRow(1, "x");
    var a, b, c := ExampleRow(1, "a"), ExampleRow(2, "b"), ExampleRow(2, "c");
    ExampleId(1, "x");
    ExampleId(1, "a");
    ExampleId(2, "b");
    ExampleId(2, "c");
    assert one in [one] && PairsMatch(pairs, one, a);
    assert forall r :: r in [b, c] ==> Equal3(Lookup(one, pairs[0].0), Lookup(r, pairs[0].1)) != TRUE;
    assert [b, c][1..] == [c] && EXAMPLE_SNAPSHOT[1..] == [b, c];
    assert SemiJoin(pairs, [one], [c]) == [] && SemiJoin(pairs, [one], [b, c]) == [];
  }

  lemma SecondBatchSees()
    ensures SemiJoin([("id", "id")], [ExampleRow(2, "y")], EXAMPLE_SNAPSHOT) == [ExampleRow(2, "b"), ExampleRow(2, "c")]
  {
    var pairs, two := [("id", "id")], ExampleRow(2, "y");
    var a, b, c := ExampleRow(1, "a"), ExampleRow(2, "b"), ExampleRow(2, "c");
    ExampleId(2, "y");
    ExampleId(1, "a");
    ExampleId(2, "b");
    ExampleId(2, "c");
    assert two in [two] && PairsMatch(pairs, two, b) && PairsMatch(pairs, two, c);
    assert Equal3(Lookup(two, pairs[0].0), Lookup(a, pairs[0].1)) != TRUE;
    assert [b, c][1..] == [c] && EXAMPLE_SNAPSHOT[1..] == [b, c];
    assert SemiJoin(pairs, [two], [c]) == [c] && SemiJoin(pairs, [two], [b, c]) == [b, c];
  }

  /**
   A concrete history on the pruned path: the first batch touches an unambiguous key and marks the snapshot
   verified; the second touches a duplicated key, is accepted unchecked, and its output exceeds a multiplier
   of one.
   */
  lemma StaleVerificationAdmitsDuplicates()
    ensures var pairs := [("id", "id")];
      var first := SemiJoin(pairs, [ExampleRow(1, "x")], EXAMPLE_SNAPSHOT);
      var second := SemiJoin(pairs, [ExampleRow(2, "y")], EXAMPLE_SNAPSHOT);
      && VerifyOutcome({}, EXAMPLE_KEY, ["id"], first) == Verified
      && VerifyOutcome({}, EXAMPLE_KEY, ["id"], second) == KeyDuplicate
      && VerifyOutcome({Verification(EXAMPLE_KEY, Names(["id"]))}, EXAMPLE_KEY, ["id"], second) == Verified
      && |JoinRows(EXAMPLE_JOIN, [map["s" := ExampleRow(2, "y")]], second)| > 1 * Multiplier(1)
  {
    hide Lookup, NormalizeIdentifier, SemiJoin, JoinRows;
    FirstBatchSees();
    SecondBatchSees();
    DuplicatesMultiply();
    var duplicates := [ExampleRow(2, "b"), ExampleRow(2, "c")];
    assert SameKey(["id"], duplicates[0], duplicates[1]) by {
      ExampleId(2, "b");
      ExampleId(2, "c");
    }
  }

  const SECOND_BATCH := Batch([ExampleRow(2, "y")], "s", [EXAMPLE_JOIN], Missing)
  const USERS := Relation("u", "users", "t", "f", false)
  const USERS_BINDING := Binding("users", "7", "f")

  lemma PlainText(s: string)
    requires s != "" && forall i :: 0 <= i < |s| ==> !T.IsSpace(s[i])
    ensures T.Strip(s) == s
  {
    assert T.StripLeft(s) == s && T.StripRight(s) == s;
  }

  lemma UsersKey()
    ensures CacheKey(USERS, USERS_BINDING) == Some(EXAMPLE_KEY)
  {
    PlainText("users");
    PlainText("7");
    PlainText("f");
  }

  lemma ExamplePairs()
    ensures PruningPairs("s", "u", [EXAMPLE_JOIN]) == [("id", "id")]
    ensures UniqueKeys([EXAMPLE_JOIN], NormalizeIdentifier("u")) == ["id"]
  {
    PlainIdentifier("u");
    PlainIdentifier("s");
    PlainText("id");
    var keys := EXAMPLE_JOIN.keys;
    hide NormalizeIdentifier, T.Strip;
    assert [EXAMPLE_JOIN][1..] == [] && keys[1..] == [];
    assert KeyPairs([], "s") == [] && UniqueKeys([], "u") == [] && MergeColumns([], []) == [] && Without([], "id") == [];
  }

  lemma OneKey()
    ensures Prunable([("id", "id")], SECOND_BATCH.stream, Missing)
  {
    var pairs := [("id", "id")];
    var keys := BatchKeys(pairs, SECOND_BATCH.stream);
    assert keys <= {KeyOf(pairs, SECOND_BATCH.stream[0])};
    SubsetSize(keys, {KeyOf(pairs, SECOND_BATCH.stream[0])});
  }

  lemma SecondBatchAccepted(cache: StaticSnapshotCache)
    requires cache.Fetched(EXAMPLE_KEY) == Some(EXAMPLE_SNAPSHOT)
    ensures cache.Acceptable({Verification(EXAMPLE_KEY, Names(["id"]))}, USERS, USERS_BINDING, SECOND_BATCH)
  {
    hide CacheKey, PruningPairs, UniqueKeys, Prunable, cache.Fetched, NormalizeIdentifier, SemiJoin, Names;
    UsersKey();
    ExamplePairs();
    OneKey();
    var seen := {Verification(EXAMPLE_KEY, Names(["id"]))};
    assert Verification(EXAMPLE_KEY, Names(["id"])) in Current(seen, EXAMPLE_KEY);
  }

  lemma SecondBatchJoins()
    ensures |JoinRows(EXAMPLE_JOIN, [map["s" := ExampleRow(2, "y")]], EXAMPLE_SNAPSHOT)| == 2
  {
    hide Lookup, Matching, JoinRows, SemiJoin, NormalizeIdentifier;
    SecondBatchSees();
    DuplicatesMultiply();
    ExamplePairs();
    PlainIdentifier("s");
    PlainIdentifier("u");
    assert FirstJoin([EXAMPLE_JOIN], "u") == Some(EXAMPLE_JOIN);
    PruningPreservesJoin(
      EXAMPLE_JOIN, [map["s" := ExampleRow(2, "y")]], "s", [ExampleRow(2, "y")], EXAMPLE_SNAPSHOT);
  }

  lemma SecondBatchOutput(cache: StaticSnapshotCache)
    requires cache.Fetched(EXAMPLE_KEY) == Some(EXAMPLE_SNAPSHOT)
    ensures |Output(SECOND_BATCH, WholeFrames(cache, [USERS], [USERS_BINDING]))| == 2
  {
    hide CacheKey, NormalizeIdentifier, JoinRows, ExampleRow, WholeFrames;
    UsersKey();
    PlainIdentifier("u");
    PlainIdentifier("s");
    var frames, tuple := WholeFrames(cache, [USERS], [USERS_BINDING]), map["s" := ExampleRow(2, "y")];
    WholeFrame(cache, [USERS], [USERS_BINDING], 0);
    assert FrameOf(frames, EXAMPLE_JOIN) == EXAMPLE_SNAPSHOT;
    assert StreamTuples("s", SECOND_BATCH.stream) == [tuple] by {
      assert SECOND_BATCH.stream[1..] == [] && StreamTuples("s", []) == [];
    }
    SecondBatchJoins();
    assert [EXAMPLE_JOIN][1..] == [];
    assert JoinAll([tuple], [EXAMPLE_JOIN], frames) == JoinRows(EXAMPLE_JOIN, [tuple], EXAMPLE_SNAPSHOT);
  }

  /** That second batch, joined at a multiplier of one, ends with too many rows. */
  lemma SecondBatchExceeds(cache: StaticSnapshotCache, r: BatchResult)
    requires cache.Fetched(EXAMPLE_KEY) == Some(EXAMPLE_SNAPSHOT)
    requires BatchEnds(cache, {Verification(EXAMPLE_KEY, Names(["id"]))}, SECOND_BATCH, [USERS], [USERS_BINDING], 1, r)
    ensures r == TooManyRows
  {
    hide cache.Acceptable, Output, cache.Fetched, Names, WholeFrames;
    SecondBatchAccepted(cache);
    SecondBatchOutput(cache);
    var seen := {Verification(EXAMPLE_KEY, Names(["id"]))};
    assert AcceptedUpTo(seen, [USERS], [USERS_BINDING], 0, SECOND_BATCH.joins) == seen;
    assert AllAcceptable(cache, seen, [USERS], [USERS_BINDING], 1, SECOND_BATCH);
  }

  // ----- Identities and verified columns in plain terms -----

  /** A relation's own dataset wins over the binding's, a binding's fingerprint over the relation's; no part is blank. */
  lemma IdentityMeans(relation: Relation, binding: Binding, key: Key)
    ensures CacheKey(relation, binding) == Some(key) <==>
      && key.dataset == (if relation.dataset != "" then T.Strip(relation.dataset) else T.Strip(binding.dataset)) != ""
      && key.snapshot == T.Strip(binding.snapshot) != ""
      && key.fingerprint
         == (if binding.fingerprint != "" then T.Strip(binding.fingerprint) else T.Strip(relation.fingerprint)) != ""
  {
    hide T.Strip;
  }

  /** Some join to the alias equates this column of the relation. */
  predicate Equates(joins: seq<Join>, alias: string, column: string) {
    exists join, key :: join in joins && NormalizeIdentifier(join.rightAlias) == alias && key in join.keys
      && key.rightColumn == column
  }

  lemma {:induction false} MergeMembers(keys: seq<JoinKey>, rest: seq<string>, c: string)
    ensures c in MergeColumns(keys, rest) <==>
            c in rest || (c != "" && exists key :: key in keys && key.rightColumn == c)
  {
    if keys != [] {
      MergeMembers(keys[1..], rest, c);
      assert forall key :: key in keys <==> key == keys[0] || key in keys[1..];
      var merged := MergeColumns(keys[1..], rest);
      WithoutSubset(merged, keys[0].rightColumn);
      if c in merged && c != keys[0].rightColumn {
        StillIn(merged, keys[0].rightColumn, c);
      }
    }
  }

  /** The columns a relation is verified on are the ones some join to it equates, but for blank ones. */
  lemma {:induction false} UniqueKeyMembers(joins: seq<Join>, alias: string, c: string)
    ensures c in UniqueKeys(joins, alias) <==> c != "" && Equates(joins, alias, c)
  {
    hide NormalizeIdentifier;
    if joins != [] {
      UniqueKeyMembers(joins[1..], alias, c);
      MergeMembers(joins[0].keys, UniqueKeys(joins[1..], alias), c);
      EquatesRest(joins, alias, c);
    }
  }

  lemma EquatesRest(joins: seq<Join>, alias: string, c: string)
    requires joins != []
    ensures Equates(joins, alias, c) <==>
      || Equates(joins[1..], alias, c)
      || (NormalizeIdentifier(joins[0].rightAlias) == alias && exists key :: key in joins[0].keys && key.rightColumn == c)
  {
    hide NormalizeIdentifier;
    assert forall join :: join in joins <==> join == joins[0] || join in joins[1..];
  }

  /** A verification speaks for all columns of the same normalized names in the same order, however they are written. */
  lemma SpellingAccepted(verified: set<Verification>, key: Key, columns: seq<string>, others: seq<string>, frame: seq<Cells>)
    requires columns != [] && |columns| == |others|
    requires forall i :: 0 <= i < |columns| ==> NormalizeIdentifier(columns[i]) == NormalizeIdentifier(others[i])
    requires Verification(key, Names(others)) in verified
    ensures VerifyOutcome(verified, key, columns, frame).Verified?
  {
    hide NormalizeIdentifier;
    assert Names(columns) == Names(others);
    assert Verification(key, Names(columns)) in Current(verified, key);
  }

  /** The columns the joins to an alias equate, one after the other, without blank ones. */
  function Equated(joins: seq<Join>, alias: string): seq<string> {
    if joins == [] then []
    else (if NormalizeIdentifier(joins[0].rightAlias) == alias then Named(joins[0].keys) else []) + Equated(joins[1..], alias)
  }

  function Named(keys: seq<JoinKey>): seq<string> {
    if keys == [] then [] else (if keys[0].rightColumn == "" then [] else [keys[0].rightColumn]) + Named(keys[1..])
  }

  /** Each column once, where it is first seen. */
  function OnceEach(columns: seq<string>): seq<string> {
    if columns == [] then []
    else
      var front, last := columns[..|columns| - 1], columns[|columns| - 1];
      if last in front then OnceEach(front) else OnceEach(front) + [last]
  }

  lemma {:induction false} WithoutLast(columns: seq<string>, d: string, c: string)
    ensures Without(columns + [d], c) == Without(columns, c) + (if d == c then [] else [d])
  {
    if columns == [] {
      assert columns + [d] == [d] && [d][1..] == [];
    } else {
      assert (columns + [d])[1..] == columns[1..] + [d];
      WithoutLast(columns[1..], d, c);
    }
  }

  lemma {:induction false} OnceFirst(c: string, columns: seq<string>)
    ensures OnceEach([c] + columns) == [c] + Without(OnceEach(columns), c)
    decreases |columns|
  {
    if columns == [] {
      assert [c] + columns == [c] && [c][..0] == [];
    } else {
      var front, last := columns[..|columns| - 1], columns[|columns| - 1];
      var all := [c] + columns;
      OnceFirst(c, front);
      assert all[..|all| - 1] == [c] + front && all[|all| - 1] == last;
      WithoutLast(OnceEach(front), last, c);
    }
  }

  lemma {:induction false} MergedOnce(keys: seq<JoinKey>, columns: seq<string>)
    ensures MergeColumns(keys, OnceEach(columns)) == OnceEach(Named(keys) + columns)
  {
    hide OnceEach, Without;
    if keys == [] {
      assert Named(keys) + columns == columns;
    } else {
      MergedOnce(keys[1..], columns);
      var c, rest := keys[0].rightColumn, Named(keys[1..]) + columns;
      if c == "" {
        assert Named(keys) == Named(keys[1..]);
      } else {
        assert Named(keys) + columns == [c] + rest;
        OnceFirst(c, rest);
      }
    }
  }

  /** The columns a relation is verified on are those its joins equate, each once, where it is first seen. */
  lemma {:induction false} UniqueKeysInOrder(joins: seq<Join>, alias: string)
    ensures UniqueKeys(joins, alias) == OnceEach(Equated(joins, alias))
  {
    hide NormalizeIdentifier;
    if joins != [] {
      UniqueKeysInOrder(joins[1..], alias);
      MergedOnce(joins[0].keys, Equated(joins[1..], alias));
      assert [] + Equated(joins[1..], alias) == Equated(joins[1..], alias);
    }
  }
}
