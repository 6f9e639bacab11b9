/**
 A micro-batch as a whole: its static relations are bound by the manifest of the batch and joined on the bound
 snapshots. Workers that retry a batch, each with caches of its own history, join it to the same rows.
 */
module StaticBatches {
  import opened Wrappers
  import opened Expressions
  import opened StaticJoins
  import opened StaticSnapshotCache
  import B = StaticBindings

  /** What a plan says of the execution of a batch; the hash of the plan covers it. */
  datatype Program = Program(
    streamAlias: string,
    joins: seq<Join>,
    limit: Limit,
    multiplier: int,
    relations: seq<Relation>)
  {
    function On(stream: seq<Cells>): Batch {
      Batch(stream, streamAlias, joins, limit)
    }
  }

  /** The binding of a dataset; the last one, if it is bound twice. */
  function BindingFor(snapshots: seq<B.Binding>, dataset: string): Option<B.Binding> {
    if snapshots == [] then None
    else
      var last := snapshots[|snapshots| - 1];
      if last.dataset == dataset then Some(last) else BindingFor(snapshots[..|snapshots| - 1], dataset)
  }

  /** The binding of a dataset is the last one that names it. */
  lemma {:induction false} BindingIsLast(snapshots: seq<B.Binding>, dataset: string)
    ensures match BindingFor(snapshots, dataset)
            case None => forall b :: b in snapshots ==> b.dataset != dataset
            case Some(b) => (exists i :: LastAt(snapshots, dataset, i) && snapshots[i] == b)
  {
    if snapshots != [] {
      var last, front := snapshots[|snapshots| - 1], snapshots[..|snapshots| - 1];
      BindingIsLast(front, dataset);
      if last.dataset == dataset {
        assert LastAt(snapshots, dataset, |snapshots| - 1);
      } else if BindingFor(front, dataset).Some? {
        var i :| LastAt(front, dataset, i) && front[i] == BindingFor(front, dataset).value;
        assert LastAt(snapshots, dataset, i) && snapshots[i] == front[i];
      } else {
        assert forall b :: b in snapshots <==> b == last || b in front;
      }
    }
  }

  predicate LastAt(snapshots: seq<B.Binding>, dataset: string, i: int) {
    && 0 <= i < |snapshots| && snapshots[i].dataset == dataset
    && forall j :: i < j < |snapshots| ==> snapshots[j].dataset != dataset
  }

  /** What a relation is bound to; without a binding it has no identity, and is refused. */
  function BoundTo(snapshots: seq<B.Binding>, relation: Relation): Binding {
    match BindingFor(snapshots, relation.dataset)
    case Some(b) => Binding(b.dataset, b.snapshot, b.fingerprint)
    case None => Binding("", "", "")
  }

  lemma UnboundIsRefused(snapshots: seq<B.Binding>, relation: Relation)
    requires BindingFor(snapshots, relation.dataset).None?
    ensures CacheKey(relation, BoundTo(snapshots, relation)).None?
  {
  }

  /** A relation gets the dataset, snapshot and fingerprint of the last binding that names its dataset. */
  lemma BoundMeans(snapshots: seq<B.Binding>, relation: Relation, i: int)
    requires LastAt(snapshots, relation.dataset, i)
    ensures var b := BoundTo(snapshots, relation);
      b.dataset == relation.dataset && b.snapshot == snapshots[i].snapshot && b.fingerprint == snapshots[i].fingerprint
  {
    assert snapshots[i] in snapshots;
    BindingIsLast(snapshots, relation.dataset);
    var k :| LastAt(snapshots, relation.dataset, k) && snapshots[k] == BindingFor(snapshots, relation.dataset).value;
    assert k == i;
  }

  function AllBound(snapshots: seq<B.Binding>, relations: seq<Relation>): (r: seq<Binding>)
    ensures |r| == |relations|
  {
    seq(|relations|, i requires 0 <= i < |relations| => BoundTo(snapshots, relations[i]))
  }

  /** The outcome of a program on a batch and bound snapshots, for a cache with these verifications. */
  ghost predicate Outcome(
    cache: StaticSnapshotCache, verified: set<Verification>, program: Program, stream: seq<Cells>,
    snapshots: seq<B.Binding>, r: BatchResult)
  {
    BatchEnds(cache, verified, program.On(stream), program.relations, AllBound(snapshots, program.relations),
              program.multiplier, r)
  }

  /** Relations are consistent with their caches, whatever snapshots they are bound to. */
  ghost predicate AllConsistent(
    cache: StaticSnapshotCache, program: Program, snapshots: seq<B.Binding>, hinted: set<string>)
  {
    forall i :: 0 <= i < |program.relations| ==>
      cache.Consistent(program.relations[i], BoundTo(snapshots, program.relations[i]), hinted)
  }

  /** Executes a batch on the snapshots its manifest binds. */
  method ExecuteBound(
    cache: StaticSnapshotCache, engine: Engine, program: Program, stream: seq<Cells>, snapshots: seq<B.Binding>,
    ghost hinted: set<string>)
    returns (r: BatchResult)
    requires cache.Valid() && cache.Sound(hinted)
    requires WellPlanned(program.On(stream), program.relations) && AllConsistent(cache, program, snapshots, hinted)
    modifies cache
    ensures cache.Valid() && cache.Sound(hinted)
    ensures Outcome(cache, old(cache.verified), program, stream, snapshots, r)
  {
    r := ExecuteBatch(cache, engine, program.On(stream), program.relations, AllBound(snapshots, program.relations),
                      program.multiplier, hinted);
  }

  /** Both caches read the same storage. */
  ghost predicate SameStorage(c: StaticSnapshotCache, d: StaticSnapshotCache) {
    c.read == d.read && c.tableOf == d.tableOf
  }

  lemma SameWholeFrames(
    c: StaticSnapshotCache, d: StaticSnapshotCache, relations: seq<Relation>, bindings: seq<Binding>)
    requires SameStorage(c, d) && |relations| == |bindings|
    ensures WholeFrames(c, relations, bindings) == WholeFrames(d, relations, bindings)
  {
    hide InTurn, CacheKey;
    forall i | 0 <= i < |relations|
      ensures BoundSnapshot(c, relations[i], bindings[i]) == BoundSnapshot(d, relations[i], bindings[i])
    {
    }
    assert seq(|relations|, i requires 0 <= i < |relations| => BoundSnapshot(c, relations[i], bindings[i]))
        == seq(|relations|, i requires 0 <= i < |relations| => BoundSnapshot(d, relations[i], bindings[i]));
  }

  /** On the same snapshots, two executions that are not refused end alike. */
  lemma OutcomesAgree(
    c: StaticSnapshotCache, d: StaticSnapshotCache, seen: set<Verification>, others: set<Verification>,
    program: Program, stream: seq<Cells>, snapshots: seq<B.Binding>, r: BatchResult, q: BatchResult)
    requires SameStorage(c, d)
    requires Outcome(c, seen, program, stream, snapshots, r) && Outcome(d, others, program, stream, snapshots, q)
    ensures !r.Refused? && !q.Refused? ==> r == q
  {
    SameWholeFrames(c, d, program.relations, AllBound(snapshots, program.relations));
  }

  /** With relations cached whole, caches with sound verifications refuse the same batches. */
  lemma RefusalsAgree(
    c: StaticSnapshotCache, d: StaticSnapshotCache, seen: set<Verification>, others: set<Verification>,
    program: Program, stream: seq<Cells>, snapshots: seq<B.Binding>, hinted: set<string>,
    r: BatchResult, q: BatchResult)
    requires SameStorage(c, d) && AllHinted(program.relations)
    requires c.SoundSet(seen, hinted) && d.SoundSet(others, hinted)
    requires AllConsistent(c, program, snapshots, hinted) && AllConsistent(d, program, snapshots, hinted)
    requires Outcome(c, seen, program, stream, snapshots, r) && Outcome(d, others, program, stream, snapshots, q)
    ensures r.Refused? <==> q.Refused?
  {
    hide AllAcceptable, Output, WholeFrames, c.Consistent, d.Consistent, c.SoundSet, d.SoundSet;
    var relations, bindings := program.relations, AllBound(snapshots, program.relations);
    WholeBatchAcceptable(c, seen, relations, bindings, program.On(stream), hinted);
    WholeBatchAcceptable(d, others, relations, bindings, program.On(stream), hinted);
    SameUnique(c, d, relations, bindings, program.joins);
  }

  lemma SameUnique(
    c: StaticSnapshotCache, d: StaticSnapshotCache, relations: seq<Relation>, bindings: seq<Binding>, joins: seq<Join>)
    requires SameStorage(c, d) && |relations| == |bindings|
    ensures AllBoundToUnique(c, relations, bindings, |relations|, joins)
       <==> AllBoundToUnique(d, relations, bindings, |relations|, joins)
  {
    hide UniqueOn, UniqueKeys, CacheKey, NormalizeIdentifier;
    assert forall key :: c.Snapshot(key) == d.Snapshot(key) && c.Fetched(key) == d.Fetched(key);
    assert forall i :: 0 <= i < |relations| ==>
      (BoundToUnique(c, relations[i], bindings[i], joins) <==> BoundToUnique(d, relations[i], bindings[i], joins));
  }

  // ----- Over every run of the binding protocol -----

  type Digest = Program -> string

  ghost predicate Injective(digest: Digest) {
    forall p, q :: digest(p) == digest(q) ==> p == q
  }

  predicate ReturnedFor(s: B.State, v: nat, path: B.Path) {
    v in s.workers && s.workers[v].phase.Returned? && s.workers[v].call.Target() == path
  }

  /** The worker executed the program of its plan on the snapshots its call returned. */
  ghost predicate Executed(
    s: B.State, v: nat, digest: Digest, cache: StaticSnapshotCache, verified: set<Verification>, program: Program,
    stream: seq<Cells>, r: BatchResult)
    requires v in s.workers && s.workers[v].phase.Returned?
  {
    && digest(program) == s.workers[v].call.plan.planHash
    && Outcome(cache, verified, program, stream, s.workers[v].phase.snapshots, r)
  }

  /**
   Two workers whose calls for the same output, generation and batch both returned execute the same program on the
   same snapshots; whatever happened to their caches before, if neither is refused they end alike, with the same
   rows or both with too many.
   */
  lemma RetriesJoinAlike(
    hash: B.Hash, digest: Digest, start: B.State, actions: seq<B.Action>, path: B.Path, v: nat, w: nat,
    c: StaticSnapshotCache, d: StaticSnapshotCache, seen: set<Verification>, others: set<Verification>,
    p: Program, q: Program, stream: seq<Cells>, r: BatchResult, t: BatchResult)
    requires B.Fresh(start) && Injective(digest) && SameStorage(c, d)
    requires var s := B.Run(hash, start, actions); ReturnedFor(s, v, path) && ReturnedFor(s, w, path)
    requires var s := B.Run(hash, start, actions);
      Executed(s, v, digest, c, seen, p, stream, r) && Executed(s, w, digest, d, others, q, stream, t)
    ensures p == q
    ensures !r.Refused? && !t.Refused? ==> r == t
  {
    hide Outcome, B.Run;
    var s := B.Run(hash, start, actions);
    B.Agreement(hash, start, actions, v, w);
    OutcomesAgree(c, d, seen, others, p, stream, s.workers[v].phase.snapshots, r, t);
  }

  /** With relations cached whole they end alike in any case. */
  lemma WholeRetriesEndAlike(
    hash: B.Hash, digest: Digest, start: B.State, actions: seq<B.Action>, path: B.Path, v: nat, w: nat,
    c: StaticSnapshotCache, d: StaticSnapshotCache, seen: set<Verification>, others: set<Verification>,
    p: Program, q: Program, stream: seq<Cells>, hinted: set<string>, r: BatchResult, t: BatchResult)
    requires B.Fresh(start) && Injective(digest) && SameStorage(c, d) && AllHinted(p.relations)
    requires c.SoundSet(seen, hinted) && d.SoundSet(others, hinted)
    requires var s := B.Run(hash, start, actions); ReturnedFor(s, v, path) && ReturnedFor(s, w, path)
    requires var s := B.Run(hash, start, actions);
      && Executed(s, v, digest, c, seen, p, stream, r) && Executed(s, w, digest, d, others, q, stream, t)
      && AllConsistent(c, p, s.workers[v].phase.snapshots, hinted)
      && AllConsistent(d, q, s.workers[w].phase.snapshots, hinted)
    ensures r == t
  {
    hide Outcome, B.Run, AllConsistent, c.SoundSet, d.SoundSet;
    var s := B.Run(hash, start, actions);
    RetriesJoinAlike(hash, digest, start, actions, path, v, w, c, d, seen, others, p, q, stream, r, t);
    B.Agreement(hash, start, actions, v, w);
    RefusalsAgree(c, d, seen, others, p, stream, s.workers[v].phase.snapshots, hinted, r, t);
  }
}
