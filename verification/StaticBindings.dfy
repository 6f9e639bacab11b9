/**
 The per-batch binding manifest. Any number of workers call `prepare` concurrently, retry and crash while
 table heads advance and snapshots expire; the manifest at a path is written once, and every successful call
 for that path returns what it holds.
 */
module StaticBindings {
  import opened Wrappers

  datatype Relation = Streaming | Static(dataset: string, table: Option<string>, view: string, fingerprint: string)

  datatype Plan = Plan(
    planHash: string,
    fencingToken: string,
    generation: int,
    policy: string,
    pinned: map<string, string>,
    relations: seq<Relation>)

  datatype Binding = Binding(dataset: string, view: string, fingerprint: string, snapshot: string)

  datatype Manifest = Manifest(
    batch: int,
    fencingHash: string,
    planHash: string,
    generation: int,
    policy: string,
    snapshots: seq<Binding>)

  /** Where a manifest lives: the output, the run generation and the batch. */
  datatype Path = Path(output: string, generation: int, batch: int)

  /** A directory without its completion marker, left by its writer, or a complete manifest. */
  datatype Entry = Torn(writer: nat) | Durable(manifest: Manifest)

  datatype Call = Call(plan: Plan, output: string, batch: int)
  {
    function Target(): Path {
      Path(output, plan.generation, batch)
    }
  }

  /** How far a call has come; a call ends in `Returned` or `Raised`. */
  datatype Phase =
    | Reading
    | Collecting(done: nat, bindings: seq<Binding>)
    | Writing(manifest: Manifest)
    | Rereading
    | Returned(snapshots: seq<Binding>)
    | Raised

  datatype Worker = Worker(call: Call, phase: Phase)

  datatype State = State(
    store: map<Path, Entry>,
    heads: map<string, string>,
    snapshots: map<string, set<string>>,
    workers: map<nat, Worker>)

  datatype Action =
    | Start(worker: nat, call: Call)
    | Step(worker: nat)
    | WriteFails(worker: nat)
    | Crash(worker: nat)
    | Advance(table: string, snapshot: string)
    | Expire(table: string, snapshot: string)

  type Hash = string -> string

  predicate Identifies(hash: Hash, m: Manifest, call: Call) {
    && m.batch == call.batch
    && m.generation == call.plan.generation
    && m.planHash == call.plan.planHash
    && m.fencingHash == hash(call.plan.fencingToken)
    && m.policy == call.plan.policy
  }

  function ManifestOf(hash: Hash, call: Call, bindings: seq<Binding>): Manifest {
    Manifest(call.batch, hash(call.plan.fencingToken), call.plan.planHash, call.plan.generation,
             call.plan.policy, bindings)
  }

  predicate IsDurable(s: State, p: Path) {
    p in s.store && s.store[p].Durable?
  }

  /** The manifest read back, checked against the caller's identity. */
  function Validated(hash: Hash, s: State, call: Call): Phase
    requires IsDurable(s, call.Target())
  {
    var m := s.store[call.Target()].manifest;
    if Identifies(hash, m, call) then Returned(m.snapshots) else Raised
  }

  /** The snapshot one relation is bound to at this moment, if there is one and it still exists. */
  function BindOne(s: State, plan: Plan, r: Relation): Option<Binding>
    requires r.Static?
  {
    if r.dataset == "" || r.table.None? then None
    else
      var id := if plan.policy == "PINNED_AT_START"
                then if r.dataset in plan.pinned then plan.pinned[r.dataset] else ""
                else if r.table.value in s.heads then s.heads[r.table.value] else "";
      if id == "" || r.table.value !in s.snapshots || id !in s.snapshots[r.table.value] then None
      else Some(Binding(r.dataset, r.view, r.fingerprint, id))
  }

  function CollectNext(hash: Hash, s: State, call: Call, done: nat, bindings: seq<Binding>): Phase {
    if done >= |call.plan.relations| then
      if call.Target() in s.store then (if IsDurable(s, call.Target()) then Rereading else Raised)
      else Writing(ManifestOf(hash, call, bindings))
    else
      var r := call.plan.relations[done];
      if r.Streaming? then Collecting(done + 1, bindings)
      else
        var bound := BindOne(s, call.plan, r);
        if bound.None? then Raised else Collecting(done + 1, bindings + [bound.value])
  }

  /** One step of a call; a call that has ended does nothing more. */
  function StepWorker(hash: Hash, s: State, w: nat): State
    requires w in s.workers
  {
    var call, p := s.workers[w].call, s.workers[w].call.Target();
    match s.workers[w].phase
    case Reading =>
      WithPhase(s, w, if IsDurable(s, p) then Validated(hash, s, call) else Collecting(0, []))
    case Collecting(done, bindings) =>
      var phase := CollectNext(hash, s, call, done, bindings);
      var next := WithPhase(s, w, phase);
      if phase.Writing? then next.(store := s.store[p := Torn(w)]) else next
    case Writing(manifest) =>
      WithPhase(s, w, Rereading).(store := s.store[p := Durable(manifest)])
    case Rereading =>
      WithPhase(s, w, if IsDurable(s, p) then Validated(hash, s, call) else Raised)
    case _ => s
  }

  function WithPhase(s: State, w: nat, phase: Phase): State
    requires w in s.workers
  {
    s.(workers := s.workers[w := Worker(s.workers[w].call, phase)])
  }

  function Next(hash: Hash, s: State, a: Action): State {
    match a
    case Start(w, call) => if w in s.workers then s else s.(workers := s.workers[w := Worker(call, Reading)])
    case Step(w) => if w in s.workers then StepWorker(hash, s, w) else s
    case WriteFails(w) => if w in s.workers && s.workers[w].phase.Writing? then WithPhase(s, w, Raised) else s
    case Crash(w) =>
      if w in s.workers && !s.workers[w].phase.Returned? && !s.workers[w].phase.Raised?
      then WithPhase(s, w, Raised) else s
    case Advance(table, snapshot) =>
      var known := if table in s.snapshots then s.snapshots[table] else {};
      s.(heads := s.heads[table := snapshot], snapshots := s.snapshots[table := known + {snapshot}])
    case Expire(table, snapshot) =>
      if table in s.snapshots then s.(snapshots := s.snapshots[table := s.snapshots[table] - {snapshot}]) else s
  }

  function Run(hash: Hash, s: State, actions: seq<Action>): State
    decreases |actions|
  {
    if actions == [] then s else Run(hash, Next(hash, s, actions[0]), actions[1..])
  }

  // ----- What every step keeps -----

  /** A worker that writes owns the torn directory; a worker that returned holds what is durable. */
  predicate WorkerHolds(hash: Hash, s: State, w: nat)
    requires w in s.workers
  {
    var call, phase := s.workers[w].call, s.workers[w].phase;
    && (phase.Writing? ==> call.Target() in s.store && s.store[call.Target()] == Torn(w))
    && (phase.Returned? ==>
          && IsDurable(s, call.Target())
          && s.store[call.Target()].manifest.snapshots == phase.snapshots
          && Identifies(hash, s.store[call.Target()].manifest, call))
  }

  ghost predicate Invariant(hash: Hash, s: State) {
    forall w :: w in s.workers ==> WorkerHolds(hash, s, w)
  }

  predicate Fresh(s: State) {
    s.workers == map[]
  }

  /** A durable manifest is never touched again, and a call that has ended stays as it ended. */
  ghost predicate Extends(s: State, later: State) {
    && (forall p :: IsDurable(s, p) ==> IsDurable(later, p) && later.store[p] == s.store[p])
    && (forall w :: w in s.workers ==> w in later.workers && later.workers[w].call == s.workers[w].call)
    && (forall w :: w in s.workers && (s.workers[w].phase.Returned? || s.workers[w].phase.Raised?)
          ==> later.workers[w] == s.workers[w])
  }

  lemma PhaseKeeps(hash: Hash, s: State, w: nat, phase: Phase)
    requires Invariant(hash, s) && w in s.workers && !s.workers[w].phase.Returned? && !s.workers[w].phase.Raised?
    requires WorkerHolds(hash, WithPhase(s, w, phase), w)
    ensures Invariant(hash, WithPhase(s, w, phase)) && Extends(s, WithPhase(s, w, phase))
  {
    var next := WithPhase(s, w, phase);
    forall v | v in next.workers
      ensures WorkerHolds(hash, next, v)
    {
      assert v != w ==> WorkerHolds(hash, s, v);
    }
  }

  /** Taking an untouched path, or completing one's own directory, disturbs nobody else. */
  lemma WriteKeeps(hash: Hash, s: State, w: nat, entry: Entry, phase: Phase)
    requires Invariant(hash, s) && w in s.workers && !s.workers[w].phase.Returned? && !s.workers[w].phase.Raised?
    requires var p := s.workers[w].call.Target(); p !in s.store || s.store[p] == Torn(w)
    requires phase.Rereading? || (phase.Writing? && entry == Torn(w))
    ensures var next := WithPhase(s, w, phase).(store := s.store[s.workers[w].call.Target() := entry]);
      Invariant(hash, next) && Extends(s, next)
  {
    var next := WithPhase(s, w, phase).(store := s.store[s.workers[w].call.Target() := entry]);
    forall v | v in next.workers
      ensures WorkerHolds(hash, next, v)
    {
      assert v != w ==> WorkerHolds(hash, s, v);
    }
  }

  lemma StepWorkerKeeps(hash: Hash, s: State, w: nat)
    requires Invariant(hash, s) && w in s.workers
    ensures Invariant(hash, StepWorker(hash, s, w)) && Extends(s, StepWorker(hash, s, w))
  {
    assert WorkerHolds(hash, s, w);
    match s.workers[w].phase {
      case Collecting(done, bindings) =>
        var phase := CollectNext(hash, s, s.workers[w].call, done, bindings);
        if phase.Writing? {
          WriteKeeps(hash, s, w, Torn(w), phase);
        } else {
          PhaseKeeps(hash, s, w, phase);
        }
      case Writing(manifest) => WriteKeeps(hash, s, w, Durable(manifest), Rereading);
      case Reading => PhaseKeeps(hash, s, w, StepWorker(hash, s, w).workers[w].phase);
      case Rereading => PhaseKeeps(hash, s, w, StepWorker(hash, s, w).workers[w].phase);
      case _ =>
    }
  }

  lemma StepKeeps(hash: Hash, s: State, a: Action)
    requires Invariant(hash, s)
    ensures Invariant(hash, Next(hash, s, a)) && Extends(s, Next(hash, s, a))
  {
    match a {
      case Step(w) =>
        if w in s.workers {
          StepWorkerKeeps(hash, s, w);
        }
      case WriteFails(w) =>
        if w in s.workers && s.workers[w].phase.Writing? {
          PhaseKeeps(hash, s, w, Raised);
        }
      case Crash(w) =>
        if w in s.workers && !s.workers[w].phase.Returned? && !s.workers[w].phase.Raised? {
          PhaseKeeps(hash, s, w, Raised);
        }
      case _ => OthersKeep(hash, s, a);
    }
  }

  lemma OthersKeep(hash: Hash, s: State, a: Action)
    requires Invariant(hash, s) && (a.Start? || a.Advance? || a.Expire?)
    ensures Invariant(hash, Next(hash, s, a)) && Extends(s, Next(hash, s, a))
  {
    var next := Next(hash, s, a);
    forall v | v in next.workers
      ensures WorkerHolds(hash, next, v)
    {
      assert v in s.workers ==> WorkerHolds(hash, s, v);
    }
  }

  lemma {:induction false} RunKeeps(hash: Hash, s: State, actions: seq<Action>)
    requires Invariant(hash, s)
    ensures Invariant(hash, Run(hash, s, actions)) && Extends(s, Run(hash, s, actions))
    decreases |actions|
  {
    if actions != [] {
      var next := Next(hash, s, actions[0]);
      StepKeeps(hash, s, actions[0]);
      RunKeeps(hash, next, actions[1..]);
      var last := Run(hash, next, actions[1..]);
      assert forall p :: IsDurable(s, p) ==> IsDurable(last, p) && last.store[p] == s.store[p];
    }
  }

  /** Calls share a manifest exactly if they are for the same output, generation and batch. */
  lemma TargetMeans(c: Call, d: Call)
    ensures c.Target() == d.Target() <==>
            c.output == d.output && c.plan.generation == d.plan.generation && c.batch == d.batch
  {
  }

  // ----- Agreement -----

  /**
   However workers interleave, retry and crash, and whatever the tables do meanwhile: two calls for the same
   output, generation and batch that both return, return the same snapshots, and both hold the fencing token
   and plan hash of the one manifest.
   */
  lemma Agreement(hash: Hash, start: State, actions: seq<Action>, v: nat, w: nat)
    requires Fresh(start)
    requires var s := Run(hash, start, actions);
      && v in s.workers && w in s.workers
      && s.workers[v].phase.Returned? && s.workers[w].phase.Returned?
      && s.workers[v].call.Target() == s.workers[w].call.Target()
    ensures var s := Run(hash, start, actions);
      var a, b := s.workers[v].call.plan, s.workers[w].call.plan;
      && s.workers[v].phase == s.workers[w].phase
      && a.planHash == b.planHash && a.policy == b.policy
      && hash(a.fencingToken) == hash(b.fencingToken)
  {
    RunKeeps(hash, start, actions);
  }

  /** What one call returned early in a run, any later call for that path returns too, or it raises. */
  lemma RetryAgrees(hash: Hash, start: State, first: seq<Action>, more: seq<Action>, v: nat, w: nat)
    requires Fresh(start)
    requires var s := Run(hash, start, first); v in s.workers && s.workers[v].phase.Returned?
    requires var s := Run(hash, start, first + more);
      && w in s.workers && s.workers[w].phase.Returned?
      && s.workers[w].call.Target() == Run(hash, start, first).workers[v].call.Target()
    ensures Run(hash, start, first + more).workers[w].phase == Run(hash, start, first).workers[v].phase
  {
    RunAppend(hash, start, first, more);
    RunKeeps(hash, start, first);
    RunKeeps(hash, Run(hash, start, first), more);
  }

  lemma {:induction false} RunAppend(hash: Hash, s: State, a: seq<Action>, b: seq<Action>)
    ensures Run(hash, s, a + b) == Run(hash, Run(hash, s, a), b)
    decreases |a|
  {
    if a == [] {
      assert a + b == b;
    } else {
      assert (a + b)[1..] == a[1..] + b;
      RunAppend(hash, Next(hash, s, a[0]), a[1..], b);
    }
  }

  /** A worker of another plan or token never returns from a path whose manifest is durable. */
  lemma StrangerNeverReturns(hash: Hash, s: State, actions: seq<Action>, w: nat)
    requires Invariant(hash, s) && w in s.workers
    requires IsDurable(s, s.workers[w].call.Target())
    requires var call, m := s.workers[w].call, s.store[s.workers[w].call.Target()].manifest;
      || m.batch != call.batch || m.generation != call.plan.generation || m.planHash != call.plan.planHash
      || m.fencingHash != hash(call.plan.fencingToken) || m.policy != call.plan.policy
    ensures w in Run(hash, s, actions).workers && !Run(hash, s, actions).workers[w].phase.Returned?
    ensures s.workers[w].phase.Reading? || s.workers[w].phase.Rereading?
      ==> Next(hash, s, Step(w)).workers[w].phase == Raised
  {
    RunKeeps(hash, s, actions);
  }

  /**
   A writer that died between creating the directory and completing it closes the path for good: the torn
   directory stays, and no call for that path ever returns.
   */
  lemma {:induction false} TornPathStaysClosed(hash: Hash, s: State, actions: seq<Action>, p: Path, w: nat)
    requires Invariant(hash, s) && p in s.store && s.store[p] == Torn(w)
    requires w in s.workers && s.workers[w].phase.Raised?
    ensures var last := Run(hash, s, actions);
      && p in last.store && last.store[p] == Torn(w)
      && forall v :: v in last.workers && last.workers[v].call.Target() == p ==> !last.workers[v].phase.Returned?
    decreases |actions|
  {
    forall v | v in s.workers && s.workers[v].call.Target() == p
      ensures !s.workers[v].phase.Returned?
    {
      assert WorkerHolds(hash, s, v);
    }
    if actions != [] {
      var next := Next(hash, s, actions[0]);
      StepKeeps(hash, s, actions[0]);
      if actions[0].Step? && actions[0].worker in s.workers {
        assert WorkerHolds(hash, s, actions[0].worker);
      }
      TornPathStaysClosed(hash, next, actions[1..], p, w);
    }
  }

  // ----- A call left alone -----

  /** The bindings of all static relations from `done` on, if each can be bound. */
  function BindAll(s: State, plan: Plan, done: nat): Option<seq<Binding>>
    decreases |plan.relations| - done
  {
    if done >= |plan.relations| then Some([])
    else
      var rest := BindAll(s, plan, done + 1);
      if plan.relations[done].Streaming? then rest
      else
        var bound := BindOne(s, plan, plan.relations[done]);
        if bound.None? || rest.None? then None else Some([bound.value] + rest.value)
  }

  lemma {:induction false} SameBindAll(s: State, t: State, plan: Plan, done: nat)
    requires s.heads == t.heads && s.snapshots == t.snapshots
    ensures BindAll(s, plan, done) == BindAll(t, plan, done)
    decreases |plan.relations| - done
  {
    if done < |plan.relations| {
      SameBindAll(s, t, plan, done + 1);
    }
  }

  function PhaseOf(s: State, w: nat): Option<Phase> {
    if w in s.workers then Some(s.workers[w].phase) else None
  }

  function Steps(w: nat, n: nat): seq<Action> {
    if n == 0 then [] else [Step(w)] + Steps(w, n - 1)
  }

  lemma RunSteps(hash: Hash, s: State, w: nat, n: nat)
    requires n > 0
    ensures Run(hash, s, Steps(w, n)) == Run(hash, Next(hash, s, Step(w)), Steps(w, n - 1))
  {
    assert Steps(w, n)[1..] == Steps(w, n - 1);
  }

  predicate Ended(s: State, w: nat) {
    w in s.workers && (s.workers[w].phase.Returned? || s.workers[w].phase.Raised?)
  }

  lemma {:induction false} EndedStays(hash: Hash, s: State, w: nat, n: nat)
    requires Ended(s, w)
    ensures Run(hash, s, Steps(w, n)) == s
  {
    if n > 0 {
      RunSteps(hash, s, w, n);
      EndedStays(hash, s, w, n - 1);
    }
  }

  /** Writing, completing and reading back. */
  lemma PublishingAlone(hash: Hash, s: State, w: nat, call: Call, bindings: seq<Binding>, n: nat)
    requires w in s.workers && s.workers[w] == Worker(call, Collecting(|call.plan.relations|, bindings))
    requires call.Target() !in s.store && n >= 3
    ensures PhaseOf(Run(hash, s, Steps(w, n)), w) == Some(Returned(bindings))
  {
    var one := Next(hash, s, Step(w));
    var two := Next(hash, one, Step(w));
    assert one.workers[w].phase == Writing(ManifestOf(hash, call, bindings));
    assert two.store[call.Target()] == Durable(ManifestOf(hash, call, bindings));
    RunSteps(hash, s, w, n);
    RunSteps(hash, one, w, n - 1);
    RunSteps(hash, two, w, n - 2);
    EndedStays(hash, Next(hash, two, Step(w)), w, n - 3);
  }

  /** How a call ends that has bound `collected` and meets nobody, with `rest` the bindings still to come. */
  function CollectedOutcome(s: State, call: Call, collected: seq<Binding>, rest: Option<seq<Binding>>): Phase {
    if call.Target() in s.store || rest.None? then Raised else Returned(collected + rest.value)
  }

  predicate CollectsAt(s: State, w: nat, call: Call, done: nat, collected: seq<Binding>) {
    && w in s.workers && s.workers[w] == Worker(call, Collecting(done, collected))
    && done <= |call.plan.relations| && !IsDurable(s, call.Target())
  }

  /** One relation: the call raises as it must, or goes on to the same end. */
  lemma CollectOne(hash: Hash, s: State, w: nat, call: Call, done: nat, collected: seq<Binding>)
    returns (next: seq<Binding>)
    requires CollectsAt(s, w, call, done, collected) && done < |call.plan.relations|
    ensures var one, outcome := Next(hash, s, Step(w)), CollectedOutcome(s, call, collected, BindAll(s, call.plan, done));
      || (Ended(one, w) && PhaseOf(one, w) == Some(outcome))
      || (CollectsAt(one, w, call, done + 1, next)
          && outcome == CollectedOutcome(one, call, next, BindAll(one, call.plan, done + 1)))
  {
    var one, r := Next(hash, s, Step(w)), call.plan.relations[done];
    SameBindAll(s, one, call.plan, done + 1);
    next := collected;
    if r.Static? && BindOne(s, call.plan, r).Some? {
      var rest, bound := BindAll(one, call.plan, done + 1), BindOne(s, call.plan, r).value;
      next := collected + [bound];
      assert rest.Some? ==> next + rest.value == collected + ([bound] + rest.value);
    }
  }

  lemma {:induction false} CollectingAlone(
    hash: Hash, s: State, w: nat, call: Call, done: nat, collected: seq<Binding>, n: nat)
    requires CollectsAt(s, w, call, done, collected) && n >= |call.plan.relations| - done + 3
    ensures PhaseOf(Run(hash, s, Steps(w, n)), w)
         == Some(CollectedOutcome(s, call, collected, BindAll(s, call.plan, done)))
    decreases |call.plan.relations| - done
  {
    if done < |call.plan.relations| {
      hide Next, BindAll, CollectedOutcome;
      RunSteps(hash, s, w, n);
      var next := CollectOne(hash, s, w, call, done, collected);
      if Ended(Next(hash, s, Step(w)), w) {
        EndedStays(hash, Next(hash, s, Step(w)), w, n - 1);
      } else {
        CollectingAlone(hash, Next(hash, s, Step(w)), w, call, done + 1, next, n - 1);
      }
    } else if call.Target() in s.store {
      RunSteps(hash, s, w, n);
      EndedStays(hash, Next(hash, s, Step(w)), w, n - 1);
    } else {
      assert collected + [] == collected;
      PublishingAlone(hash, s, w, call, collected, n);
    }
  }

  /** How a call ends that meets nobody: by the path as it finds it, and else by what it can bind. */
  function AloneOutcome(hash: Hash, s: State, call: Call): Phase {
    if IsDurable(s, call.Target()) then Validated(hash, s, call)
    else CollectedOutcome(s, call, [], BindAll(s, call.plan, 0))
  }

  function Alone(w: nat, call: Call, n: nat): seq<Action> {
    [Start(w, call)] + Steps(w, n)
  }

  lemma EndsAlone(hash: Hash, s: State, w: nat, call: Call, n: nat)
    requires w !in s.workers && n >= |call.plan.relations| + 4
    ensures PhaseOf(Run(hash, s, Alone(w, call, n)), w) == Some(AloneOutcome(hash, s, call))
  {
    var started := Next(hash, s, Start(w, call));
    var next := Next(hash, started, Step(w));
    assert Alone(w, call, n)[1..] == Steps(w, n);
    RunSteps(hash, started, w, n);
    if IsDurable(s, call.Target()) {
      EndedStays(hash, next, w, n - 1);
    } else {
      SameBindAll(s, next, call.plan, 0);
      CollectingAlone(hash, next, w, call, 0, [], n - 1);
    }
  }

  // ----- Which snapshot a relation is bound to -----

  /** The static relations of a plan, in order. */
  function Statics(relations: seq<Relation>): seq<Relation> {
    if relations == [] then []
    else (if relations[0].Static? then [relations[0]] else []) + Statics(relations[1..])
  }

  /** The binding names the relation, and under a pinned policy carries the snapshot the plan pinned. */
  predicate Fits(plan: Plan, r: Relation, b: Binding) {
    && r.Static? && r.dataset != "" && b.dataset == r.dataset && b.view == r.view && b.fingerprint == r.fingerprint
    && b.snapshot != ""
    && (plan.policy == "PINNED_AT_START" ==> r.dataset in plan.pinned && b.snapshot == plan.pinned[r.dataset])
  }

  /** The binding a relation gets here and now: pinned, or else the head of its table; the snapshot still exists. */
  predicate Binds(s: State, plan: Plan, r: Relation, b: Binding) {
    && Fits(plan, r, b) && r.table.Some? && r.table.value in s.snapshots && b.snapshot in s.snapshots[r.table.value]
    && (plan.policy != "PINNED_AT_START" ==> r.table.value in s.heads && b.snapshot == s.heads[r.table.value])
  }

  /** One binding for each static relation, in order. */
  predicate AllFit(plan: Plan, relations: seq<Relation>, bindings: seq<Binding>) {
    |bindings| == |Statics(relations)| && forall i :: 0 <= i < |bindings| ==> Fits(plan, Statics(relations)[i], bindings[i])
  }

  predicate AllBind(s: State, plan: Plan, relations: seq<Relation>, bindings: seq<Binding>) {
    |bindings| == |Statics(relations)|
    && forall i :: 0 <= i < |bindings| ==> Binds(s, plan, Statics(relations)[i], bindings[i])
  }

  lemma BindOneMeans(s: State, plan: Plan, r: Relation, b: Binding)
    requires r.Static?
    ensures BindOne(s, plan, r) == Some(b) <==> Binds(s, plan, r, b)
  {
  }

  lemma BindsFits(s: State, plan: Plan, r: Relation, b: Binding)
    requires Binds(s, plan, r, b)
    ensures r.Static? && Fits(plan, r, b)
  {
  }

  lemma {:induction false} BindAllMeans(s: State, plan: Plan, done: nat, bindings: seq<Binding>)
    requires done <= |plan.relations|
    ensures BindAll(s, plan, done) == Some(bindings) <==> AllBind(s, plan, plan.relations[done..], bindings)
    decreases |plan.relations| - done
  {
    hide Binds, BindOne;
    if done < |plan.relations| {
      var r, rest := plan.relations[done], plan.relations[done + 1..];
      assert plan.relations[done..][0] == r && plan.relations[done..][1..] == rest;
      if r.Streaming? {
        BindAllMeans(s, plan, done + 1, bindings);
      } else if bindings != [] {
        BindAllMeans(s, plan, done + 1, bindings[1..]);
        BindOneMeans(s, plan, r, bindings[0]);
        assert Statics(plan.relations[done..]) == [r] + Statics(rest);
        assert bindings == [bindings[0]] + bindings[1..];
        FirstBinds(s, plan, r, Statics(rest), bindings);
      }
    }
  }

  lemma FirstBinds(s: State, plan: Plan, r: Relation, rest: seq<Relation>, bindings: seq<Binding>)
    requires bindings != []
    ensures var all := [r] + rest;
      (|bindings| == |all| && forall i :: 0 <= i < |bindings| ==> Binds(s, plan, all[i], bindings[i]))
      <==> Binds(s, plan, r, bindings[0]) && |bindings[1..]| == |rest|
           && forall i :: 0 <= i < |bindings[1..]| ==> Binds(s, plan, rest[i], bindings[1..][i])
  {
    hide Binds;
    var all := [r] + rest;
    if |bindings| == |all| && forall i :: 0 <= i < |bindings| ==> Binds(s, plan, all[i], bindings[i]) {
      forall i | 0 <= i < |bindings[1..]|
        ensures Binds(s, plan, rest[i], bindings[1..][i])
      {
        assert Binds(s, plan, all[i + 1], bindings[i + 1]);
      }
    }
  }

  /**
   An undisturbed call for an untouched path returns exactly if every static relation can be bound, and then one
   binding for each, in order: pinned, or the head of its table, with the snapshot still there.
   */
  lemma AloneBinds(hash: Hash, s: State, w: nat, call: Call, n: nat, bindings: seq<Binding>)
    requires w !in s.workers && n >= |call.plan.relations| + 4 && call.Target() !in s.store
    ensures PhaseOf(Run(hash, s, Alone(w, call, n)), w) == Some(Returned(bindings))
       <==> AllBind(s, call.plan, call.plan.relations, bindings)
  {
    hide Run, AllBind, BindAll;
    EndsAlone(hash, s, w, call, n);
    BindAllMeans(s, call.plan, 0, bindings);
    assert call.plan.relations[0..] == call.plan.relations;
    var bound := BindAll(s, call.plan, 0);
    assert bound.Some? ==> [] + bound.value == bound.value;
  }

  /**
   An undisturbed call has ended after as many steps as it has relations, and four. It has returned exactly if the
   path holds a manifest that identifies it, whose bindings it then returns, or is untouched while every static
   relation can be bound, one binding for each, in order.
   */
  lemma AloneReturnsIff(hash: Hash, s: State, w: nat, call: Call, n: nat)
    requires w !in s.workers && n >= |call.plan.relations| + 4
    ensures var last, p, plan := Run(hash, s, Alone(w, call, n)), call.Target(), call.plan;
      && Ended(last, w)
      && (last.workers[w].phase.Returned?
          <==> || (IsDurable(s, p)
                   && var m := s.store[p].manifest;
                   && m.batch == call.batch && m.generation == plan.generation && m.planHash == plan.planHash
                   && m.fencingHash == hash(plan.fencingToken) && m.policy == plan.policy)
               || (p !in s.store && exists bindings :: AllBind(s, plan, plan.relations, bindings)))
      && (last.workers[w].phase.Returned? ==>
            if IsDurable(s, p) then last.workers[w].phase.snapshots == s.store[p].manifest.snapshots
            else AllBind(s, plan, plan.relations, last.workers[w].phase.snapshots))
  {
    hide Run, AllBind, BindAll;
    EndsAlone(hash, s, w, call, n);
    var last := Run(hash, s, Alone(w, call, n));
    if call.Target() !in s.store {
      if last.workers[w].phase.Returned? {
        AloneBinds(hash, s, w, call, n, last.workers[w].phase.snapshots);
      }
      if bindings :| AllBind(s, call.plan, call.plan.relations, bindings) {
        AloneBinds(hash, s, w, call, n, bindings);
      }
    }
  }

  predicate OnlyAdvances(actions: seq<Action>) {
    forall a :: a in actions ==> a.Advance?
  }

  /** Nobody moves, nothing is written, and no snapshot goes. */
  predicate Advanced(s: State, t: State) {
    t.store == s.store && t.workers == s.workers
    && forall table :: table in s.snapshots ==> table in t.snapshots && s.snapshots[table] <= t.snapshots[table]
  }

  lemma {:induction false} AdvancesKeep(hash: Hash, s: State, moves: seq<Action>)
    requires OnlyAdvances(moves)
    ensures Advanced(s, Run(hash, s, moves))
    decreases |moves|
  {
    if moves != [] {
      assert moves[0] in moves;
      var next := Next(hash, s, moves[0]);
      AdvancesKeep(hash, next, moves[1..]);
      forall table | table in s.snapshots
        ensures s.snapshots[table] <= next.snapshots[table]
      {
      }
    }
  }

  lemma StillBinds(s: State, t: State, plan: Plan, bindings: seq<Binding>)
    requires Advanced(s, t) && plan.policy == "PINNED_AT_START" && AllBind(s, plan, plan.relations, bindings)
    ensures AllBind(t, plan, plan.relations, bindings)
  {
    forall i | 0 <= i < |bindings|
      ensures Binds(t, plan, Statics(plan.relations)[i], bindings[i])
    {
      assert Binds(s, plan, Statics(plan.relations)[i], bindings[i]);
    }
  }

  /** However far the tables advance before it, a pinned call returns the bindings it would have returned. */
  lemma PinnedIgnoresHeads(
    hash: Hash, s: State, moves: seq<Action>, w: nat, call: Call, n: nat, bindings: seq<Binding>)
    requires w !in s.workers && n >= |call.plan.relations| + 4 && call.Target() !in s.store
    requires OnlyAdvances(moves) && call.plan.policy == "PINNED_AT_START"
    requires PhaseOf(Run(hash, s, Alone(w, call, n)), w) == Some(Returned(bindings))
    ensures PhaseOf(Run(hash, Run(hash, s, moves), Alone(w, call, n)), w) == Some(Returned(bindings))
  {
    hide Run, AllBind;
    AdvancesKeep(hash, s, moves);
    AloneBinds(hash, s, w, call, n, bindings);
    StillBinds(s, Run(hash, s, moves), call.plan, bindings);
    AloneBinds(hash, Run(hash, s, moves), w, call, n, bindings);
  }

  // ----- Over every run, what is written fits the plan of its writer -----

  /** What a worker has bound so far, and what it writes, fits its plan. */
  predicate WorkerFits(hash: Hash, worker: Worker) {
    var call, plan := worker.call, worker.call.plan;
    match worker.phase
    case Collecting(done, bindings) => done <= |plan.relations| && AllFit(plan, plan.relations[..done], bindings)
    case Writing(m) => Written(hash, call, m)
    case _ => true
  }

  /** The manifest is one the call may write: its own batch, generation, plan, token and policy, and bindings that fit. */
  predicate Written(hash: Hash, call: Call, m: Manifest) {
    && m.batch == call.batch && m.generation == call.plan.generation && m.planHash == call.plan.planHash
    && m.fencingHash == hash(call.plan.fencingToken) && m.policy == call.plan.policy
    && AllFit(call.plan, call.plan.relations, m.snapshots)
  }

  /** Some call for the path wrote it. */
  ghost predicate WrittenBySome(hash: Hash, s: State, p: Path)
    requires IsDurable(s, p)
  {
    exists w :: w in s.workers && s.workers[w].call.Target() == p
      && Written(hash, s.workers[w].call, s.store[p].manifest)
  }

  ghost predicate FittingInvariant(hash: Hash, start: State, s: State) {
    && (forall w :: w in s.workers ==> WorkerFits(hash, s.workers[w]))
    && (forall p :: IsDurable(s, p) ==>
          (IsDurable(start, p) && s.store[p] == start.store[p]) || WrittenBySome(hash, s, p))
  }

  lemma {:induction false} StaticsAppend(relations: seq<Relation>, r: Relation)
    ensures Statics(relations + [r]) == Statics(relations) + (if r.Static? then [r] else [])
  {
    if relations == [] {
      assert relations + [r] == [r] && [r][1..] == [];
    } else {
      assert (relations + [r])[1..] == relations[1..] + [r] && (relations + [r])[0] == relations[0];
      StaticsAppend(relations[1..], r);
      hide Statics;
      StaticsFirst(relations + [r]);
      StaticsFirst(relations);
    }
  }

  lemma StaticsFirst(relations: seq<Relation>)
    requires relations != []
    ensures Statics(relations) == (if relations[0].Static? then [relations[0]] else []) + Statics(relations[1..])
  {
  }

  lemma CollectFits(hash: Hash, s: State, call: Call, done: nat, bindings: seq<Binding>)
    requires WorkerFits(hash, Worker(call, Collecting(done, bindings)))
    ensures WorkerFits(hash, Worker(call, CollectNext(hash, s, call, done, bindings)))
  {
    hide Binds, Fits;
    var plan := call.plan;
    if done < |plan.relations| {
      var r := plan.relations[done];
      assert plan.relations[..done + 1] == plan.relations[..done] + [r];
      StaticsAppend(plan.relations[..done], r);
      if r.Static? && BindOne(s, plan, r).Some? {
        BindOneMeans(s, plan, r, BindOne(s, plan, r).value);
        BindsFits(s, plan, r, BindOne(s, plan, r).value);
      }
    } else {
      assert plan.relations[..done] == plan.relations;
    }
  }

  lemma StepFits(hash: Hash, start: State, s: State, a: Action)
    requires Invariant(hash, s) && FittingInvariant(hash, start, s)
    ensures FittingInvariant(hash, start, Next(hash, s, a))
  {
    hide WorkerFits, Written, BindOne, AllFit;
    var next := Next(hash, s, a);
    StepKeeps(hash, s, a);
    forall w | w in next.workers
      ensures WorkerFits(hash, next.workers[w])
    {
      WorkerStepFits(hash, s, a, w);
    }
    forall p | IsDurable(next, p)
      ensures (IsDurable(start, p) && next.store[p] == start.store[p]) || WrittenBySome(hash, next, p)
    {
      if IsDurable(s, p) && next.store[p] == s.store[p] {
        if WrittenBySome(hash, s, p) {
          var w :| w in s.workers && s.workers[w].call.Target() == p
            && Written(hash, s.workers[w].call, s.store[p].manifest);
          assert w in next.workers && next.workers[w].call == s.workers[w].call;
        }
      } else {
        NewlyDurable(hash, s, a, p);
      }
    }
  }

  lemma OthersFit(hash: Hash, s: State, a: Action, w: nat)
    requires w in s.workers ==> WorkerFits(hash, s.workers[w])
    requires w in Next(hash, s, a).workers && !(a == Step(w) && w in s.workers)
    ensures WorkerFits(hash, Next(hash, s, a).workers[w])
  {
    hide AllFit, Written, CollectNext, Validated;
  }

  lemma OwnStepFits(hash: Hash, s: State, w: nat)
    requires w in s.workers && WorkerFits(hash, s.workers[w])
    ensures WorkerFits(hash, StepWorker(hash, s, w).workers[w])
  {
    match s.workers[w].phase {
      case Reading => assert Statics([]) == [];
      case Collecting(done, bindings) =>
        hide WorkerFits, CollectNext;
        CollectFits(hash, s, s.workers[w].call, done, bindings);
      case _ =>
    }
  }

  lemma WorkerStepFits(hash: Hash, s: State, a: Action, w: nat)
    requires forall v :: v in s.workers ==> WorkerFits(hash, s.workers[v])
    requires w in Next(hash, s, a).workers
    ensures WorkerFits(hash, Next(hash, s, a).workers[w])
  {
    hide WorkerFits, StepWorker;
    if a == Step(w) && w in s.workers {
      OwnStepFits(hash, s, w);
    } else {
      OthersFit(hash, s, a, w);
    }
  }

  /** Only completing a manifest makes a path durable. */
  lemma NewlyDurable(hash: Hash, s: State, a: Action, p: Path)
    requires forall v :: v in s.workers ==> WorkerFits(hash, s.workers[v])
    requires IsDurable(Next(hash, s, a), p) && !(IsDurable(s, p) && Next(hash, s, a).store[p] == s.store[p])
    ensures WrittenBySome(hash, Next(hash, s, a), p)
  {
    hide AllFit;
    var next := Next(hash, s, a);
    assert a.Step? && a.worker in s.workers;
    var w := a.worker;
    assert s.workers[w].phase.Writing? && s.workers[w].call.Target() == p;
    assert WorkerFits(hash, s.workers[w]);
    assert next.workers[w].call == s.workers[w].call;
  }

  lemma {:induction false} RunFits(hash: Hash, start: State, s: State, actions: seq<Action>)
    requires Invariant(hash, s) && FittingInvariant(hash, start, s)
    ensures FittingInvariant(hash, start, Run(hash, s, actions))
    decreases |actions|
  {
    hide FittingInvariant, Invariant;
    if actions != [] {
      StepKeeps(hash, s, actions[0]);
      StepFits(hash, start, s, actions[0]);
      RunFits(hash, start, Next(hash, s, actions[0]), actions[1..]);
    }
  }

  /**
   Over every run, whatever the tables do: what a call returns for a path that was free at the start fits the plan
   of a call for that path with the same plan hash, token hash and policy: one binding for each of its static
   relations, in order, and under a pinned policy the snapshots that plan pinned.
   */
  lemma ReturnedFits(hash: Hash, start: State, actions: seq<Action>, w: nat)
    requires Fresh(start)
    requires var s := Run(hash, start, actions);
      w in s.workers && s.workers[w].phase.Returned? && !IsDurable(start, s.workers[w].call.Target())
    ensures var s := Run(hash, start, actions);
      var call := s.workers[w].call;
      exists v :: v in s.workers && s.workers[v].call.Target() == call.Target()
        && var plan := s.workers[v].call.plan;
        && plan.planHash == call.plan.planHash && plan.policy == call.plan.policy
        && hash(plan.fencingToken) == hash(call.plan.fencingToken)
        && AllFit(plan, plan.relations, s.workers[w].phase.snapshots)
  {
    hide AllFit;
    RunKeeps(hash, start, actions);
    RunFits(hash, start, start, actions);
    var s := Run(hash, start, actions);
    assert WorkerHolds(hash, s, w);
    assert WrittenBySome(hash, s, s.workers[w].call.Target());
  }

  // ----- Batch identity -----

  datatype SourceRange = SourceRange(topic: string, partition: int, start: int, end: int)

  datatype Identity = Identity(
    batch: int,
    checkpoint: string,
    consumerGroup: string,
    job: string,
    sourceRanges: seq<SourceRange>,
    topic: string,
    fencingHash: string,
    planHash: string,
    generation: int,
    snapshots: seq<Binding>)

  datatype Job = Job(checkpoint: string, consumerGroup: string, job: string, topic: string)

  function RightStripSlashes(s: string): string {
    if s != [] && s[|s| - 1] == '/' then RightStripSlashes(s[..|s| - 1]) else s
  }

  function IdentityOf(hash: Hash, job: Job, call: Call, ranges: seq<SourceRange>, snapshots: seq<Binding>): Identity {
    Identity(call.batch, RightStripSlashes(job.checkpoint), job.consumerGroup, job.job, ranges, job.topic,
             hash(call.plan.fencingToken), call.plan.planHash, call.plan.generation, snapshots)
  }

  type Digest = Identity -> string

  /** Prefix length the run id takes from the boundary id. */
  const RUN_ID_DIGITS := 16

  datatype RunId = RunId(job: string, generation: int, batch: int, prefix: string)

  function RunIdOf(digest: Digest, identity: Identity): RunId {
    var boundary := digest(identity);
    RunId(identity.job, identity.generation, identity.batch,
          if |boundary| <= RUN_ID_DIGITS then boundary else boundary[..RUN_ID_DIGITS])
  }

  ghost predicate Injective(digest: Digest) {
    forall a, b :: digest(a) == digest(b) ==> a == b
  }

  /**
   Successful calls for the same path give the same boundary and run ids for the same job and source ranges;
   and, for an injective digest, the same boundary id only for the same source ranges.
   */
  lemma BoundariesAgree(
    hash: Hash, digest: Digest, start: State, actions: seq<Action>, v: nat, w: nat, job: Job,
    ranges: seq<SourceRange>, others: seq<SourceRange>)
    requires Fresh(start) && Injective(digest)
    requires var s := Run(hash, start, actions);
      && v in s.workers && w in s.workers
      && s.workers[v].phase.Returned? && s.workers[w].phase.Returned?
      && s.workers[v].call.Target() == s.workers[w].call.Target()
    ensures var s := Run(hash, start, actions);
      var a := IdentityOf(hash, job, s.workers[v].call, ranges, s.workers[v].phase.snapshots);
      var b := IdentityOf(hash, job, s.workers[w].call, others, s.workers[w].phase.snapshots);
      && (digest(a) == digest(b) <==> ranges == others)
      && (ranges == others ==> RunIdOf(digest, a) == RunIdOf(digest, b))
  {
    Agreement(hash, start, actions, v, w);
  }

  /** For an injective digest, two batches have one boundary id exactly if nothing the boundary names tells them apart. */
  lemma BoundaryIdentifies(
    hash: Hash, digest: Digest, a: Job, b: Job, c: Call, d: Call, ranges: seq<SourceRange>, others: seq<SourceRange>,
    bound: seq<Binding>, bindings: seq<Binding>)
    requires Injective(digest)
    ensures digest(IdentityOf(hash, a, c, ranges, bound)) == digest(IdentityOf(hash, b, d, others, bindings)) <==>
      && c.batch == d.batch && c.plan.generation == d.plan.generation && c.plan.planHash == d.plan.planHash
      && hash(c.plan.fencingToken) == hash(d.plan.fencingToken)
      && RightStripSlashes(a.checkpoint) == RightStripSlashes(b.checkpoint)
      && a.consumerGroup == b.consumerGroup && a.job == b.job && a.topic == b.topic
      && ranges == others && bound == bindings
  {
    hide RightStripSlashes;
  }

  /** Only slashes at the end are stripped, and all of them. */
  lemma {:induction false} SlashesStripped(s: string) returns (slashes: string)
    ensures s == RightStripSlashes(s) + slashes && forall c :: c in slashes ==> c == '/'
    ensures RightStripSlashes(s) != "" ==> RightStripSlashes(s)[|RightStripSlashes(s)| - 1] != '/'
  {
    slashes := "";
    if s != "" && s[|s| - 1] == '/' {
      var more := SlashesStripped(s[..|s| - 1]);
      slashes := more + "/";
      assert s == s[..|s| - 1] + "/";
    }
  }

  /** A run id carries the job, generation and batch, and the first sixteen characters of the boundary id. */
  lemma RunIdMeans(digest: Digest, identity: Identity)
    ensures var id, boundary := RunIdOf(digest, identity), digest(identity);
      && id.job == identity.job && id.generation == identity.generation && id.batch == identity.batch
      && id.prefix <= boundary && |id.prefix| == if |boundary| < 16 then |boundary| else 16
  {
  }
}
