/** What component construction (see Construct) leaves in the target repository: which components, as
    the policies and the outcome of their steps have it. */
module ConstructTarget {
  import opened Graphs
  import opened Construct
  import opened ConstructDigests
  import opened ConstructOutcome
  import Process
  import ProcessOutcome

  /** How v stands in the target once its descriptor is final: an external version has been added unless
      such are skipped, a constructed one has been added unless it was kept, and what was added is the
      descriptor itself. */
  ghost predicate Placed<K, R, G, C>(p: Params<K, R, G, C>, s: State<K, R, G, C>, v: K, desc: Descriptor<K, G, C>) {
    && (p.external(v) ==> (v in s.target <==> !p.skipExternal))
    && (!p.external(v) ==> v in s.target || p.keeps)
    && (v in s.target ==> s.target[v] == desc)
  }

  ghost predicate WorkPlaced<K, R, G, C>(p: Params<K, R, G, C>, s: State<K, R, G, C>, v: K)
    requires v in s.work
  {
    match s.work[v]
    case Loading(_, _) => !p.external(v) && v !in s.target
    case Checking(_) => !p.external(v) && v !in s.target
    case Referencing(_, _) => !p.external(v) && v !in s.target
    case Copying => p.external(v) && v !in s.target
    case Publishing(_) => (p.external(v) ==> !p.skipExternal) && v !in s.target
    case Storing(desc) => Placed(p, s, v, desc)
    case Over(None) => v in s.store && Placed(p, s, v, s.store[v])
    case Over(Some(_)) => p.external(v) && p.skipExternal ==> v !in s.target
  }

  ghost predicate TargetPlaced<K(!new), R, G, C>(p: Params<K, R, G, C>, s: State<K, R, G, C>) {
    && (forall v {:trigger s.work[v]} :: v in s.work ==> WorkPlaced(p, s, v))
    && forall v {:trigger v in s.target} :: v in s.target ==> v in s.work
  }

  /** Only v moves. */
  ghost predicate MovesOnly<K(!new), R, G, C>(s: State<K, R, G, C>, t: State<K, R, G, C>, v: K) {
    && v in t.work && t.work == s.work[v := t.work[v]]
    && (t.target == s.target || (v in t.target && t.target == s.target[v := t.target[v]]))
    && (t.store == s.store || (v in t.store && t.store == s.store[v := t.store[v]]))
  }

  lemma PlacedMoves<K(!new), R, G, C>(p: Params<K, R, G, C>, s: State<K, R, G, C>, t: State<K, R, G, C>, v: K)
    requires TargetPlaced(p, s) && MovesOnly(s, t, v) && WorkPlaced(p, t, v)
    ensures TargetPlaced(p, t)
  {
    forall u {:trigger t.work[u]} | u in t.work ensures WorkPlaced(p, t, u) {
      if u != v { assert s.work[u] == t.work[u] && WorkPlaced(p, s, u); }
    }
  }

  lemma PlacedAt<K(!new), R, G, C>(p: Params<K, R, G, C>, s: State<K, R, G, C>, v: K)
    requires TargetPlaced(p, s) && v in s.work
    ensures WorkPlaced(p, s, v)
  {
  }

  /** The worker an action is about. */
  function Subject<K, G, C>(a: Action<K, G, C>): Option<K> {
    if a.Drive? || a.Return? then None else Some(a.v)
  }

  lemma WorkerMovesOnly<K(!new), R, G, C>(p: Params<K, R, G, C>, s: State<K, R, G, C>, a: Action<K, G, C>, v: K)
    requires PhaseInv(p, s) && StoreInv(p, s) && Enabled(p, s, a) && Subject(a) == Some(v)
    ensures v in s.work && MovesOnly(s, Next(p, s, a), v)
  {
    hide AllThere, DistinctHashes, PhaseInv, StoreInv;
    if a.Store? { StoreSucceeds(p, s, v); }
  }

  lemma PlacedStep<K(!new), R, G, C>(p: Params<K, R, G, C>, s: State<K, R, G, C>, a: Action<K, G, C>)
    requires PhaseInv(p, s) && StoreInv(p, s) && TargetPlaced(p, s) && Enabled(p, s, a)
    requires a == Drive(Process.Spawn) ==> ProcessOutcome.StartsWaiting(s.proc)
    ensures TargetPlaced(p, Next(p, s, a))
  {
    hide PhaseInv, StoreInv, TargetPlaced, MovesOnly, WorkPlaced, Process.Enabled, Process.Next, DistinctHashes, AllThere;
    var t := Next(p, s, a);
    if a == Drive(Process.Spawn) {
      SpawnPlaced(p, s);
    } else if Subject(a).None? {
      PlacedSame(p, s, t);
    } else {
      var v := Subject(a).value;
      WorkerMovesOnly(p, s, a, v);
      PlacedAt(p, s, v);
      if a.Store? { StoreSucceeds(p, s, v); }
      OwnPlaced(p, s, a, v);
      PlacedMoves(p, s, t, v);
    }
  }

  lemma PlacedSame<K(!new), R, G, C>(p: Params<K, R, G, C>, s: State<K, R, G, C>, t: State<K, R, G, C>)
    requires TargetPlaced(p, s) && t == s.(proc := t.proc)
    ensures TargetPlaced(p, t)
  {
    forall v {:trigger t.work[v]} | v in t.work ensures WorkPlaced(p, t, v) {
      assert WorkPlaced(p, s, v);
    }
  }

  lemma SpawnPlaced<K(!new), R, G, C>(p: Params<K, R, G, C>, s: State<K, R, G, C>)
    requires PhaseInv(p, s) && TargetPlaced(p, s) && Enabled(p, s, Drive(Process.Spawn)) && ProcessOutcome.StartsWaiting(s.proc)
    ensures TargetPlaced(p, Next(p, s, Drive(Process.Spawn)))
  {
    hide Process.Next, WorkPlaced;
    EnabledSpawn(ProcessParams(p), s.proc);
    var v, t := s.proc.ready[s.proc.pc.i], Next(p, s, Drive(Process.Spawn));
    assert v !in s.work && v !in s.target;
    FreshPlaced(p, t, v);
    PlacedMoves(p, s, t, v);
  }

  lemma FreshPlaced<K(!new), R, G, C>(p: Params<K, R, G, C>, t: State<K, R, G, C>, v: K)
    requires v in t.work && t.work[v] == (if p.external(v) then Copying else Loading(0, map[])) && v !in t.target
    ensures WorkPlaced(p, t, v)
  {
  }

  lemma OwnPlaced<K(!new), R, G, C>(p: Params<K, R, G, C>, s: State<K, R, G, C>, a: Action<K, G, C>, v: K)
    requires Enabled(p, s, a) && Subject(a) == Some(v) && v in s.work && v in Next(p, s, a).work && WorkPlaced(p, s, v)
    requires a.Store? ==> s.work[v].desc.id == v && v in p.adj && v !in s.store
    ensures WorkPlaced(p, Next(p, s, a), v)
  {
    hide DistinctHashes, AllThere;
  }

  // ---- every run ----

  lemma PlacedInit<K(!new), R, G, C>(p: Params<K, R, G, C>, s: State<K, R, G, C>)
    requires Init(p, s)
    ensures TargetPlaced(p, s)
  {
    hide Process.Init;
  }

  lemma InvParts<K(!new), R, G, C>(p: Params<K, R, G, C>, s: State<K, R, G, C>)
    requires Inv(p, s)
    ensures PhaseInv(p, s) && StoreInv(p, s)
  {
  }

  lemma {:induction false} RunPlaced<K(!new), R(!new), G(!new), C(!new)>(p: Params<K, R, G, C>, run: seq<State<K, R, G, C>>, actions: seq<Action<K, G, C>>, i: nat)
    requires Discovered(p) && IsRun(p, run, actions) && i < |run|
    ensures TargetPlaced(p, run[i])
  {
    hide Inv, Coherent, Init, Enabled, Next, Discovered, TargetPlaced, Process.Inv, ProcessOutcome.Ordered, ProcessOutcome.StartsWaiting, Process.Enabled;
    if i == 0 {
      PlacedInit(p, run[0]);
    } else {
      RunPlaced(p, run, actions, i - 1);
      RunInv(p, run, actions, i - 1);
      assert run[i] == Next(p, run[i - 1], actions[i - 1]);
      ProcFacts(ProcessParams(p), run[i - 1].proc);
      SpawnEnabled(p, run[i - 1], actions[i - 1]);
      InvParts(p, run[i - 1]);
      PlacedStep(p, run[i - 1], actions[i - 1]);
    }
  }

  /** In every state of every run: of the components that have their descriptor the external ones are in
      the target exactly if such are not skipped, and the constructed ones unless they were kept; what is
      in the target is that descriptor; and skipped external ones never get there. When processing has
      ended with nil this holds of every vertex. */
  lemma TargetWhole<K(!new), R(!new), G(!new), C(!new)>(p: Params<K, R, G, C>, run: seq<State<K, R, G, C>>, actions: seq<Action<K, G, C>>, i: nat)
    requires Discovered(p) && IsRun(p, run, actions) && i < |run|
    ensures forall v {:trigger v in run[i].store} :: v in run[i].store && p.external(v) ==> (v in run[i].target <==> !p.skipExternal)
    ensures forall v {:trigger v in run[i].store} :: v in run[i].store && !p.external(v) ==> v in run[i].target || p.keeps
    ensures forall v {:trigger run[i].store[v]} :: v in run[i].store && v in run[i].target ==> run[i].target[v] == run[i].store[v]
    ensures p.skipExternal ==> forall v {:trigger v in run[i].target} :: v in run[i].target ==> !p.external(v)
    ensures run[i].proc.pc.Returned? && run[i].proc.pc.result.Nil? ==> run[i].store.Keys == p.adj.Keys
  {
    hide Inv, Init, Enabled, Next, Discovered, Coherent, Process.Inv, GoodLog, PhaseInv, StoreInv, WorkPlaced, IsRun;
    RunInv(p, run, actions, i);
    RunPlaced(p, run, actions, i);
    ConstructionSafety(p, run, actions, i);
    InvParts(p, run[i]);
    var s := run[i];
    forall v {:trigger v in s.store} | v in s.store ensures Placed(p, s, v, s.store[v]) { StoredPlaced(p, s, v); }
    forall v {:trigger v in s.target} | v in s.target && p.skipExternal ensures !p.external(v) { SkippedOut(p, s, v); }
  }

  lemma StoredPlaced<K(!new), R, G, C>(p: Params<K, R, G, C>, s: State<K, R, G, C>, v: K)
    requires StoreInv(p, s) && TargetPlaced(p, s) && v in s.store
    ensures Placed(p, s, v, s.store[v])
  {
    hide Placed;
    assert v in s.work && s.work[v] == Over(None);
    PlacedAt(p, s, v);
  }

  lemma SkippedOut<K(!new), R, G, C>(p: Params<K, R, G, C>, s: State<K, R, G, C>, v: K)
    requires TargetPlaced(p, s) && v in s.target && p.skipExternal
    ensures !p.external(v)
  {
    PlacedAt(p, s, v);
  }

  // ---- what a verdict, and a failing step, lead to ----

  /** v has failed, or cannot but fail: a reference could not be recorded. */
  ghost predicate Doomed<K(!new), R, G, C>(p: Params<K, R, G, C>, s: State<K, R, G, C>, v: K) {
    v in s.work && v !in s.store &&
    match s.work[v]
    case Over(failure) => failure.Some?
    case Referencing(_, parts) => v !in s.target && exists j: nat :: j < |p.refs(v)| && j in parts && parts[j] == None
    case _ => false
  }

  /** The steps that fail: the policy refuses a version in the target, a reference cannot be recorded or
      does not meet its pin, the rest of the component or the validation fails, the blobs of an external
      version that is to be copied are not, or it cannot be added, or the hook fails. */
  ghost predicate Fails<K(!new), R, G, C>(p: Params<K, R, G, C>, s: State<K, R, G, C>, a: Action<K, G, C>)
    requires Enabled(p, s, a)
  {
    match a
    case Check(_, verdict) => verdict.Abort?
    case Refer(v, j, ok) => !ok || (p.refs(v)[j].pinned.Some? && !p.matches(s.work[v].loaded[p.refs(v)[j].key], p.refs(v)[j].pinned.value))
    case Assemble(v, ok, _) => !ok || !DistinctHashes(p.refs(v))
    case Copy(_, ok, _) => !p.skipExternal && !ok
    case Publish(_, ok) => !ok
    case Hook(_) => true
    case _ => false
  }

  lemma FailsDooms<K(!new), R, G, C>(p: Params<K, R, G, C>, s: State<K, R, G, C>, a: Action<K, G, C>)
    requires PhaseInv(p, s) && StoreInv(p, s) && TargetPlaced(p, s) && Enabled(p, s, a) && Fails(p, s, a)
    ensures !a.Drive? && Doomed(p, Next(p, s, a), a.v)
    ensures Next(p, s, a).target == s.target && Next(p, s, a).store == s.store
  {
    hide PhaseInv, StoreInv, TargetPlaced, AllThere, DistinctHashes, Placed;
    PlacedAt(p, s, a.v);
    NotStoredYet(p, s, a.v);
    if a.Refer? { assert a.j in Next(p, s, a).work[a.v].parts; }
  }

  lemma NotStoredYet<K(!new), R, G, C>(p: Params<K, R, G, C>, s: State<K, R, G, C>, v: K)
    requires StoreInv(p, s) && v in s.work && s.work[v] != Over(None)
    ensures v !in s.store
  {
  }

  /** It stays so, whatever else happens: the component is never added after that, nor stored. */
  lemma DoomedStep<K(!new), R, G, C>(p: Params<K, R, G, C>, s: State<K, R, G, C>, a: Action<K, G, C>, v: K)
    requires PhaseInv(p, s) && StoreInv(p, s) && Doomed(p, s, v) && Enabled(p, s, a)
    requires a == Drive(Process.Spawn) ==> ProcessOutcome.StartsWaiting(s.proc)
    ensures Doomed(p, Next(p, s, a), v)
    ensures v in Next(p, s, a).target <==> v in s.target
  {
    hide PhaseInv, StoreInv, DistinctHashes, AllThere, Process.Enabled, Process.Next, Doomed;
    DoomedAtWork(p, s, v);
    if a == Drive(Process.Spawn) {
      EnabledSpawn(ProcessParams(p), s.proc);
      NotSpawned(p, s, v);
      DoomedSame(p, s, Next(p, s, a), v);
    } else if Subject(a).None? {
      DoomedSame(p, s, Next(p, s, a), v);
    } else {
      WorkerMovesOnly(p, s, a, a.v);
      if a.Store? { StoreSucceeds(p, s, a.v); }
      if a.v == v { OwnDoomed(p, s, a, v); } else { DoomedSame(p, s, Next(p, s, a), v); }
    }
  }

  lemma DoomedAtWork<K(!new), R, G, C>(p: Params<K, R, G, C>, s: State<K, R, G, C>, v: K)
    requires Doomed(p, s, v)
    ensures v in s.work && v !in s.store
  {
  }

  lemma DoomedSame<K(!new), R, G, C>(p: Params<K, R, G, C>, s: State<K, R, G, C>, t: State<K, R, G, C>, v: K)
    requires Doomed(p, s, v) && v in t.work && t.work[v] == s.work[v] && (v in t.store <==> v in s.store) && (v in t.target <==> v in s.target)
    ensures Doomed(p, t, v)
  {
  }

  lemma OwnDoomed<K(!new), R, G, C>(p: Params<K, R, G, C>, s: State<K, R, G, C>, a: Action<K, G, C>, v: K)
    requires Doomed(p, s, v) && Enabled(p, s, a) && Subject(a) == Some(v)
    ensures Doomed(p, Next(p, s, a), v) && (v in Next(p, s, a).target <==> v in s.target)
  {
    hide Doomed;
    DoomedPart(p, s, v);
    match a
    case Refer(_, _, _) => ReferDoomed(p, s, a, v);
    case Assemble(_, _, _) => AssembleDoomed(p, s, a, v);
    case _ =>
  }

  lemma DoomedPart<K(!new), R, G, C>(p: Params<K, R, G, C>, s: State<K, R, G, C>, v: K)
    requires Doomed(p, s, v)
    ensures v in s.work && (s.work[v].Over? || s.work[v].Referencing?)
  {
  }

  lemma ReferDoomed<K(!new), R, G, C>(p: Params<K, R, G, C>, s: State<K, R, G, C>, a: Action<K, G, C>, v: K)
    requires Doomed(p, s, v) && Enabled(p, s, a) && a.Refer? && a.v == v
    ensures Doomed(p, Next(p, s, a), v) && Next(p, s, a).target == s.target
  {
    var j: nat :| j < |p.refs(v)| && j in s.work[v].parts && s.work[v].parts[j] == None;
    assert j in Next(p, s, a).work[v].parts;
  }

  lemma AssembleDoomed<K(!new), R, G, C>(p: Params<K, R, G, C>, s: State<K, R, G, C>, a: Action<K, G, C>, v: K)
    requires Doomed(p, s, v) && Enabled(p, s, a) && a.Assemble? && a.v == v
    ensures Doomed(p, Next(p, s, a), v) && Next(p, s, a).target == s.target
  {
    hide DistinctHashes;
    var j: nat :| j < |p.refs(v)| && j in s.work[v].parts && s.work[v].parts[j] == None;
    assert !AllThere(s.work[v].parts, |p.refs(v)|);
  }

  lemma NotSpawned<K(!new), R, G, C>(p: Params<K, R, G, C>, s: State<K, R, G, C>, v: K)
    requires PhaseInv(p, s) && ProcessOutcome.StartsWaiting(s.proc) && v in s.work
    ensures s.proc.ready[s.proc.pc.i] != v
  {
    assert s.work[v] == s.work[v];
  }

  /** Once a step of v has failed, v is never stored, and is in the target only if it was already; so
      processing does not end with nil. */
  lemma {:induction false} FailedForGood<K(!new), R(!new), G(!new), C(!new)>(p: Params<K, R, G, C>, run: seq<State<K, R, G, C>>, actions: seq<Action<K, G, C>>, i: nat, j: nat)
    requires Discovered(p) && IsRun(p, run, actions) && i < |actions| && i < j < |run| && Enabled(p, run[i], actions[i]) && Fails(p, run[i], actions[i])
    ensures !actions[i].Drive? && Doomed(p, run[j], actions[i].v) && actions[i].v !in run[j].store
    ensures actions[i].v in run[j].target <==> actions[i].v in run[i].target
    ensures run[j].proc.pc.Returned? ==> !run[j].proc.pc.result.Nil?
  {
    hide Inv, Coherent, Init, Enabled, Next, Discovered, TargetPlaced, Fails, Process.Inv, ProcessOutcome.Ordered, ProcessOutcome.StartsWaiting, Process.Enabled, Doomed;
    if j == i + 1 {
      RunInv(p, run, actions, i);
      RunPlaced(p, run, actions, i);
      InvParts(p, run[i]);
      FailsDooms(p, run[i], actions[i]);
      assert run[j] == Next(p, run[i], actions[i]);
    } else {
      FailedForGood(p, run, actions, i, j - 1);
      RunInv(p, run, actions, j - 1);
      assert run[j] == Next(p, run[j - 1], actions[j - 1]);
      ProcFacts(ProcessParams(p), run[j - 1].proc);
      SpawnEnabled(p, run[j - 1], actions[j - 1]);
      InvParts(p, run[j - 1]);
      DoomedStep(p, run[j - 1], actions[j - 1], actions[i].v);
    }
    RunInv(p, run, actions, j);
    DoomedVertex(p, run[j], actions[i].v);
    TargetWhole(p, run, actions, j);
  }

  lemma DoomedVertex<K(!new), R, G, C>(p: Params<K, R, G, C>, s: State<K, R, G, C>, v: K)
    requires Inv(p, s) && Doomed(p, s, v)
    ensures v in p.adj && v !in s.store
  {
    hide StoreInv, LogInv, FailInv;
    assert s.work[v] == s.work[v];
    assert v in s.proc.phase.Keys;
  }

  /** v has been kept as it is in the target: it is not added, and its descriptor is the one found. */
  ghost predicate Kept<K(!new), R, G, C>(s: State<K, R, G, C>, v: K, existing: Descriptor<K, G, C>) {
    v in s.work && v !in s.target &&
    match s.work[v]
    case Storing(desc) => desc == existing && v !in s.store
    case Over(failure) => failure.None? ==> v in s.store && s.store[v] == existing
    case _ => false
  }

  lemma KeptStep<K(!new), R, G, C>(p: Params<K, R, G, C>, s: State<K, R, G, C>, a: Action<K, G, C>, v: K, existing: Descriptor<K, G, C>)
    requires PhaseInv(p, s) && StoreInv(p, s) && Kept(s, v, existing) && Enabled(p, s, a)
    requires a == Drive(Process.Spawn) ==> ProcessOutcome.StartsWaiting(s.proc)
    ensures Kept(Next(p, s, a), v, existing)
  {
    hide PhaseInv, StoreInv, DistinctHashes, AllThere, Process.Enabled, Process.Next;
    if a == Drive(Process.Spawn) {
      EnabledSpawn(ProcessParams(p), s.proc);
      NotSpawned(p, s, v);
    } else if Subject(a).Some? {
      WorkerMovesOnly(p, s, a, a.v);
      if a.Store? { StoreSucceeds(p, s, a.v); }
    }
  }

  lemma {:induction false} KeptForGood<K(!new), R(!new), G(!new), C(!new)>(p: Params<K, R, G, C>, run: seq<State<K, R, G, C>>, actions: seq<Action<K, G, C>>, i: nat, j: nat,
      v: K, existing: Descriptor<K, G, C>)
    requires Discovered(p) && IsRun(p, run, actions) && i < |actions| && i < j < |run| && actions[i] == Check(v, Keep(existing))
    ensures Kept(run[j], v, existing) && p.keeps
  {
    hide Inv, Coherent, Init, Next, Discovered, TargetPlaced, Process.Inv, ProcessOutcome.Ordered, ProcessOutcome.StartsWaiting, Process.Enabled, Kept;
    RunInv(p, run, actions, j - 1);
    InvParts(p, run[j - 1]);
    assert run[j] == Next(p, run[j - 1], actions[j - 1]) && Enabled(p, run[i], actions[i]);
    if j == i + 1 {
      RunPlaced(p, run, actions, i);
      KeepsIt(p, run[i], v, existing);
    } else {
      KeptForGood(p, run, actions, i, j - 1, v, existing);
      ProcFacts(ProcessParams(p), run[j - 1].proc);
      SpawnEnabled(p, run[j - 1], actions[j - 1]);
      KeptStep(p, run[j - 1], actions[j - 1], v, existing);
    }
  }

  lemma KeepsIt<K(!new), R, G, C>(p: Params<K, R, G, C>, s: State<K, R, G, C>, v: K, existing: Descriptor<K, G, C>)
    requires StoreInv(p, s) && TargetPlaced(p, s) && Enabled(p, s, Check(v, Keep(existing)))
    ensures Kept(Next(p, s, Check(v, Keep(existing))), v, existing) && p.keeps
  {
    hide StoreInv, TargetPlaced;
    PlacedAt(p, s, v);
    NotStoredYet(p, s, v);
  }
}
