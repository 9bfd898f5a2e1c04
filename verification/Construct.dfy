/** Component construction (bindings/go/constructor: construct.go, processor.go) as a state machine:
    Process runs over the reversal of the discovered graph, and each of its workers goes through the
    steps of ProcessValue. The attributes of the discovered graph that hold the finished descriptors,
    the target repository and the digest cache are shared by all workers. */
module Construct {
  import opened Graphs
  import Process
  import ProcessOutcome
  import GraphState

  /** A reference of a component version: the version it names, what the identity of the reference
      itself prints to, the hash of the identity it has in the finished descriptor, and the digest it
      is pinned to. */
  datatype Reference<K, R, G> = Reference(component: K, key: R, hash: bv64, pinned: Option<G>)

  /** A descriptor, with the digest of each of its references. */
  datatype Descriptor<K, G, C> = Descriptor(id: K, digests: seq<G>, content: C)

  /** The discovered graph, and for each component version its references and whether it was found
      outside of the constructor file. digest computes, matches verifies and canonical respells a
      digest. skipExternal is the copy policy for external component versions; keeps is the policy for
      versions that are in the target already: whether they are kept (Skip), or else replaced or
      refused. */
  datatype Params<!K, !R, !G, !C> = Params(
    adj: map<K, set<K>>,
    refs: K -> seq<Reference<K, R, G>>,
    external: K -> bool,
    skipExternal: bool,
    keeps: bool,
    digest: Descriptor<K, G, C> -> G,
    matches: (Descriptor<K, G, C>, G) -> bool,
    canonical: G -> G)

  datatype Failure = MissingDependency | NoVertex | AlreadyStored | Other

  /** What the policy makes of a version already in the target: go on, keep the existing one, or fail. */
  datatype Verdict<K, G, C> = Proceed | Keep(existing: Descriptor<K, G, C>) | Abort

  /** Where a worker is: loading the descriptors of its references; checking the target for a
      conflict; referencing, all references at once (the outcome of those that are through); copying
      an external version's blobs; adding to the target; calling the hook that ends construction, if
      not external, and storing; over. */
  datatype Work<K, R, G, C> =
    | Loading(j: nat, loaded: map<R, Descriptor<K, G, C>>)
    | Checking(loaded: map<R, Descriptor<K, G, C>>)
    | Referencing(loaded: map<R, Descriptor<K, G, C>>, parts: map<nat, Option<G>>)
    | Copying
    | Publishing(desc: Descriptor<K, G, C>)
    | Storing(desc: Descriptor<K, G, C>)
    | Over(failure: Option<Failure>)

  datatype Event<K> = Stored(k: K) | Added(k: K)

  datatype State<!K, !R, !G, !C> = State(
    proc: Process.State<K>,
    work: map<K, Work<K, R, G, C>>,
    store: map<K, Descriptor<K, G, C>>,   // the descriptor attributes
    target: map<K, Descriptor<K, G, C>>,  // what was added to the target repository
    cache: map<K, G>,
    log: seq<Event<K>>)                   // the writes to store and target, in order

  datatype Action<K, G, C> =
    | Drive(a: Process.Action<K>)
    | Load(v: K) | Check(v: K, verdict: Verdict<K, G, C>)
    | Refer(v: K, j: nat, ok: bool) | Assemble(v: K, ok: bool, content: C)
    | Copy(v: K, ok: bool, copied: Descriptor<K, G, C>) | Hook(v: K)
    | Publish(v: K, ok: bool) | Store(v: K) | Return(v: K)

  /** Process works on the reversal of the discovered graph, without a limit. */
  function ProcessParams<K, R, G, C>(p: Params<K, R, G, C>): Process.Params<K> {
    Process.Params(Converse(p.adj), 0)
  }

  function Targets<K, R, G>(refs: seq<Reference<K, R, G>>): seq<K> {
    seq(|refs|, i requires 0 <= i < |refs| => refs[i].component)
  }

  /** The graph is what discovery leaves behind: acyclic, with exactly the references as edges. */
  ghost predicate Discovered<K(!new), R, G, C>(p: Params<K, R, G, C>) {
    && Sound(p.adj)
    && forall k {:trigger p.adj[k]} :: k in p.adj ==> forall n {:trigger n in p.adj[k]} :: n in p.adj[k] <==> n in Targets(p.refs(k))
  }

  ghost predicate Init<K(!new), R, G, C>(p: Params<K, R, G, C>, s: State<K, R, G, C>) {
    && Process.Init(ProcessParams(p), s.proc)
    && s.work == map[] && s.store == map[] && s.target == map[] && s.cache == map[] && s.log == []
  }

  predicate Doing<K, R, G, C>(s: State<K, R, G, C>, v: K) {
    v in s.work && v in s.proc.phase && s.proc.phase[v] == Process.Working
  }

  /** Existing, copied and constructed descriptors carry the identity asked for. */
  ghost predicate Enabled<K(!new), R, G, C>(p: Params<K, R, G, C>, s: State<K, R, G, C>, a: Action<K, G, C>) {
    match a
    case Drive(a) => !a.Succeed? && !a.Fail? && Process.Enabled(ProcessParams(p), s.proc, a)
    case Load(v) => Doing(s, v) && s.work[v].Loading?
    case Check(v, verdict) => Doing(s, v) && s.work[v].Checking? && (verdict.Keep? ==> p.keeps && verdict.existing.id == v)
    case Refer(v, j, _) => Doing(s, v) && s.work[v].Referencing? && j < |p.refs(v)| && j !in s.work[v].parts && p.refs(v)[j].key in s.work[v].loaded
    case Assemble(v, _, _) => Doing(s, v) && s.work[v].Referencing? && forall j: nat {:trigger j in s.work[v].parts} :: j < |p.refs(v)| ==> j in s.work[v].parts
    case Copy(v, _, copied) => Doing(s, v) && s.work[v].Copying? && copied.id == v
    case Publish(v, _) => Doing(s, v) && s.work[v].Publishing?
    case Hook(v) => Doing(s, v) && s.work[v].Storing? && !p.external(v)
    case Store(v) => Doing(s, v) && s.work[v].Storing?
    case Return(v) => Doing(s, v) && s.work[v].Over?
  }

  /** getComponentDigest under its lock: the cached digest of k, or else that of desc, which is cached. */
  function CachedDigest<K, R, G, C>(p: Params<K, R, G, C>, cache: map<K, G>, k: K, desc: Descriptor<K, G, C>): (G, map<K, G>) {
    if k in cache then (cache[k], cache) else (p.digest(desc), cache[k := p.digest(desc)])
  }

  predicate AllThere<G>(parts: map<nat, Option<G>>, n: nat) {
    forall j {:trigger j in parts} :: 0 <= j < n ==> j in parts && parts[j].Some?
  }

  /** The digests in the order of the references. */
  function Collected<G>(parts: map<nat, Option<G>>, n: nat): seq<G>
    requires AllThere(parts, n)
  {
    seq(n, j requires 0 <= j < n => assert j in parts; parts[j].value)
  }

  /** What the validation of the finished descriptor demands of its references. It compares the hashes
      of their identities, not what they print to. */
  ghost predicate DistinctHashes<K, R, G>(refs: seq<Reference<K, R, G>>) {
    forall i, j :: 0 <= i < j < |refs| ==> refs[i].hash != refs[j].hash
  }

  ghost function Next<K(!new), R, G, C>(p: Params<K, R, G, C>, s: State<K, R, G, C>, a: Action<K, G, C>): State<K, R, G, C>
    requires Enabled(p, s, a)
  {
    match a
    case Drive(a) =>
      var t := s.(proc := Process.Next(ProcessParams(p), s.proc, a));
      if a.Spawn? then
        var v := s.proc.ready[s.proc.pc.i];
        t.(work := s.work[v := if p.external(v) then Copying else Loading(0, map[])])
      else t
    case Load(v) =>
      var j, loaded := s.work[v].j, s.work[v].loaded;
      s.(work := s.work[v :=
        if j >= |p.refs(v)| then Checking(loaded)
        else if p.refs(v)[j].component !in s.store then Over(Some(MissingDependency))
        else Loading(j + 1, loaded[p.refs(v)[j].key := s.store[p.refs(v)[j].component]])])
    case Check(v, verdict) =>
      s.(work := s.work[v :=
        match verdict
        case Proceed => Referencing(s.work[v].loaded, map[])
        case Keep(existing) => Storing(existing)
        case Abort => Over(Some(Other))])
    case Refer(v, j, ok) =>
      var w, r := s.work[v], p.refs(v)[j];
      var desc := w.loaded[r.key];
      if !ok then s.(work := s.work[v := w.(parts := w.parts[j := None])])
      else if r.pinned.Some? then
        s.(work := s.work[v := w.(parts := w.parts[j := if p.matches(desc, r.pinned.value) then Some(p.canonical(r.pinned.value)) else None])])
      else
        var (g, cache) := CachedDigest(p, s.cache, r.component, desc);
        s.(work := s.work[v := w.(parts := w.parts[j := Some(g)])], cache := cache)
    case Assemble(v, ok, content) =>
      var parts, n := s.work[v].parts, |p.refs(v)|;
      s.(work := s.work[v :=
        if ok && AllThere(parts, n) && DistinctHashes(p.refs(v)) then Publishing(Descriptor(v, Collected(parts, n), content)) else Over(Some(Other))])
    case Copy(v, ok, copied) =>
      s.(work := s.work[v := if p.skipExternal then Storing(copied) else if ok then Publishing(copied) else Over(Some(Other))])
    case Publish(v, ok) =>
      if ok then s.(work := s.work[v := Storing(s.work[v].desc)], target := s.target[v := s.work[v].desc], log := s.log + [Added(v)])
      else s.(work := s.work[v := Over(Some(Other))])
    case Hook(v) => s.(work := s.work[v := Over(Some(Other))])
    case Store(v) =>
      var desc := s.work[v].desc;
      if desc.id !in p.adj then s.(work := s.work[v := Over(Some(NoVertex))])
      else if desc.id in s.store then s.(work := s.work[v := Over(Some(AlreadyStored))])
      else s.(work := s.work[v := Over(None)], store := s.store[desc.id := desc], log := s.log + [Stored(desc.id)])
    case Return(v) =>
      s.(proc := Process.Next(ProcessParams(p), s.proc, if s.work[v].failure.None? then Process.Succeed(v) else Process.Fail(v)))
  }

  /** Process starts from what Reverse makes of the discovered graph: the converse, acyclic, and with
      the counters it reads its in-degrees from. */
  lemma ReversedIsReversal<K(!new), R, G, C, A>(p: Params<K, R, G, C>, s: GraphState.State<K, A>)
    requires GraphState.Good(s) && GraphState.Adj(s) == p.adj
    ensures var r := GraphState.Reversal(s);
      GraphState.Good(r) && GraphState.Adj(r) == ProcessParams(p).g && forall v :: v in r ==> r[v].ind == |Preds(ProcessParams(p).g, v)|
  {
    var r := GraphState.Reversal(s);
    GraphState.AdjReversed(s, r);
    ConverseEdges(p.adj);
    ConverseAcyclic(p.adj);
    assert GraphState.InDegrees(r) == GraphState.OutDegrees(s) && GraphState.OutDegrees(r) == GraphState.InDegrees(s);
    ConverseDegrees(p.adj, GraphState.InDegrees(s), GraphState.OutDegrees(s));
    CountersExact(r);
  }

  lemma CountersExact<K(!new), A>(r: GraphState.State<K, A>)
    requires ExactDegrees(GraphState.Adj(r), GraphState.InDegrees(r), GraphState.OutDegrees(r))
    ensures forall v :: v in r ==> r[v].ind == |Preds(GraphState.Adj(r), v)|
  {
    forall v | v in r ensures r[v].ind == |Preds(GraphState.Adj(r), v)| {
      assert ExactAt(GraphState.Adj(r), GraphState.InDegrees(r), GraphState.OutDegrees(r), v);
    }
  }

  // ---- order and single writes ----

  /** A worker's position follows its vertex's phase. */
  ghost predicate PhaseInv<K(!new), R, G, C>(p: Params<K, R, G, C>, s: State<K, R, G, C>) {
    && s.proc.phase.Keys == p.adj.Keys
    && (forall v {:trigger s.proc.phase[v]} :: v in s.proc.phase ==> (v in s.work <==> s.proc.phase[v] != Process.Waiting))
    && (forall v {:trigger s.work[v]} :: v in s.work ==> v in s.proc.phase)
    && (forall v {:trigger s.work[v]} :: v in s.work && Process.Succeeded(s.proc, v) ==> s.work[v] == Over(None))
    && (forall v {:trigger s.work[v]} :: v in s.work && s.proc.phase[v] == Process.Failed ==> s.work[v].Over? && s.work[v].failure.Some?)
  }

  /** Exactly the workers that are through without a failure have stored a descriptor, their own. */
  ghost predicate StoreInv<K(!new), R, G, C>(p: Params<K, R, G, C>, s: State<K, R, G, C>) {
    && (forall v {:trigger v in s.store} :: v in s.store <==> v in s.work && s.work[v] == Over(None))
    && (forall v {:trigger s.store[v]} :: v in s.store ==> s.store[v].id == v)
    && (forall v {:trigger s.work[v]} :: v in s.work && (s.work[v].Publishing? || s.work[v].Storing?) ==> s.work[v].desc.id == v)
  }

  /** The only failures are those of the environment. */
  ghost predicate FailInv<K(!new), R, G, C>(s: State<K, R, G, C>) {
    forall v {:trigger s.work[v]} :: v in s.work && s.work[v].Over? && s.work[v].failure.Some? ==> s.work[v].failure == Some(Other)
  }

  ghost predicate StoredBefore<K(!new)>(adj: map<K, set<K>>, log: seq<Event<K>>, i: nat)
    requires i < |log|
  {
    log[i].Added? ==> forall n {:trigger Stored(n)} :: HasEdge(adj, log[i].k, n) ==> Stored(n) in log[..i]
  }

  ghost predicate Logged<K>(e: Event<K>, stored: set<K>, added: set<K>) {
    match e
    case Stored(k) => k in stored
    case Added(k) => k in added
  }

  /** Each write happened once, and each addition after all references were stored. */
  ghost predicate GoodLog<K(!new)>(adj: map<K, set<K>>, log: seq<Event<K>>, stored: set<K>, added: set<K>) {
    && Distinct(log)
    && (forall e {:trigger Logged(e, stored, added)} :: e in log <==> Logged(e, stored, added))
    && (forall i: nat {:trigger StoredBefore(adj, log, i)} :: i < |log| ==> StoredBefore(adj, log, i))
  }

  /** What was added was added by a worker that has gone on. */
  ghost predicate LogInv<K(!new), R, G, C>(p: Params<K, R, G, C>, s: State<K, R, G, C>) {
    && GoodLog(p.adj, s.log, s.store.Keys, s.target.Keys)
    && (forall k {:trigger k in s.target} :: k in s.target ==> k in s.work && (s.work[k].Storing? || s.work[k].Over?))
  }

  /** What the workers keep, beside the invariant of Process. */
  ghost predicate Inv<K(!new), R, G, C>(p: Params<K, R, G, C>, s: State<K, R, G, C>) {
    PhaseInv(p, s) && StoreInv(p, s) && FailInv(s) && LogInv(p, s)
  }

  /** What a started component refers to has been stored. */
  lemma RefsStored<K(!new), R, G, C>(p: Params<K, R, G, C>, s: State<K, R, G, C>, v: K)
    requires Discovered(p) && Inv(p, s) && ProcessOutcome.Ordered(ProcessParams(p), s.proc) && v in s.work
    ensures v in p.adj && forall n {:trigger n in s.store} :: HasEdge(p.adj, v, n) ==> n in s.store
    ensures forall r {:trigger r in p.refs(v)} :: r in p.refs(v) ==> r.component in s.store
  {
    hide LogInv, FailInv, Acyclic, ProcessOutcome.Ordered;
    ConverseEdges(p.adj);
    forall n {:trigger n in s.store} | HasEdge(p.adj, v, n) ensures n in s.store {
      StartedAfter(p, s, n, v);
    }
    forall r {:trigger r in p.refs(v)} | r in p.refs(v) ensures r.component in s.store {
      var j: nat :| j < |p.refs(v)| && p.refs(v)[j] == r;
      assert Targets(p.refs(v))[j] == r.component;
      assert HasEdge(p.adj, v, r.component);
    }
  }

  lemma StartedAfter<K(!new), R, G, C>(p: Params<K, R, G, C>, s: State<K, R, G, C>, n: K, v: K)
    requires ProcessOutcome.Ordered(ProcessParams(p), s.proc) && HasEdge(Converse(p.adj), n, v) && v in s.work && PhaseInv(p, s) && StoreInv(p, s)
    ensures n in s.store
  {
    assert s.work[v] == s.work[v] && s.proc.phase[v] != Process.Waiting;
    assert Process.Succeeded(s.proc, n);
    assert s.proc.phase[n] != Process.Waiting;
    assert s.work[n] == s.work[n];
  }

  /** A worker moves on by itself: neither it nor anyone else stores or adds anything. */
  ghost predicate Moves<K(!new), R, G, C>(p: Params<K, R, G, C>, s: State<K, R, G, C>, t: State<K, R, G, C>, v: K) {
    && Doing(s, v) && !s.work[v].Over? && v in t.work && t.work == s.work[v := t.work[v]]
    && t.proc == s.proc && t.store == s.store && t.target == s.target && t.log == s.log
    && (s.work[v].Storing? ==> t.work[v].Over?) && (t.work[v].Over? ==> t.work[v].failure == Some(Other))
    && (t.work[v].Publishing? || t.work[v].Storing? ==> t.work[v].desc.id == v)
  }

  lemma MoveKeepsInv<K(!new), R, G, C>(p: Params<K, R, G, C>, s: State<K, R, G, C>, t: State<K, R, G, C>, v: K)
    requires Inv(p, s) && Moves(p, s, t, v)
    ensures Inv(p, t)
  {
    hide PhaseInv, StoreInv, FailInv, LogInv, Process.Inv;
    MoveKeepsPhase(p, s, t, v);
    MoveKeepsStore(p, s, t, v);
    MoveKeepsLog(p, s, t, v);
  }

  lemma MoveKeepsPhase<K(!new), R, G, C>(p: Params<K, R, G, C>, s: State<K, R, G, C>, t: State<K, R, G, C>, v: K)
    requires PhaseInv(p, s) && Moves(p, s, t, v)
    ensures PhaseInv(p, t)
  {
  }

  lemma MoveKeepsStore<K(!new), R, G, C>(p: Params<K, R, G, C>, s: State<K, R, G, C>, t: State<K, R, G, C>, v: K)
    requires StoreInv(p, s) && FailInv(s) && Moves(p, s, t, v)
    ensures StoreInv(p, t) && FailInv(t)
  {
  }

  lemma MoveKeepsLog<K(!new), R, G, C>(p: Params<K, R, G, C>, s: State<K, R, G, C>, t: State<K, R, G, C>, v: K)
    requires LogInv(p, s) && Moves(p, s, t, v)
    ensures LogInv(p, t)
  {
    hide GoodLog;
    assert v in s.target ==> s.work[v].Storing?;
  }

  /** The reference to load is there: no dependency is missing. */
  lemma LoadFinds<K(!new), R, G, C>(p: Params<K, R, G, C>, s: State<K, R, G, C>, v: K)
    requires Discovered(p) && Inv(p, s) && ProcessOutcome.Ordered(ProcessParams(p), s.proc) && Enabled(p, s, Load(v)) && s.work[v].j < |p.refs(v)|
    ensures p.refs(v)[s.work[v].j].component in s.store
  {
    hide Inv, Discovered;
    RefsStored(p, s, v);
    assert p.refs(v)[s.work[v].j] in p.refs(v);
  }

  /** A worker that gets to store its descriptor succeeds. */
  lemma StoreSucceeds<K(!new), R, G, C>(p: Params<K, R, G, C>, s: State<K, R, G, C>, v: K)
    requires PhaseInv(p, s) && StoreInv(p, s) && Doing(s, v) && s.work[v].Storing?
    ensures s.work[v].desc.id == v && v in p.adj && v !in s.store
  {
    assert s.work[v] == s.work[v];
  }

  lemma InState<K(!new), R, G, C>(p: Params<K, R, G, C>, s: State<K, R, G, C>, v: K)
    requires StoreInv(p, s) && v in s.work
    ensures s.work[v].Publishing? || s.work[v].Storing? ==> s.work[v].desc.id == v
  {
    assert s.work[v] == s.work[v];
  }

  lemma WorkerMoves<K(!new), R, G, C>(p: Params<K, R, G, C>, s: State<K, R, G, C>, a: Action<K, G, C>, v: K)
    requires Discovered(p) && Inv(p, s) && ProcessOutcome.Ordered(ProcessParams(p), s.proc) && Enabled(p, s, a)
    requires a == Load(v) || (a.Check? && a.v == v) || (a.Refer? && a.v == v) || (a.Assemble? && a.v == v) || (a.Copy? && a.v == v) || a == Publish(v, false) || a == Hook(v)
    ensures Moves(p, s, Next(p, s, a), v)
  {
    hide Discovered, Process.Inv, LogInv, FailInv, StoreInv, PhaseInv, AllThere;
    if a.Load? && s.work[v].j < |p.refs(v)| { LoadFinds(p, s, v); }
    InState(p, s, v);
  }

  lemma PublishKeepsInv<K(!new), R, G, C>(p: Params<K, R, G, C>, s: State<K, R, G, C>, v: K)
    requires Discovered(p) && Inv(p, s) && ProcessOutcome.Ordered(ProcessParams(p), s.proc) && Enabled(p, s, Publish(v, true))
    ensures Inv(p, Next(p, s, Publish(v, true)))
  {
    hide Discovered, Process.Inv, PhaseInv, StoreInv, FailInv, LogInv;
    var t := Next(p, s, Publish(v, true));
    InState(p, s, v);
    RefsStored(p, s, v);
    PublishKeepsLog(p, s, t, v);
    PublishKeepsRest(p, s, t, v);
  }

  lemma PublishKeepsRest<K(!new), R, G, C>(p: Params<K, R, G, C>, s: State<K, R, G, C>, t: State<K, R, G, C>, v: K)
    requires PhaseInv(p, s) && StoreInv(p, s) && FailInv(s) && Doing(s, v) && s.work[v].Publishing?
    requires t.work == s.work[v := Storing(s.work[v].desc)] && t.proc == s.proc && t.store == s.store
    ensures PhaseInv(p, t) && StoreInv(p, t) && FailInv(t)
  {
    InState(p, s, v);
  }

  lemma PublishKeepsLog<K(!new), R, G, C>(p: Params<K, R, G, C>, s: State<K, R, G, C>, t: State<K, R, G, C>, v: K)
    requires LogInv(p, s) && v in s.work && s.work[v].Publishing?
    requires forall n {:trigger n in s.store} :: HasEdge(p.adj, v, n) ==> n in s.store
    requires t == s.(work := s.work[v := Storing(s.work[v].desc)], target := s.target[v := s.work[v].desc], log := s.log + [Added(v)])
    ensures LogInv(p, t)
  {
    hide GoodLog;
    assert v !in s.target;
    forall n {:trigger Stored(n)} | HasEdge(p.adj, v, n) ensures n in s.store.Keys {
      assert n in s.store <==> n in s.store.Keys;
    }
    LogGrows(p.adj, s.log, s.store.Keys, s.target.Keys, Added(v));
    assert t.target.Keys == s.target.Keys + {v};
  }

  lemma LogGrows<K(!new)>(adj: map<K, set<K>>, log: seq<Event<K>>, stored: set<K>, added: set<K>, e: Event<K>)
    requires GoodLog(adj, log, stored, added) && !Logged(e, stored, added)
    requires e.Added? ==> forall n {:trigger Stored(n)} :: HasEdge(adj, e.k, n) ==> n in stored
    ensures GoodLog(adj, log + [e], if e.Stored? then stored + {e.k} else stored, if e.Added? then added + {e.k} else added)
  {
    var t := log + [e];
    forall i: nat {:trigger StoredBefore(adj, t, i)} | i < |t| ensures StoredBefore(adj, t, i) {
      if i < |log| {
        assert StoredBefore(adj, log, i) && t[i] == log[i] && t[..i] == log[..i];
      } else {
        assert t[..i] == log;
        forall n {:trigger Stored(n)} | e.Added? && HasEdge(adj, e.k, n) ensures Stored(n) in log {
          assert Logged(Stored(n), stored, added);
        }
      }
    }
    var stored', added' := if e.Stored? then stored + {e.k} else stored, if e.Added? then added + {e.k} else added;
    forall x {:trigger Logged(x, stored', added')} ensures x in t <==> Logged(x, stored', added') {
      assert x in log <==> Logged(x, stored, added);
      assert x in t <==> x in log || x == e;
    }
    assert e !in log;
  }

  lemma StoreKeepsInv<K(!new), R, G, C>(p: Params<K, R, G, C>, s: State<K, R, G, C>, v: K)
    requires Inv(p, s) && Enabled(p, s, Store(v))
    ensures Inv(p, Next(p, s, Store(v)))
  {
    hide Process.Inv, LogInv, PhaseInv, StoreInv, FailInv;
    StoreSucceeds(p, s, v);
    StoreKeepsLog(p, s, Next(p, s, Store(v)), v);
    StoreKeepsRest(p, s, Next(p, s, Store(v)), v);
  }

  lemma StoreKeepsRest<K(!new), R, G, C>(p: Params<K, R, G, C>, s: State<K, R, G, C>, t: State<K, R, G, C>, v: K)
    requires PhaseInv(p, s) && StoreInv(p, s) && FailInv(s) && Doing(s, v) && s.work[v].Storing?
    requires t.work == s.work[v := Over(None)] && t.proc == s.proc && t.store == s.store[v := s.work[v].desc]
    ensures PhaseInv(p, t) && StoreInv(p, t) && FailInv(t)
  {
    InState(p, s, v);
  }

  lemma StoreKeepsLog<K(!new), R, G, C>(p: Params<K, R, G, C>, s: State<K, R, G, C>, t: State<K, R, G, C>, v: K)
    requires LogInv(p, s) && v in s.work && v !in s.store && s.work[v].Storing?
    requires t == s.(work := s.work[v := Over(None)], store := s.store[v := s.work[v].desc], log := s.log + [Stored(v)])
    ensures LogInv(p, t)
  {
    hide GoodLog;
    LogGrows(p.adj, s.log, s.store.Keys, s.target.Keys, Stored(v));
    assert t.store.Keys == s.store.Keys + {v};
  }

  lemma ReturnKeepsInv<K(!new), R, G, C>(p: Params<K, R, G, C>, s: State<K, R, G, C>, v: K)
    requires Inv(p, s) && Enabled(p, s, Return(v))
    ensures Inv(p, Next(p, s, Return(v)))
  {
    hide Process.Inv, LogInv, FailInv, StoreInv, PhaseInv;
    var t := Next(p, s, Return(v));
    SameButProc(p, s, t);
    ReturnKeepsPhase(p, s, t, v);
  }

  lemma ReturnKeepsPhase<K(!new), R, G, C>(p: Params<K, R, G, C>, s: State<K, R, G, C>, t: State<K, R, G, C>, v: K)
    requires PhaseInv(p, s) && Doing(s, v) && s.work[v].Over? && t.work == s.work
    requires t.proc.phase == s.proc.phase[v := if s.work[v].failure.None? then Process.Sending else Process.Failed]
    ensures PhaseInv(p, t)
  {
  }

  lemma SameButProc<K(!new), R, G, C>(p: Params<K, R, G, C>, s: State<K, R, G, C>, t: State<K, R, G, C>)
    requires StoreInv(p, s) && FailInv(s) && LogInv(p, s) && t == s.(proc := t.proc)
    ensures StoreInv(p, t) && FailInv(t) && LogInv(p, t)
  {
    hide GoodLog;
  }

  /** v has the same standing in both states of Process. */
  predicate SameStanding<K>(a: Process.State<K>, b: Process.State<K>, v: K)
    requires v in a.phase && v in b.phase
  {
    && (a.phase[v] == Process.Waiting <==> b.phase[v] == Process.Waiting)
    && (a.phase[v] == Process.Working <==> b.phase[v] == Process.Working)
    && (a.phase[v] == Process.Failed <==> b.phase[v] == Process.Failed)
  }

  lemma DrivePhases<K(!new)>(q: Process.Params<K>, a: Process.State<K>, act: Process.Action<K>)
    requires Process.Enabled(q, a, act) && !act.Succeed? && !act.Fail? && !act.Spawn?
    ensures Process.Next(q, a, act).phase.Keys == a.phase.Keys
    ensures forall v {:trigger a.phase[v]} :: v in a.phase ==> SameStanding(a, Process.Next(q, a, act), v)
  {
    hide Process.Unlocks, Process.Decremented, Process.Workers;
  }

  lemma SpawnPhases<K(!new)>(q: Process.Params<K>, a: Process.State<K>)
    requires ProcessOutcome.StartsWaiting(a) && Process.Enabled(q, a, Process.Spawn)
    ensures a.ready[a.pc.i] in a.phase && a.phase[a.ready[a.pc.i]] == Process.Waiting
    ensures Process.Next(q, a, Process.Spawn).phase == a.phase[a.ready[a.pc.i] := Process.Working]
  {
    hide Process.Workers;
  }

  lemma DriveKeepsInv<K(!new), R, G, C>(p: Params<K, R, G, C>, s: State<K, R, G, C>, act: Process.Action<K>)
    requires Inv(p, s) && Enabled(p, s, Drive(act)) && !act.Spawn?
    ensures Inv(p, Next(p, s, Drive(act)))
  {
    hide Process.Inv, LogInv, FailInv, StoreInv, PhaseInv, Process.Enabled, Process.Next, SameStanding;
    DrivePhases(ProcessParams(p), s.proc, act);
    SameButProc(p, s, Next(p, s, Drive(act)));
    DriveKeepsPhase(p, s, Next(p, s, Drive(act)));
  }

  lemma DriveKeepsPhase<K(!new), R, G, C>(p: Params<K, R, G, C>, s: State<K, R, G, C>, t: State<K, R, G, C>)
    requires PhaseInv(p, s) && t.work == s.work && t.proc.phase.Keys == s.proc.phase.Keys
    requires forall v {:trigger s.proc.phase[v]} :: v in s.proc.phase ==> SameStanding(s.proc, t.proc, v)
    ensures PhaseInv(p, t)
  {
    forall v {:trigger t.proc.phase[v]} | v in t.proc.phase ensures v in s.proc.phase && SameStanding(s.proc, t.proc, v) {
      assert v in s.proc.phase.Keys && s.proc.phase[v] == s.proc.phase[v];
    }
  }

  lemma SpawnKeepsInv<K(!new), R, G, C>(p: Params<K, R, G, C>, s: State<K, R, G, C>)
    requires Inv(p, s) && Enabled(p, s, Drive(Process.Spawn)) && ProcessOutcome.StartsWaiting(s.proc)
    ensures Inv(p, Next(p, s, Drive(Process.Spawn)))
  {
    hide Process.Inv, LogInv, FailInv, StoreInv, PhaseInv, Process.Enabled, Process.Next;
    EnabledSpawn(ProcessParams(p), s.proc);
    SpawnPhases(ProcessParams(p), s.proc);
    SpawnKeepsRest(p, s, Next(p, s, Drive(Process.Spawn)), s.proc.ready[s.proc.pc.i]);
  }

  /** v, not started before, gets a worker. */
  ghost predicate Spawns<K(!new), R, G, C>(s: State<K, R, G, C>, t: State<K, R, G, C>, v: K) {
    && v in s.proc.phase && s.proc.phase[v] == Process.Waiting && t.proc.phase == s.proc.phase[v := Process.Working]
    && v in t.work && t.work == s.work[v := t.work[v]] && (t.work[v].Copying? || t.work[v].Loading?)
    && t.log == s.log && t.store == s.store && t.target == s.target
  }

  lemma SpawnKeepsRest<K(!new), R, G, C>(p: Params<K, R, G, C>, s: State<K, R, G, C>, t: State<K, R, G, C>, v: K)
    requires PhaseInv(p, s) && StoreInv(p, s) && FailInv(s) && LogInv(p, s) && Spawns(s, t, v)
    ensures PhaseInv(p, t) && StoreInv(p, t) && FailInv(t) && LogInv(p, t)
  {
    hide GoodLog, PhaseInv, StoreInv, FailInv, LogInv;
    SpawnKeepsPhase(p, s, t, v);
    SpawnKeepsStore(p, s, t, v);
  }

  lemma SpawnKeepsPhase<K(!new), R, G, C>(p: Params<K, R, G, C>, s: State<K, R, G, C>, t: State<K, R, G, C>, v: K)
    requires PhaseInv(p, s) && Spawns(s, t, v)
    ensures v !in s.work && PhaseInv(p, t)
  {
  }

  lemma SpawnKeepsStore<K(!new), R, G, C>(p: Params<K, R, G, C>, s: State<K, R, G, C>, t: State<K, R, G, C>, v: K)
    requires StoreInv(p, s) && FailInv(s) && LogInv(p, s) && Spawns(s, t, v) && v !in s.work
    ensures StoreInv(p, t) && FailInv(t) && LogInv(p, t)
  {
    hide GoodLog;
  }

  lemma EnabledSpawn<K(!new)>(q: Process.Params<K>, a: Process.State<K>)
    requires Process.Enabled(q, a, Process.Spawn)
    ensures a.pc.Spawning? && a.pc.i < |a.ready|
  {
  }

  lemma InvStep<K(!new), R, G, C>(p: Params<K, R, G, C>, s: State<K, R, G, C>, a: Action<K, G, C>)
    requires Discovered(p) && Inv(p, s) && Enabled(p, s, a)
    requires ProcessOutcome.Ordered(ProcessParams(p), s.proc) && (a == Drive(Process.Spawn) ==> ProcessOutcome.StartsWaiting(s.proc))
    ensures Inv(p, Next(p, s, a))
  {
    hide Discovered, Inv, Enabled, Next, Moves, ProcessOutcome.Ordered, ProcessOutcome.StartsWaiting;
    match a
    case Drive(act) => if act.Spawn? { SpawnKeepsInv(p, s); } else { DriveKeepsInv(p, s, act); }
    case Publish(v, ok) =>
      if ok { PublishKeepsInv(p, s, v); } else { WorkerMoves(p, s, a, v); MoveKeepsInv(p, s, Next(p, s, a), v); }
    case Store(v) => StoreKeepsInv(p, s, v);
    case Return(v) => ReturnKeepsInv(p, s, v);
    case _ =>
      WorkerMoves(p, s, a, a.v);
      MoveKeepsInv(p, s, Next(p, s, a), a.v);
  }

  /** What the workers rely on from Process: predecessors first, and no vertex started twice. */
  lemma ProcFacts<K(!new)>(q: Process.Params<K>, proc: Process.State<K>)
    requires Process.Inv(q, proc)
    ensures ProcessOutcome.Ordered(q, proc) && (Process.Enabled(q, proc, Process.Spawn) ==> ProcessOutcome.StartsWaiting(proc))
  {
    hide Process.ChannelInv, Process.ReadyInv, Process.DegreeInv, Process.CountInv, Process.ErrorInv, Process.PcInv;
    hide ProcessOutcome.Ordered, Process.Enabled, ProcessOutcome.StartsWaiting;
    ProcessOutcome.InvOrdered(q, proc);
    ProcessOutcome.SpawnsWaiting(q, proc);
  }

  /** Seen from Process every action is one of its own, or none. */
  lemma ProcStep<K(!new), R, G, C>(p: Params<K, R, G, C>, s: State<K, R, G, C>, a: Action<K, G, C>)
    requires Enabled(p, s, a)
    ensures Next(p, s, a).proc == s.proc
      || exists act :: Process.Enabled(ProcessParams(p), s.proc, act) && Next(p, s, a).proc == Process.Next(ProcessParams(p), s.proc, act)
  {
    hide Process.Next, ProcessParams, AllThere;
    if a.Return? {
      var act := if s.work[a.v].failure.None? then Process.Succeed(a.v) else Process.Fail(a.v);
      assert Process.Enabled(ProcessParams(p), s.proc, act);
    }
  }

  lemma ProcKeepsInv<K(!new), R, G, C>(p: Params<K, R, G, C>, s: State<K, R, G, C>, a: Action<K, G, C>)
    requires Process.Inv(ProcessParams(p), s.proc) && Enabled(p, s, a)
    ensures Process.Inv(ProcessParams(p), Next(p, s, a).proc)
  {
    hide Process.Inv, Process.Enabled, Process.Next, Enabled, Next, ProcessParams;
    ProcStep(p, s, a);
    if Next(p, s, a).proc != s.proc {
      var act :| Process.Enabled(ProcessParams(p), s.proc, act) && Next(p, s, a).proc == Process.Next(ProcessParams(p), s.proc, act);
      Process.InvStep(ProcessParams(p), s.proc, act);
    }
  }

  lemma InvInit<K(!new), R, G, C>(p: Params<K, R, G, C>, s: State<K, R, G, C>)
    requires Init(p, s)
    ensures Inv(p, s) && Process.Inv(ProcessParams(p), s.proc)
  {
    hide Process.Inv, Process.Init, PhaseInv, StoreInv, FailInv, LogInv, GoodLog;
    ProcessOutcome.InvInit(ProcessParams(p), s.proc);
    NoneStarted(p, s.proc);
    EmptyInv(p, s);
    EmptyLog(p, s);
  }

  lemma NoneStarted<K(!new), R, G, C>(p: Params<K, R, G, C>, proc: Process.State<K>)
    requires Process.Init(ProcessParams(p), proc)
    ensures proc.phase.Keys == p.adj.Keys && forall v {:trigger proc.phase[v]} :: v in proc.phase ==> proc.phase[v] == Process.Waiting
  {
    assert ProcessParams(p).g.Keys == p.adj.Keys;
    assert forall v {:trigger proc.phase[v]} :: v in proc.phase ==> v in ProcessParams(p).g;
  }

  lemma EmptyInv<K(!new), R, G, C>(p: Params<K, R, G, C>, s: State<K, R, G, C>)
    requires s.proc.phase.Keys == p.adj.Keys && forall v {:trigger s.proc.phase[v]} :: v in s.proc.phase ==> s.proc.phase[v] == Process.Waiting
    requires s.work == map[] && s.store == map[]
    ensures PhaseInv(p, s) && StoreInv(p, s) && FailInv(s)
  {
  }

  lemma EmptyLog<K(!new), R, G, C>(p: Params<K, R, G, C>, s: State<K, R, G, C>)
    requires s.work == map[] && s.store == map[] && s.target == map[] && s.log == []
    ensures LogInv(p, s)
  {
  }
}
