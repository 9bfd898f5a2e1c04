/** Runs of component construction (see Construct) that bring a chosen component to its references:
    nothing fails, and the workers of other components act only as far as the chosen one waits for
    them. */
module ConstructRuns {
  import opened Graphs
  import opened Construct
  import opened ConstructDigests
  import opened ConstructOutcome
  import TopoOrder
  import Process
  import ProcessOutcome

  /** The pins of v are compared with external component versions. */
  ghost predicate PinsExternal<K(!new), R, G, C>(p: Params<K, R, G, C>, v: K) {
    forall j {:trigger p.refs(v)[j]} :: 0 <= j < |p.refs(v)| && p.refs(v)[j].pinned.Some? ==> p.external(FoundAt(p.refs(v), j))
  }

  /** All pins are compared with external component versions, and f meets them. */
  ghost predicate MeetsAll<K(!new), R, G, C>(p: Params<K, R, G, C>, f: map<K, Descriptor<K, G, C>>) {
    forall v {:trigger MeetsPins(p, v, f)} :: v in p.adj && !p.external(v) ==> MeetsPins(p, v, f) && PinsExternal(p, v)
  }

  /** All pins are compared with external component versions and can be met together, if there are any. */
  ghost predicate Meetable<K(!new), R(!new), G(!new), C(!new)>(p: Params<K, R, G, C>) {
    exists f: map<K, Descriptor<K, G, C>> :: MeetsAll(p, f)
  }

  /** The components that stay at their references, each with the references it has recorded; the
      descriptors of all others that are kept or copied; a component version that is not to be looked
      up; and the content of what is constructed. */
  datatype Plan<K, G, C> = Plan(held: map<K, map<nat, Option<G>>>, choice: map<K, Descriptor<K, G, C>>, free: Option<K>, content: C)

  /** None of those that stay waits for another; and versions in the target are kept, or the choice
      meets all pins. */
  ghost predicate Setup<K(!new), R, G, C>(p: Params<K, R, G, C>, plan: Plan<K, G, C>) {
    && plan.choice.Keys == p.adj.Keys && (forall v {:trigger plan.choice[v]} :: v in plan.choice ==> plan.choice[v].id == v)
    && (forall v :: v in plan.held ==> v in p.adj && !p.external(v))
    && (forall v, w {:trigger Reaches(p.adj, v, w)} :: v in plan.held && w in plan.held && v != w ==> !Reaches(p.adj, v, w))
    && (p.keeps || MeetsAll(p, plan.choice))
  }

  predicate AllOk<G>(parts: map<nat, Option<G>>) {
    forall j {:trigger j in parts} :: j in parts ==> parts[j].Some?
  }

  /** A worker of that run. */
  ghost predicate CalmWork<K, R, G, C>(p: Params<K, R, G, C>, plan: Plan<K, G, C>, v: K, w: Work<K, R, G, C>) {
    v in plan.choice &&
    match w
    case Loading(_, _) => !p.external(v)
    case Checking(_) => !p.external(v)
    case Referencing(_, parts) => !p.external(v) && if v in plan.held then parts == plan.held[v] else !p.keeps && AllOk(parts)
    case Copying => v !in plan.held
    case Publishing(desc) => v !in plan.held && (p.keeps || p.external(v) ==> desc == plan.choice[v])
    case Storing(desc) => v !in plan.held && (p.keeps || p.external(v) ==> desc == plan.choice[v])
    case Over(failure) => v !in plan.held && failure.None?
  }

  /** What was not constructed has the descriptor of choice. */
  ghost predicate StoresFrom<K(!new), R, G, C>(p: Params<K, R, G, C>, choice: map<K, Descriptor<K, G, C>>, s: State<K, R, G, C>) {
    forall u {:trigger s.store[u]} :: u in s.store && (p.keeps || p.external(u)) ==> u in choice && s.store[u] == choice[u]
  }

  ghost predicate Calm<K(!new), R, G, C>(p: Params<K, R, G, C>, plan: Plan<K, G, C>, s: State<K, R, G, C>) {
    && !s.proc.groupDone && (plan.free.Some? ==> plan.free.value !in s.cache)
    && (forall v {:trigger s.work[v]} :: v in s.work ==> CalmWork(p, plan, v, s.work[v]))
    && StoresFrom(p, plan.choice, s)
  }

  /** An action of that run. */
  ghost predicate Gentle<K, R, G, C>(p: Params<K, R, G, C>, plan: Plan<K, G, C>, a: Action<K, G, C>) {
    match a
    case Drive(act) => !act.ParentCancel?
    case Check(v, verdict) =>
      v in plan.choice && verdict == (if v in plan.held || !p.keeps then Proceed else Keep(plan.choice[v])) && (v in plan.held ==> plan.held[v] == map[])
    case Refer(v, j, ok) => ok && v !in plan.held && !p.keeps && j < |p.refs(v)| && (p.refs(v)[j].pinned.None? ==> plan.free != Some(p.refs(v)[j].component))
    case Assemble(v, ok, _) => ok && v !in plan.held && !p.keeps && DistinctHashes(p.refs(v))
    case Hook(_) => false
    case Copy(v, ok, copied) => v in plan.choice && ok && copied == plan.choice[v]
    case Publish(_, ok) => ok
    case _ => true
  }

  /** v has loaded what it refers to and is about to record its digests. */
  predicate AtReferences<K, R, G, C>(s: State<K, R, G, C>, v: K) {
    v in s.work && s.work[v].Referencing?
  }

  // ---- it stays calm ----

  lemma CalmAt<K(!new), R, G, C>(p: Params<K, R, G, C>, plan: Plan<K, G, C>, s: State<K, R, G, C>, v: K)
    requires Calm(p, plan, s) && v in s.work
    ensures CalmWork(p, plan, v, s.work[v])
  {
  }

  lemma CalmMoves<K(!new), R, G, C>(p: Params<K, R, G, C>, plan: Plan<K, G, C>, s: State<K, R, G, C>, t: State<K, R, G, C>, v: K)
    requires Calm(p, plan, s) && t.proc == s.proc && t.store == s.store && (plan.free.Some? ==> plan.free.value !in t.cache)
    requires v in t.work && t.work == s.work[v := t.work[v]] && CalmWork(p, plan, v, t.work[v])
    ensures Calm(p, plan, t)
  {
    hide CalmWork;
    forall u {:trigger t.work[u]} | u in t.work ensures CalmWork(p, plan, u, t.work[u]) {
      if u != v { assert s.work[u] == t.work[u]; }
    }
  }

  lemma CalmStores<K(!new), R, G, C>(p: Params<K, R, G, C>, plan: Plan<K, G, C>, s: State<K, R, G, C>, t: State<K, R, G, C>, v: K)
    requires Calm(p, plan, s) && t.cache == s.cache && t.proc == s.proc && v in plan.choice && v !in plan.held
    requires v in t.store && t.store == s.store[v := t.store[v]] && (p.keeps || p.external(v) ==> t.store[v] == plan.choice[v]) && t.work == s.work[v := Over(None)]
    ensures Calm(p, plan, t)
  {
    forall u {:trigger t.work[u]} | u in t.work ensures CalmWork(p, plan, u, t.work[u]) {
      if u != v { assert s.work[u] == t.work[u]; }
    }
  }

  lemma CalmDrives<K(!new), R, G, C>(p: Params<K, R, G, C>, plan: Plan<K, G, C>, s: State<K, R, G, C>, act: Process.Action<K>)
    requires Setup(p, plan) && PhaseInv(p, s) && Calm(p, plan, s) && Enabled(p, s, Drive(act)) && !act.ParentCancel?
    requires act.Spawn? ==> ProcessOutcome.StartsWaiting(s.proc)
    ensures Calm(p, plan, Next(p, s, Drive(act)))
  {
    hide CalmWork, Setup, Process.Unlocks, Process.Decremented, Process.Workers;
    var t := Next(p, s, Drive(act));
    if act.Spawn? {
      var v := s.proc.ready[s.proc.pc.i];
      assert v in s.proc.phase.Keys;
      StartsCalm(p, plan, v, t.work[v]);
      forall u {:trigger t.work[u]} | u in t.work ensures CalmWork(p, plan, u, t.work[u]) {
        if u != v { assert s.work[u] == t.work[u]; }
      }
    }
  }

  lemma StartsCalm<K(!new), R, G, C>(p: Params<K, R, G, C>, plan: Plan<K, G, C>, v: K, w: Work<K, R, G, C>)
    requires Setup(p, plan) && v in p.adj && w == if p.external(v) then Copying else Loading(0, map[])
    ensures CalmWork(p, plan, v, w)
  {
    hide Reaches, MeetsAll;
    assert v in plan.choice.Keys;
  }

  lemma CalmReturns<K(!new), R, G, C>(p: Params<K, R, G, C>, plan: Plan<K, G, C>, s: State<K, R, G, C>, v: K)
    requires Calm(p, plan, s) && Enabled(p, s, Return(v))
    ensures Calm(p, plan, Next(p, s, Return(v)))
  {
    assert CalmWork(p, plan, v, s.work[v]);
  }

  lemma CalmStep<K(!new), R(!new), G(!new), C(!new)>(p: Params<K, R, G, C>, plan: Plan<K, G, C>, s: State<K, R, G, C>, a: Action<K, G, C>)
    requires Discovered(p) && Inv(p, s) && Process.Inv(ProcessParams(p), s.proc) && Coherent(p, s)
    requires Setup(p, plan) && Calm(p, plan, s) && Enabled(p, s, a) && Gentle(p, plan, a)
    ensures Calm(p, plan, Next(p, s, a))
  {
    hide Discovered, Inv, Coherent, Process.Inv, Setup, Calm, Process.Enabled, Process.Next, ProcessOutcome.Ordered, ProcessOutcome.StartsWaiting, DistinctHashes;
    ProcFacts(ProcessParams(p), s.proc);
    InvPhase(p, s);
    if a.Drive? {
      SpawnEnabled(p, s, a);
      CalmDrives(p, plan, s, a.a);
    } else if a.Return? {
      CalmReturns(p, plan, s, a.v);
    } else if a.Store? {
      CalmAt(p, plan, s, a.v);
      InvStores(p, s);
      StoreSucceeds(p, s, a.v);
      CalmStores(p, plan, s, Next(p, s, a), a.v);
    } else if a.Refer? {
      CoherentWorks(p, s);
      CalmRefers(p, plan, s, a.v, a.j);
    } else {
      CalmWorks(p, plan, s, a, a.v);
    }
  }

  lemma InvStores<K(!new), R, G, C>(p: Params<K, R, G, C>, s: State<K, R, G, C>)
    requires Inv(p, s)
    ensures StoreInv(p, s)
  {
  }

  lemma FreeStays<K(!new), R, G, C>(p: Params<K, R, G, C>, plan: Plan<K, G, C>, s: State<K, R, G, C>)
    requires Calm(p, plan, s)
    ensures plan.free.Some? ==> plan.free.value !in s.cache
  {
  }

  /** Where nothing is kept every reference of what is built can be recorded. */
  lemma CalmRefers<K(!new), R(!new), G(!new), C(!new)>(p: Params<K, R, G, C>, plan: Plan<K, G, C>, s: State<K, R, G, C>, v: K, j: nat)
    requires WorksCoherent(p, s) && PhaseInv(p, s) && Setup(p, plan) && Calm(p, plan, s) && Enabled(p, s, Refer(v, j, true)) && Gentle(p, plan, Refer(v, j, true))
    ensures Calm(p, plan, Next(p, s, Refer(v, j, true)))
  {
    hide WorksCoherent, PhaseInv, Setup, Calm;
    FoundFor(p, s, v, j);
    DoingVertex(p, s, v);
    CalmPin(p, plan, s, v, j);
    CalmAt(p, plan, s, v);
    FreeStays(p, plan, s);
    CalmMoves(p, plan, s, Next(p, s, Refer(v, j, true)), v);
  }

  lemma DoingVertex<K(!new), R, G, C>(p: Params<K, R, G, C>, s: State<K, R, G, C>, v: K)
    requires PhaseInv(p, s) && Doing(s, v)
    ensures v in p.adj
  {
    assert v in s.proc.phase.Keys;
  }

  lemma CalmPin<K(!new), R(!new), G(!new), C(!new)>(p: Params<K, R, G, C>, plan: Plan<K, G, C>, s: State<K, R, G, C>, v: K, j: nat)
    requires Setup(p, plan) && Calm(p, plan, s) && !p.keeps && v in p.adj && !p.external(v) && j < |p.refs(v)| && FoundAt(p.refs(v), j) in s.store
    ensures p.refs(v)[j].pinned.Some? ==> p.matches(s.store[FoundAt(p.refs(v), j)], p.refs(v)[j].pinned.value)
  {
    hide Reaches, MeetsPins, PinsExternal, FoundAt, CalmWork;
    assert MeetsPins(p, v, plan.choice);
    PinMet(p, plan.choice, s, v, j);
  }

  lemma PinMet<K(!new), R(!new), G(!new), C(!new)>(p: Params<K, R, G, C>, choice: map<K, Descriptor<K, G, C>>, s: State<K, R, G, C>, v: K, n: nat)
    requires MeetsPins(p, v, choice) && StoresFrom(p, choice, s) && (p.keeps || PinsExternal(p, v)) && n < |p.refs(v)| && FoundAt(p.refs(v), n) in s.store
    ensures p.refs(v)[n].pinned.Some? ==> p.matches(s.store[FoundAt(p.refs(v), n)], p.refs(v)[n].pinned.value)
  {
    hide FoundAt;
    assert p.refs(v)[n] == p.refs(v)[n];
    assert s.store[FoundAt(p.refs(v), n)] == s.store[FoundAt(p.refs(v), n)];
  }

  /** The other actions of a worker. */
  lemma CalmWorks<K(!new), R, G, C>(p: Params<K, R, G, C>, plan: Plan<K, G, C>, s: State<K, R, G, C>, a: Action<K, G, C>, v: K)
    requires Discovered(p) && Inv(p, s) && ProcessOutcome.Ordered(ProcessParams(p), s.proc)
    requires Calm(p, plan, s) && Enabled(p, s, a) && Gentle(p, plan, a) && !a.Store? && !a.Refer? && WorkerOf(a) == Some(v)
    ensures Calm(p, plan, Next(p, s, a))
  {
    hide Discovered, Inv, Calm, ProcessOutcome.Ordered, DistinctHashes;
    CalmAt(p, plan, s, v);
    FreeStays(p, plan, s);
    if a.Load? && s.work[v].j < |p.refs(v)| { LoadFinds(p, s, v); }
    CalmMoves(p, plan, s, Next(p, s, a), v);
  }

  // ---- and goes on ----

  /** u is to be brought to its references next. */
  ghost predicate Aim<K(!new), R, G, C>(p: Params<K, R, G, C>, plan: Plan<K, G, C>, u: K) {
    && u in plan.held && plan.held[u] == map[] && u in p.adj && Startable(p, u)
    && (plan.free.Some? ==> Untouched(p, u, plan.free.value))
  }

  /** A goroutine of u, or of something u waits for, can act unless u is at its references. */
  lemma GoroutineGoesOn<K(!new), R(!new), G(!new), C(!new)>(p: Params<K, R, G, C>, plan: Plan<K, G, C>, s: State<K, R, G, C>, u: K, v: K)
      returns (a: Action<K, G, C>)
    requires Process.Inv(ProcessParams(p), s.proc) && PhaseInv(p, s) && WorksCoherent(p, s) && Setup(p, plan) && Calm(p, plan, s) && Aim(p, plan, u)
    requires v in Process.Workers(s.proc) && Reaches(p.adj, u, v) && !(v == u && AtReferences(s, u))
    ensures Enabled(p, s, a) && Gentle(p, plan, a)
  {
    hide Process.DegreeInv, Process.ReadyInv, Process.CountInv, Process.ErrorInv, Process.PcInv, Process.ChannelInv, Setup, Calm, Aim, WorksCoherent, Process.Unlocks, Reaches;
    if s.proc.phase[v] == Process.Working {
      a := WorkerGoesOn(p, plan, s, u, v);
    } else if s.proc.phase[v] == Process.Sending {
      ProcessOutcome.RoomToSend(ProcessParams(p), s.proc, v);
      a := Drive(Process.Send(v));
    } else {
      a := Drive(Process.Leave(v));
    }
  }

  lemma WorkerGoesOn<K(!new), R(!new), G(!new), C(!new)>(p: Params<K, R, G, C>, plan: Plan<K, G, C>, s: State<K, R, G, C>, u: K, v: K)
      returns (a: Action<K, G, C>)
    requires PhaseInv(p, s) && WorksCoherent(p, s) && Setup(p, plan) && Calm(p, plan, s) && Aim(p, plan, u)
    requires v in s.proc.phase && s.proc.phase[v] == Process.Working && Reaches(p.adj, u, v) && !(v == u && AtReferences(s, u))
    ensures Enabled(p, s, a) && Gentle(p, plan, a)
  {
    hide Setup, Calm, Process.Enabled, WorksCoherent, Aim, Reaches, DistinctHashes;
    assert v in s.work;
    CalmAt(p, plan, s, v);
    OwnChoice(p, plan, v);
    HeldAim(p, plan, u, v);
    match s.work[v]
    case Loading(_, _) => a := Load(v);
    case Checking(_) => a := Check(v, if v in plan.held || !p.keeps then Proceed else Keep(plan.choice[v]));
    case Referencing(_, _) => a := ReferenceGoesOn(p, plan, s, u, v);
    case Copying => a := Copy(v, true, plan.choice[v]);
    case Publishing(_) => a := Publish(v, true);
    case Storing(_) => a := Store(v);
    case Over(_) => a := Return(v);
  }

  lemma OwnChoice<K(!new), R, G, C>(p: Params<K, R, G, C>, plan: Plan<K, G, C>, v: K)
    requires Setup(p, plan) && v in plan.choice
    ensures plan.choice[v].id == v
  {
    hide Reaches, MeetsAll;
  }

  /** Of what stays at its references, u waits for nothing but itself. */
  lemma HeldAim<K(!new), R, G, C>(p: Params<K, R, G, C>, plan: Plan<K, G, C>, u: K, v: K)
    requires Setup(p, plan) && Aim(p, plan, u) && Reaches(p.adj, u, v)
    ensures v in plan.held ==> v == u && plan.held[v] == map[]
  {
    hide MeetsAll, Startable, Untouched;
  }

  /** A component that is built for u records its references one by one, and is assembled. */
  lemma ReferenceGoesOn<K(!new), R(!new), G(!new), C(!new)>(p: Params<K, R, G, C>, plan: Plan<K, G, C>, s: State<K, R, G, C>, u: K, v: K)
      returns (a: Action<K, G, C>)
    requires PhaseInv(p, s) && WorksCoherent(p, s) && Setup(p, plan) && Calm(p, plan, s) && Aim(p, plan, u)
    requires Doing(s, v) && AtReferences(s, v) && Reaches(p.adj, u, v) && v != u
    ensures Enabled(p, s, a) && Gentle(p, plan, a)
  {
    hide Setup, Calm, PhaseInv, WorksCoherent, Aim, Reaches, DistinctHashes, FoundAt;
    CalmAt(p, plan, s, v);
    HeldAim(p, plan, u, v);
    DoingVertex(p, s, v);
    AtWork(p, s, v);
    BuiltFor(p, plan, u, v);
    if j: nat :| j < |p.refs(v)| && j !in s.work[v].parts {
      FoundFor(p, s, v, j);
      NotFree(p, plan, u, v, j);
      a := Refer(v, j, true);
    } else {
      a := Assemble(v, true, plan.content);
    }
  }

  lemma BuiltFor<K(!new), R, G, C>(p: Params<K, R, G, C>, plan: Plan<K, G, C>, u: K, v: K)
    requires Aim(p, plan, u) && !p.keeps && Reaches(p.adj, u, v) && v != u && !p.external(v)
    ensures DistinctHashes(p.refs(v))
  {
    hide Reaches, DistinctHashes, Untouched;
    assert Below(p, u, v);
  }

  lemma NotFree<K(!new), R, G, C>(p: Params<K, R, G, C>, plan: Plan<K, G, C>, u: K, v: K, j: nat)
    requires Aim(p, plan, u) && !p.keeps && Reaches(p.adj, u, v) && v != u && !p.external(v) && v in p.adj && j < |p.refs(v)|
    ensures p.refs(v)[j].pinned.None? ==> plan.free != Some(p.refs(v)[j].component)
  {
    hide Reaches, Startable;
    if p.refs(v)[j].pinned.None? {
      assert Below(p, u, v);
      assert LooksAt(p, v, j, p.refs(v)[j].component);
      assert Looks(p, v, p.refs(v)[j].component);
    }
  }

  /** If nothing is reported or left to be started, a vertex not started waits, over some path, for one
      that is being processed. */
  lemma Awaits<K(!new), R, G, C>(p: Params<K, R, G, C>, s: State<K, R, G, C>, u: K) returns (x: K)
    requires Discovered(p) && Process.ChannelInv(ProcessParams(p), s.proc) && Process.ReadyInv(ProcessParams(p), s.proc)
    requires Process.ErrorInv(ProcessParams(p), s.proc) && !s.proc.groupDone && s.proc.done == [] && Process.Pending(s.proc) == []
    requires u in p.adj && s.proc.phase[u] == Process.Waiting
    ensures x in Process.Workers(s.proc) && Reaches(p.adj, u, x) && x != u
  {
    hide Acyclic, Process.Pending, Targets, Reaches;
    var open := set y | y in p.adj && Reaches(p.adj, u, y) && y !in s.proc.taken;
    ReachesRefl(p.adj, u);
    assert u in open;
    x := MaximalMember(p.adj, open);
    ConverseEdges(p.adj);
    forall y | y in Preds(ProcessParams(p).g, x) ensures y in TopoOrder.Elements(s.proc.taken) {
      assert HasEdge(ProcessParams(p).g, y, x) && HasEdge(p.adj, x, y);
      ReachesStep(p.adj, u, x, y);
      assert y in p.adj && y !in open;
    }
    assert Process.Unlocked(ProcessParams(p), s.proc, x);
    assert x in ProcessParams(p).g && x !in Process.Pending(s.proc);
    assert s.proc.phase[x] != Process.Waiting;
  }

  /** A component that stays at its references but is not there yet has not succeeded. */
  lemma HeldWaits<K(!new), R, G, C>(p: Params<K, R, G, C>, plan: Plan<K, G, C>, s: State<K, R, G, C>, u: K)
    requires PhaseInv(p, s) && Process.ErrorInv(ProcessParams(p), s.proc) && Calm(p, plan, s) && u in plan.held && u in p.adj
    ensures u in s.proc.phase && (s.proc.phase[u] == Process.Waiting || s.proc.phase[u] == Process.Working) && !Process.Succeeded(s.proc, u)
  {
    assert u in s.proc.phase.Keys;
    if s.proc.phase[u] != Process.Waiting {
      assert CalmWork(p, plan, u, s.work[u]);
    }
  }

  lemma CalmGroup<K(!new), R, G, C>(p: Params<K, R, G, C>, plan: Plan<K, G, C>, s: State<K, R, G, C>)
    requires Calm(p, plan, s) && Process.ErrorInv(ProcessParams(p), s.proc)
    ensures !s.proc.groupDone && !s.proc.parentDone && s.proc.firstError == None
  {
  }

  /** If no goroutine acts that u waits for, the coordinator can. */
  lemma CoordinatorGoesOn<K(!new), R, G, C>(p: Params<K, R, G, C>, plan: Plan<K, G, C>, s: State<K, R, G, C>, u: K) returns (act: Process.Action<K>)
    requires Discovered(p) && Inv(p, s) && Process.Inv(ProcessParams(p), s.proc) && Calm(p, plan, s)
    requires u in plan.held && u in p.adj && forall x :: x in Process.Workers(s.proc) ==> !Reaches(p.adj, u, x)
    ensures Process.Enabled(ProcessParams(p), s.proc, act) && act != Process.ParentCancel && !act.Succeed? && !act.Fail?
  {
    hide Discovered, PhaseInv, StoreInv, LogInv, FailInv, Calm, Process.DegreeInv, Process.ChannelInv, Process.ReadyInv, Process.ErrorInv, Process.CountInv, Reaches;
    HeldWaits(p, plan, s, u);
    CalmGroup(p, plan, s);
    match s.proc.pc
    case Launching(i) => act := if i >= |s.proc.ready| then Process.LaunchEnd else Process.LaunchNext;
    case Spawning(_) => act := Process.Spawn;
    case Checking => act := Process.Check;
    case Selecting =>
      SomethingDone(p, plan, s, u);
      act := Received(p, s);
    case _ => NotOver(p, s, u);
  }

  lemma SomethingDone<K(!new), R, G, C>(p: Params<K, R, G, C>, plan: Plan<K, G, C>, s: State<K, R, G, C>, u: K)
    requires Discovered(p) && Inv(p, s) && Process.Inv(ProcessParams(p), s.proc) && Calm(p, plan, s)
    requires u in plan.held && u in p.adj && forall x :: x in Process.Workers(s.proc) ==> !Reaches(p.adj, u, x)
    requires s.proc.pc.Selecting?
    ensures s.proc.done != []
  {
    hide Discovered, StoreInv, LogInv, FailInv, Process.DegreeInv, Process.ChannelInv, Process.ReadyInv, Process.ErrorInv, Process.CountInv, Reaches;
    HeldWaits(p, plan, s, u);
    ReachesRefl(p.adj, u);
    assert u !in Process.Workers(s.proc);
    if s.proc.done == [] {
      var x := Awaits(p, s, u);
    }
  }

  lemma Received<K(!new), R, G, C>(p: Params<K, R, G, C>, s: State<K, R, G, C>) returns (act: Process.Action<K>)
    requires Process.ChannelInv(ProcessParams(p), s.proc) && s.proc.pc.Selecting? && s.proc.done != []
    ensures Process.Enabled(ProcessParams(p), s.proc, act) && act.Receive?
  {
    hide ProcessParams;
    var q, n := ProcessParams(p), s.proc.done[0];
    assert n in s.proc.done;
    assert n in s.proc.phase.Keys;
    var order := ProcessOutcome.ListSet(set x | x in q.g[n] && x in s.proc.inDegree && s.proc.inDegree[x] == 1);
    act := Process.Receive(order);
  }

  /** While a vertex has not succeeded, and nothing failed, Process goes on. */
  lemma NotOver<K(!new), R, G, C>(p: Params<K, R, G, C>, s: State<K, R, G, C>, u: K)
    requires Discovered(p) && Process.Inv(ProcessParams(p), s.proc) && u in p.adj && !(u in s.proc.phase && Process.Succeeded(s.proc, u))
    requires !s.proc.groupDone && !s.proc.parentDone && s.proc.firstError == None
    ensures !s.proc.pc.Draining? && !s.proc.pc.Returned?
  {
    hide Process.DegreeInv, Process.ChannelInv, Process.ReadyInv, Process.ErrorInv, Process.CountInv, Acyclic;
    ConverseEdges(p.adj);
    ConverseAcyclic(p.adj);
    assert u in ProcessParams(p).g;
    if s.proc.pc.Draining? || s.proc.pc.Returned? {
      if |s.proc.taken| == |ProcessParams(p).g| {
        ProcessOutcome.NilMeaningful(ProcessParams(p), s.proc);
      } else {
        ProcMeaningful(p, s.proc);
        NotStalled(ProcessParams(p), s.proc);
      }
    }
  }

  /** Until u is at its references some gentle action is possible. */
  lemma GoesOn<K(!new), R(!new), G(!new), C(!new)>(p: Params<K, R, G, C>, plan: Plan<K, G, C>, s: State<K, R, G, C>, u: K) returns (a: Action<K, G, C>)
    requires Discovered(p) && Inv(p, s) && Process.Inv(ProcessParams(p), s.proc) && Coherent(p, s) && Setup(p, plan) && Calm(p, plan, s) && Aim(p, plan, u)
    requires !AtReferences(s, u)
    ensures Enabled(p, s, a) && Gentle(p, plan, a)
  {
    hide Discovered, Inv, Coherent, Setup, Calm, Process.Inv, Process.Enabled, Process.Workers, Startable, Untouched, Reaches;
    InvPhase(p, s);
    CoherentWorks(p, s);
    if v :| v in Process.Workers(s.proc) && Reaches(p.adj, u, v) {
      a := GoroutineGoesOn(p, plan, s, u, v);
    } else {
      var act := CoordinatorGoesOn(p, plan, s, u);
      a := Drive(act);
    }
  }

  lemma RunExtended<K(!new), R, G, C>(p: Params<K, R, G, C>, run: seq<State<K, R, G, C>>, actions: seq<Action<K, G, C>>, a: Action<K, G, C>)
    requires IsRun(p, run, actions) && Enabled(p, run[|actions|], a)
    ensures IsRun(p, run + [Next(p, run[|actions|], a)], actions + [a])
  {
    hide Init, Enabled, Next;
  }

  lemma CacheGrows<K(!new), R, G, C>(p: Params<K, R, G, C>, s: State<K, R, G, C>, a: Action<K, G, C>)
    requires Enabled(p, s, a)
    ensures Extends(s.cache, Next(p, s, a).cache) && Extends(s.store, Next(p, s, a).store)
  {
    hide DistinctHashes, AllThere, Process.Enabled, Process.Next;
  }

  lemma ExtendsTrans<K(!new), D>(a: map<K, D>, b: map<K, D>, c: map<K, D>)
    requires Extends(a, b) && Extends(b, c)
    ensures Extends(a, c)
  {
    forall k {:trigger k in c} | k in a ensures k in c && c[k] == a[k] {
      assert k in b;
    }
  }

  /** The run continued until u is at its references. */
  lemma {:induction false} Prepared<K(!new), R(!new), G(!new), C(!new)>(p: Params<K, R, G, C>, plan: Plan<K, G, C>, u: K,
      run: seq<State<K, R, G, C>>, actions: seq<Action<K, G, C>>, n: nat) returns (more: seq<State<K, R, G, C>>, steps: seq<Action<K, G, C>>)
    requires Discovered(p) && Setup(p, plan) && Aim(p, plan, u) && IsRun(p, run, actions)
    requires Calm(p, plan, run[|actions|]) && Remaining(p, run[|actions|]) <= n
    ensures IsRun(p, more, steps) && Calm(p, plan, more[|steps|]) && AtReferences(more[|steps|], u)
    ensures Extends(run[|actions|].cache, more[|steps|].cache) && Extends(run[|actions|].store, more[|steps|].store)
    decreases n
  {
    hide Discovered, Setup, Calm, Aim, Inv, Coherent, Process.Inv, IsRun, Remaining, Enabled, Next, ProcessOutcome.Ordered, ProcessOutcome.StartsWaiting, Process.Enabled, Extends;
    more, steps := run, actions;
    RunLast(p, run, actions);
    var s := run[|actions|];
    ExtendsItself(s.cache);
    ExtendsItself(s.store);
    if !AtReferences(s, u) {
      RunInv(p, run, actions, |actions|);
      InvPhase(p, s);
      var a := GoesOn(p, plan, s, u);
      CalmStep(p, plan, s, a);
      CacheGrows(p, s, a);
      ProcFacts(ProcessParams(p), s.proc);
      SpawnEnabled(p, s, a);
      RemainingDecreases(p, s, a);
      RunExtended(p, run, actions, a);
      ProcKeepsInv(p, s, a);
      InvStep(p, s, a);
      InvPhase(p, Next(p, s, a));
      RemainingNatural(p, Next(p, s, a));
      more, steps := Prepared(p, plan, u, run + [Next(p, s, a)], actions + [a], n - 1);
      RunLast(p, more, steps);
      ExtendsTrans(s.cache, Next(p, s, a).cache, more[|steps|].cache);
      ExtendsTrans(s.store, Next(p, s, a).store, more[|steps|].store);
    }
  }

  /** The same from any calm state of a run. */
  lemma LedOn<K(!new), R(!new), G(!new), C(!new)>(p: Params<K, R, G, C>, plan: Plan<K, G, C>, u: K, run: seq<State<K, R, G, C>>, actions: seq<Action<K, G, C>>)
      returns (more: seq<State<K, R, G, C>>, steps: seq<Action<K, G, C>>)
    requires Discovered(p) && Setup(p, plan) && Aim(p, plan, u) && IsRun(p, run, actions) && Calm(p, plan, run[|actions|])
    ensures IsRun(p, more, steps) && Calm(p, plan, more[|steps|]) && AtReferences(more[|steps|], u)
    ensures Extends(run[|actions|].cache, more[|steps|].cache) && Extends(run[|actions|].store, more[|steps|].store)
  {
    hide Discovered, Setup, Calm, Aim, Inv, Coherent, Process.Inv, Remaining, IsRun, Extends;
    RunLast(p, run, actions);
    RunInv(p, run, actions, |actions|);
    InvPhase(p, run[|actions|]);
    RemainingNatural(p, run[|actions|]);
    more, steps := Prepared(p, plan, u, run, actions, Remaining(p, run[|actions|]));
  }

  /** And from the start. */
  lemma Led<K(!new), R(!new), G(!new), C(!new)>(p: Params<K, R, G, C>, plan: Plan<K, G, C>, u: K) returns (run: seq<State<K, R, G, C>>, actions: seq<Action<K, G, C>>)
    requires Discovered(p) && Setup(p, plan) && Aim(p, plan, u)
    ensures IsRun(p, run, actions) && Calm(p, plan, run[|actions|]) && AtReferences(run[|actions|], u)
  {
    hide Discovered, Setup, Aim, Extends, Process.Init;
    var s := Starts(p);
    run, actions := LedOn(p, plan, u, [s], []);
  }
}
