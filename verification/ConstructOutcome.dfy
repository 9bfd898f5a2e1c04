/** What the runs of component construction (see Construct) guarantee: order and single writes in every
    run, progress and termination, and how construction continues from discovery. */
module ConstructOutcome {
  import opened Graphs
  import opened Construct
  import opened ConstructDigests
  import Process
  import ProcessOutcome
  import Discover
  import DiscoverOutcome

  // ---- every run ----

  ghost predicate IsRun<K(!new), R, G, C>(p: Params<K, R, G, C>, run: seq<State<K, R, G, C>>, actions: seq<Action<K, G, C>>) {
    && |run| == |actions| + 1 && Init(p, run[0])
    && forall i {:trigger actions[i]} :: 0 <= i < |actions| ==> Enabled(p, run[i], actions[i]) && run[i + 1] == Next(p, run[i], actions[i])
  }

  lemma SpawnEnabled<K(!new), R, G, C>(p: Params<K, R, G, C>, s: State<K, R, G, C>, a: Action<K, G, C>)
    requires Enabled(p, s, a)
    ensures a == Drive(Process.Spawn) ==> Process.Enabled(ProcessParams(p), s.proc, Process.Spawn)
  {
  }

  lemma {:induction false} RunInv<K(!new), R(!new), G(!new), C(!new)>(p: Params<K, R, G, C>, run: seq<State<K, R, G, C>>, actions: seq<Action<K, G, C>>, i: nat)
    requires Discovered(p) && IsRun(p, run, actions) && i < |run|
    ensures Process.Inv(ProcessParams(p), run[i].proc) && Inv(p, run[i]) && Coherent(p, run[i])
  {
    hide Inv, Coherent, Init, Enabled, Next, Discovered, Process.Inv, ProcessOutcome.Ordered, ProcessOutcome.StartsWaiting, Process.Enabled;
    if i == 0 {
      InvInit(p, run[0]);
      CoherentInit(p, run[0]);
    } else {
      RunInv(p, run, actions, i - 1);
      assert run[i] == Next(p, run[i - 1], actions[i - 1]);
      ProcFacts(ProcessParams(p), run[i - 1].proc);
      SpawnEnabled(p, run[i - 1], actions[i - 1]);
      ProcKeepsInv(p, run[i - 1], actions[i - 1]);
      InvStep(p, run[i - 1], actions[i - 1]);
      CoherentStep(p, run[i - 1], actions[i - 1]);
    }
  }

  /** The steps of ProcessValue never fail by themselves: no dependency is missing, no vertex unknown
      and no descriptor stored twice. */
  ghost predicate OnlyOthersFail<K(!new), R, G, C>(s: State<K, R, G, C>) {
    forall v {:trigger s.work[v]} :: v in s.work && s.work[v].Over? && s.work[v].failure.Some? ==> s.work[v].failure == Some(Other)
  }

  /** If Process has returned nil every vertex has its descriptor; it never reports a stall. */
  ghost predicate Finished<K(!new), R, G, C>(p: Params<K, R, G, C>, s: State<K, R, G, C>) {
    s.proc.pc.Returned? ==> !s.proc.pc.result.Stalled? && (s.proc.pc.result.Nil? ==> s.store.Keys == p.adj.Keys)
  }

  lemma ProcMeaningful<K(!new), R, G, C>(p: Params<K, R, G, C>, proc: Process.State<K>)
    requires Discovered(p) && Process.Inv(ProcessParams(p), proc)
    ensures ProcessOutcome.Meaningful(ProcessParams(p), proc)
  {
    hide Process.Inv, ProcessOutcome.Meaningful, Acyclic;
    ConverseEdges(p.adj);
    ProcessOutcome.InvMeaningful(ProcessParams(p), proc);
  }

  lemma InvFinished<K(!new), R, G, C>(p: Params<K, R, G, C>, s: State<K, R, G, C>)
    requires Discovered(p) && Inv(p, s) && ProcessOutcome.Meaningful(ProcessParams(p), s.proc)
    ensures Finished(p, s) && (forall v {:trigger s.store[v]} :: v in s.store ==> v in p.adj && s.store[v].id == v)
  {
    hide Process.Inv, LogInv, FailInv, Acyclic, ProcessOutcome.Meaningful;
    ConverseEdges(p.adj);
    ConverseAcyclic(p.adj);
    forall v {:trigger s.store[v]} | v in s.store ensures v in p.adj && s.store[v].id == v {
      assert v in s.work && s.work[v] == s.work[v];
    }
    if s.proc.pc.Returned? && s.proc.pc.result.Nil? { NilStoresAll(p, s); }
    NotStalled(ProcessParams(p), s.proc);
  }

  lemma NotStalled<K(!new)>(q: Process.Params<K>, a: Process.State<K>)
    requires Acyclic(q.g) && ProcessOutcome.Meaningful(q, a)
    ensures a.pc.Returned? ==> !a.pc.result.Stalled?
  {
    hide Acyclic;
  }

  lemma NilStoresAll<K(!new), R, G, C>(p: Params<K, R, G, C>, s: State<K, R, G, C>)
    requires ProcessOutcome.Meaningful(ProcessParams(p), s.proc) && s.proc.pc.Returned? && s.proc.pc.result.Nil? && PhaseInv(p, s) && StoreInv(p, s)
    ensures s.store.Keys == p.adj.Keys
  {
    hide Acyclic;
    forall v | v in p.adj ensures v in s.store {
      assert v in ProcessParams(p).g && Process.Succeeded(s.proc, v);
      assert s.proc.phase[v] != Process.Waiting;
      assert s.work[v] == Over(None);
    }
    forall v | v in s.store ensures v in p.adj {
      assert s.work[v] == s.work[v];
    }
  }

  /** In every run, whatever fails or is cancelled: a worker only fails for a reason of its
      environment; each descriptor is stored once, under its own vertex, and each component added to
      the target at most once, after everything it refers to was stored; processing never stalls, and
      when it ends without an error every vertex has its descriptor. */
  lemma ConstructionSafety<K(!new), R(!new), G(!new), C(!new)>(p: Params<K, R, G, C>, run: seq<State<K, R, G, C>>, actions: seq<Action<K, G, C>>, i: nat)
    requires Discovered(p) && IsRun(p, run, actions) && i < |run|
    ensures OnlyOthersFail(run[i]) && Finished(p, run[i])
    ensures GoodLog(p.adj, run[i].log, run[i].store.Keys, run[i].target.Keys)
    ensures forall v {:trigger run[i].store[v]} :: v in run[i].store ==> v in p.adj && run[i].store[v].id == v
  {
    hide Init, Enabled, Next, Discovered, Coherent, PhaseInv, StoreInv, Process.Inv, GoodLog, Finished;
    RunInv(p, run, actions, i);
    ProcMeaningful(p, run[i].proc);
    InvFinished(p, run[i]);
  }

  /** From discovery to construction: when Discover has returned nil on the neighbours given by the
      references, the graph it leaves is one that construction can start from. */
  lemma DiscoveredByDiscover<K(!new), R(!new), G(!new), C(!new)>(d: Discover.Params<K>, found: seq<Discover.State<K>>,
      steps: seq<Discover.Action<K>>, n: nat, p: Params<K, R, G, C>)
    requires DiscoverOutcome.IsRun(d, found, steps) && n < |found| && found[n].result == Some(false)
    requires p.adj == found[n].adj && forall k {:trigger d.next(k)} :: d.next(k) == Targets(p.refs(k))
    ensures Discovered(p)
  {
    hide Discover.Init, Discover.Enabled, Discover.Next, DiscoverOutcome.AllReturnedWell, DiscoverOutcome.IsRun,
      DiscoverOutcome.NextCycle, Discover.Reachable, Sound, Targets, Discover.CurrentState;
    DiscoverOutcome.DiscoveryComplete(d, found, steps, n);
  }

  /** Construction can start from any discovered graph. */
  lemma Starts<K(!new), R, G, C>(p: Params<K, R, G, C>) returns (s: State<K, R, G, C>)
    ensures Init(p, s) && !s.proc.groupDone
  {
    hide Process.Init;
    var proc := ProcessOutcome.Starts(ProcessParams(p));
    s := State(proc, map[], map[], map[], map[], []);
  }

  // ---- termination ----

  /** The references that are through. */
  ghost function Through<G>(parts: map<nat, Option<G>>, n: nat): set<nat> {
    set j: nat | j < n && j in parts
  }

  /** How far a worker has come; each of its actions takes it further. */
  ghost function WorkRank<K, R, G, C>(p: Params<K, R, G, C>, v: K, w: Work<K, R, G, C>): nat {
    var n := |p.refs(v)|;
    match w
    case Copying => 0
    case Loading(j, _) => if j < n then j else n
    case Checking(_) => n + 1
    case Referencing(_, parts) => n + 2 + |Through(parts, n)|
    case Publishing(_) => 2 * n + 3
    case Storing(_) => 2 * n + 4
    case Over(_) => 2 * n + 5
  }

  ghost function AllWork<K, R, G, C>(p: Params<K, R, G, C>): set<(K, nat)> {
    set v, r | v in p.adj && 0 <= r <= 2 * |p.refs(v)| + 5 :: (v, r)
  }

  ghost function WorkDone<K, R, G, C>(p: Params<K, R, G, C>, s: State<K, R, G, C>): set<(K, nat)> {
    set v, r | v in s.work && 0 <= r <= WorkRank(p, v, s.work[v]) :: (v, r)
  }

  /** An upper bound on the number of actions still possible. */
  ghost function Remaining<K(!new), R, G, C>(p: Params<K, R, G, C>, s: State<K, R, G, C>): int {
    ProcessOutcome.Measure(ProcessParams(p), s.proc) + |AllWork(p)| - |WorkDone(p, s)|
  }

  lemma {:induction false} CountUpTo(s: set<nat>, n: nat)
    requires forall j :: j in s ==> j < n
    ensures |s| <= n
  {
    if n > 0 {
      CountUpTo(s - {n - 1}, n - 1);
    } else {
      assert s == {};
    }
  }

  lemma RankBounded<K, R, G, C>(p: Params<K, R, G, C>, v: K, w: Work<K, R, G, C>)
    ensures WorkRank(p, v, w) <= 2 * |p.refs(v)| + 5
    ensures w.Referencing? ==> WorkRank(p, v, w) <= 2 * |p.refs(v)| + 2
  {
    if w.Referencing? { CountUpTo(Through(w.parts, |p.refs(v)|), |p.refs(v)|); }
  }

  lemma WorkBounded<K(!new), R, G, C>(p: Params<K, R, G, C>, s: State<K, R, G, C>)
    requires PhaseInv(p, s)
    ensures |WorkDone(p, s)| <= |AllWork(p)|
  {
    hide WorkRank;
    forall v, r | v in s.work && 0 <= r <= WorkRank(p, v, s.work[v]) ensures (v, r) in AllWork(p) {
      RankBounded(p, v, s.work[v]);
      assert v in s.proc.phase.Keys;
    }
    SubsetSize(WorkDone(p, s), AllWork(p));
  }

  /** The action is one of a worker: whose. */
  function WorkerOf<K, G, C>(a: Action<K, G, C>): Option<K> {
    match a
    case Drive(_) => None
    case Return(_) => None
    case _ => Some(a.v)
  }

  lemma RankGrows<K(!new), R, G, C>(p: Params<K, R, G, C>, s: State<K, R, G, C>, a: Action<K, G, C>, v: K)
    requires Enabled(p, s, a) && WorkerOf(a) == Some(v)
    ensures var t := Next(p, s, a);
      t.proc == s.proc && v in s.work && v in t.work && t.work == s.work[v := t.work[v]] && WorkRank(p, v, s.work[v]) < WorkRank(p, v, t.work[v])
  {
    hide DistinctHashes, AllThere, Through;
    if a.Refer? {
      ReferRankGrows(p, s, v, a.j, a.ok);
    } else {
      if a.Assemble? { RankBounded(p, v, s.work[v]); }
    }
  }

  lemma ReferRankGrows<K(!new), R, G, C>(p: Params<K, R, G, C>, s: State<K, R, G, C>, v: K, j: nat, ok: bool)
    requires Enabled(p, s, Refer(v, j, ok))
    ensures var t := Next(p, s, Refer(v, j, ok));
      t.proc == s.proc && v in s.work && v in t.work && t.work == s.work[v := t.work[v]] && WorkRank(p, v, s.work[v]) < WorkRank(p, v, t.work[v])
  {
    hide DistinctHashes, AllThere, Through;
    ThroughGrows(s.work[v].parts, j, Next(p, s, Refer(v, j, ok)).work[v].parts, |p.refs(v)|);
  }

  lemma ThroughGrows<G>(parts: map<nat, Option<G>>, j: nat, more: map<nat, Option<G>>, n: nat)
    requires j < n && j !in parts && j in more && more == parts[j := more[j]]
    ensures |Through(more, n)| == |Through(parts, n)| + 1
  {
    assert Through(more, n) == Through(parts, n) + {j};
  }

  lemma WorkGrows<K(!new), R, G, C>(p: Params<K, R, G, C>, s: State<K, R, G, C>, t: State<K, R, G, C>, v: K)
    requires v in t.work && t.work == s.work[v := t.work[v]] && (v in s.work ==> WorkRank(p, v, s.work[v]) < WorkRank(p, v, t.work[v]))
    ensures |WorkDone(p, s)| < |WorkDone(p, t)|
  {
    hide WorkRank;
    var x := (v, WorkRank(p, v, t.work[v]));
    assert x in WorkDone(p, t) && x !in WorkDone(p, s);
    assert WorkDone(p, s) + {x} <= WorkDone(p, t);
    SubsetSize(WorkDone(p, s) + {x}, WorkDone(p, t));
  }

  lemma SameWork<K(!new), R, G, C>(p: Params<K, R, G, C>, s: State<K, R, G, C>, t: State<K, R, G, C>)
    requires t.work == s.work
    ensures WorkDone(p, t) == WorkDone(p, s)
  {
  }

  /** Every action leaves fewer possible. */
  lemma RemainingDecreases<K(!new), R, G, C>(p: Params<K, R, G, C>, s: State<K, R, G, C>, a: Action<K, G, C>)
    requires Process.Inv(ProcessParams(p), s.proc) && PhaseInv(p, s) && Enabled(p, s, a)
    requires a == Drive(Process.Spawn) ==> ProcessOutcome.StartsWaiting(s.proc)
    ensures Remaining(p, Next(p, s, a)) < Remaining(p, s)
  {
    hide Process.Inv, Process.Enabled, Process.Next, ProcessOutcome.Measure, WorkDone, AllWork, WorkRank, DistinctHashes, AllThere;
    var t := Next(p, s, a);
    match a
    case Drive(act) =>
      ProcessOutcome.MeasureDecreases(ProcessParams(p), s.proc, act);
      if act.Spawn? {
        EnabledSpawn(ProcessParams(p), s.proc);
        WorkGrows(p, s, t, s.proc.ready[s.proc.pc.i]);
      } else {
        SameWork(p, s, t);
      }
    case Return(v) =>
      ReturnEnabled(p, s, v);
      ProcessOutcome.MeasureDecreases(ProcessParams(p), s.proc, if s.work[v].failure.None? then Process.Succeed(v) else Process.Fail(v));
      SameWork(p, s, t);
    case _ =>
      RankGrows(p, s, a, a.v);
      WorkGrows(p, s, t, a.v);
  }

  lemma ReturnEnabled<K(!new), R, G, C>(p: Params<K, R, G, C>, s: State<K, R, G, C>, v: K)
    requires Enabled(p, s, Return(v))
    ensures Process.Enabled(ProcessParams(p), s.proc, if s.work[v].failure.None? then Process.Succeed(v) else Process.Fail(v))
  {
  }

  lemma {:induction false} RemainingDrops<K(!new), R(!new), G(!new), C(!new)>(p: Params<K, R, G, C>, run: seq<State<K, R, G, C>>,
      actions: seq<Action<K, G, C>>, i: nat)
    requires Discovered(p) && IsRun(p, run, actions) && i < |run|
    ensures Remaining(p, run[i]) <= Remaining(p, run[0]) - i
  {
    hide Inv, Coherent, Init, Enabled, Next, Discovered, Process.Inv, Process.Enabled, ProcessOutcome.Ordered, ProcessOutcome.StartsWaiting, Remaining;
    if i > 0 {
      RemainingDrops(p, run, actions, i - 1);
      RunInv(p, run, actions, i - 1);
      assert run[i] == Next(p, run[i - 1], actions[i - 1]);
      ProcFacts(ProcessParams(p), run[i - 1].proc);
      SpawnEnabled(p, run[i - 1], actions[i - 1]);
      InvPhase(p, run[i - 1]);
      RemainingDecreases(p, run[i - 1], actions[i - 1]);
    }
  }

  lemma InvPhase<K(!new), R, G, C>(p: Params<K, R, G, C>, s: State<K, R, G, C>)
    requires Inv(p, s)
    ensures PhaseInv(p, s)
  {
  }

  lemma RemainingNatural<K(!new), R, G, C>(p: Params<K, R, G, C>, s: State<K, R, G, C>)
    requires Process.Inv(ProcessParams(p), s.proc) && PhaseInv(p, s)
    ensures Remaining(p, s) >= 0
  {
    hide Process.Inv, PhaseInv, ProcessOutcome.Measure, WorkDone, AllWork;
    ProcessOutcome.MeasureNatural(ProcessParams(p), s.proc);
    WorkBounded(p, s);
  }

  // ---- progress ----

  /** A worker whose vertex is being processed can act. */
  lemma WorkerActs<K(!new), R(!new), G(!new), C(!new)>(p: Params<K, R, G, C>, s: State<K, R, G, C>, v: K, content: C) returns (a: Action<K, G, C>)
    requires WorksCoherent(p, s) && Doing(s, v)
    ensures Enabled(p, s, a) && !a.Drive?
  {
    hide WorksCoherent, NamedLast, Named, PartsKnown;
    match s.work[v]
    case Loading(_, _) => a := Load(v);
    case Checking(_) => a := Check(v, Proceed);
    case Copying => a := Copy(v, true, Descriptor(v, [], content));
    case Publishing(_) => a := Publish(v, true);
    case Storing(_) => a := Store(v);
    case Over(_) => a := Return(v);
    case Referencing(loaded, parts) =>
      if j: nat :| j < |p.refs(v)| && j !in parts {
        FoundFor(p, s, v, j);
        a := Refer(v, j, true);
      } else {
        a := Assemble(v, true, content);
      }
  }

  /** Until Process has returned, a worker, its goroutine or the coordinator can act, whether or not
      anything is cancelled: neither loading nor the digest cache ever blocks for good. */
  lemma ConstructionProgress<K(!new), R(!new), G(!new), C(!new)>(p: Params<K, R, G, C>, run: seq<State<K, R, G, C>>,
      actions: seq<Action<K, G, C>>, content: C) returns (a: Action<K, G, C>)
    requires Discovered(p) && IsRun(p, run, actions) && !run[|actions|].proc.pc.Returned?
    ensures Enabled(p, run[|actions|], a) && a != Drive(Process.ParentCancel)
  {
    hide Init, Discovered, Inv, Coherent, Process.Inv, Process.Enabled, Process.Next, IsRun;
    RunLast(p, run, actions);
    RunInv(p, run, actions, |actions|);
    var s := run[|actions|];
    var act := ProcessOutcome.Progress(ProcessParams(p), s.proc);
    if act.Succeed? || act.Fail? {
      WorkingDone(p, s, act);
      CoherentWorks(p, s);
      a := WorkerActs(p, s, act.v, content);
    } else {
      a := Drive(act);
    }
  }

  lemma RunLast<K(!new), R, G, C>(p: Params<K, R, G, C>, run: seq<State<K, R, G, C>>, actions: seq<Action<K, G, C>>)
    requires IsRun(p, run, actions)
    ensures |run| == |actions| + 1
  {
  }

  lemma CoherentWorks<K(!new), R(!new), G(!new), C(!new)>(p: Params<K, R, G, C>, s: State<K, R, G, C>)
    requires Coherent(p, s)
    ensures WorksCoherent(p, s)
  {
  }

  lemma WorkingDone<K(!new), R, G, C>(p: Params<K, R, G, C>, s: State<K, R, G, C>, act: Process.Action<K>)
    requires Inv(p, s) && Process.Enabled(ProcessParams(p), s.proc, act) && (act.Succeed? || act.Fail?)
    ensures Doing(s, act.v)
  {
    hide StoreInv, LogInv, FailInv;
  }

  /** Construction terminates: no run takes more than a number of actions fixed by the graph and the
      references, and by ConstructionProgress every run can be continued until Process returns. */
  lemma ConstructionTerminates<K(!new), R(!new), G(!new), C(!new)>(p: Params<K, R, G, C>, run: seq<State<K, R, G, C>>, actions: seq<Action<K, G, C>>)
    requires Discovered(p) && IsRun(p, run, actions)
    ensures |actions| <= Remaining(p, run[0])
  {
    hide Init, Discovered, Inv, Coherent, Process.Inv, IsRun, Remaining;
    RunLast(p, run, actions);
    RemainingDrops(p, run, actions, |actions|);
    RunInv(p, run, actions, |actions|);
    InvPhase(p, run[|actions|]);
    RemainingNatural(p, run[|actions|]);
  }
}
