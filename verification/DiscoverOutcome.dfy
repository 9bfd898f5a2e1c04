/** What the runs of concurrent discovery (see Discover) guarantee: single resolution, complete results,
    no deadlock, termination, and when an error is returned. */
module DiscoverOutcome {
  import opened Graphs
  import opened Discover

  // ---- every run keeps the invariant ----

  lemma InvStep<K(!new)>(p: Params<K>, s: State<K>, a: Action<K>)
    requires Inv(p, s) && Enabled(p, s, a)
    ensures Inv(p, Next(p, s, a))
  {
    hide Inv, Step, Enabled, Next;
    if Caller(a).Some? {
      ActionSteps(p, s, a, Caller(a).value);
      InvParts(p, s, a);
      CallKeepsInv(p, s, Next(p, s, a), Caller(a).value);
    } else {
      OtherStep(p, s, a);
    }
  }

  lemma InvInit<K(!new)>(p: Params<K>, s: State<K>)
    requires Init(p, s)
    ensures Inv(p, s)
  {
    hide Acyclic;
    assert Acyclic(s.adj) by { NoEdgesAcyclic(s.adj); }
    forall c {:trigger s.pcs[c]} | c in s.pcs && ValidCall(p, c) ensures Reachable(p, Key(p, c)) {
      assert LeadsTo(p, [Key(p, c)], Key(p, c));
    }
    forall j {:trigger s.born[j]} | 0 <= j < |s.born| ensures s.born[j].Root? {
      assert s.born[j] in s.born;
    }
  }

  lemma NoEdgesAcyclic<K(!new)>(g: map<K, set<K>>)
    requires g == map[]
    ensures Acyclic(g)
  {
    forall c: seq<K> | IsCycle(g, c) ensures false { CycleInGraph(g, c); }
  }

  ghost predicate IsRun<K(!new)>(p: Params<K>, run: seq<State<K>>, actions: seq<Action<K>>) {
    && |run| == |actions| + 1 && Init(p, run[0])
    && forall i {:trigger actions[i]} :: 0 <= i < |actions| ==> Enabled(p, run[i], actions[i]) && run[i + 1] == Next(p, run[i], actions[i])
  }

  lemma {:induction false} RunInv<K(!new)>(p: Params<K>, run: seq<State<K>>, actions: seq<Action<K>>, i: nat)
    requires IsRun(p, run, actions) && i < |run|
    ensures Inv(p, run[i])
  {
    hide Inv, Init, Enabled, Next;
    if i == 0 {
      InvInit(p, run[0]);
    } else {
      RunInv(p, run, actions, i - 1);
      assert run[i] == Next(p, run[i - 1], actions[i - 1]);
      InvStep(p, run[i - 1], actions[i - 1]);
    }
  }

  // ---- each key is resolved once, and its state only moves forward ----

  predicate StateMoves(a: DiscoveryState, b: DiscoveryState) {
    match a
    case Unknown => b == Unknown || b == Discovering
    case Discovering => b == Discovering || b == Discovered || b == Error
    case Discovered => b == Discovered || b == Completed || b == Error
    case _ => b == a
  }

  lemma ChangesOwnState<K(!new)>(p: Params<K>, s: State<K>, t: State<K>, c: Call<K>)
    requires Inv(p, s) && Step(p, s, t, c) && Owning(s.pcs[c])
    requires s.pcs[c].Linking? ==> t.pcs[c].Linking? || t.pcs[c].Joining?
    requires s.pcs[c].Adding? ==> t.pcs[c].Resolving?
    requires s.pcs[c].Closing? ==> t.pcs[c] == Back(s.pcs[c].bad)
    requires s.pcs[c].Resolving? ==> t.pcs[c] == Listing || t.pcs[c] == Closing(true)
    requires s.pcs[c].Joining? || s.pcs[c].Listing? ==> Owning(t.pcs[c]) && !t.pcs[c].Adding? && !t.pcs[c].Resolving?
    ensures StateMoves(CurrentState(s, Key(p, c)), CurrentState(t, Key(p, c)))
  {
    hide GraphInv, EdgeInv, ChildInv, VertexInv, BornInv, ResultInv, ResolvedInv, ReachInv, CallStep, OwnerStays,
      EdgesGrow, ResolvedGrows, Progressed, OwnerInv, StateInv;
    OwnedVertex(p, s, c);
  }

  lemma OwnStateMoves<K(!new)>(p: Params<K>, s: State<K>, a: Action<K>, c: Call<K>)
    requires Inv(p, s) && Enabled(p, s, a) && Caller(a) == Some(c) && c in s.pcs && Owning(s.pcs[c])
    ensures ValidCall(p, c) && StateMoves(CurrentState(s, Key(p, c)), CurrentState(Next(p, s, a), Key(p, c)))
  {
    hide GraphInv, OwnerInv, ChildInv, EdgeInv, VertexInv, BornInv, ResultInv, ResolvedInv, ReachInv, StateInv,
      CallStep, OwnerStays, EdgesGrow, ResolvedGrows, Progressed, StatesStay, StateMoves;
    ActionSteps(p, s, a, c);
    ChangesOwnState(p, s, Next(p, s, a), c);
  }

  lemma OtherStatesStay<K(!new)>(p: Params<K>, s: State<K>, t: State<K>, c: Call<K>, k: K)
    requires Step(p, s, t, c) && !(k == Key(p, c) && Owning(s.pcs[c]))
    ensures CurrentState(t, k) == CurrentState(s, k)
  {
  }

  lemma StateMovesForward<K(!new)>(p: Params<K>, s: State<K>, a: Action<K>, k: K)
    requires Inv(p, s) && Enabled(p, s, a)
    ensures StateMoves(CurrentState(s, k), CurrentState(Next(p, s, a), k))
  {
    hide Inv, CallStep, OwnerStays, EdgesGrow, ResolvedGrows, Progressed, StatesStay;
    if Caller(a).Some? {
      var c := Caller(a).value;
      ActionSteps(p, s, a, c);
      if k == Key(p, c) && Owning(s.pcs[c]) {
        OwnStateMoves(p, s, a, c);
      } else {
        OtherStatesStay(p, s, Next(p, s, a), c, k);
      }
    }
  }

  /** In every run a key is resolved at most once and its state only moves forward: Unknown,
      Discovering, Discovered, then Completed, or Error from either of the last two. */
  lemma DiscoverySafety<K(!new)>(p: Params<K>, run: seq<State<K>>, actions: seq<Action<K>>, i: nat, k: K)
    requires IsRun(p, run, actions) && i < |run|
    ensures Distinct(run[i].resolved) && Acyclic(run[i].adj)
    ensures i + 1 < |run| ==> StateMoves(CurrentState(run[i], k), CurrentState(run[i + 1], k))
  {
    hide Init, Enabled, Next, StateMoves, CurrentState;
    RunInv(p, run, actions, i);
    InvMeans(p, run[i]);
    if i + 1 < |run| {
      assert run[i + 1] == Next(p, run[i], actions[i]);
      StateMovesForward(p, run[i], actions[i], k);
    }
  }

  lemma InvMeans<K(!new)>(p: Params<K>, s: State<K>)
    requires Inv(p, s)
    ensures Distinct(s.resolved) && Sound(s.adj)
  {
    hide OwnerInv, ChildInv, EdgeInv, VertexInv, BornInv, ResultInv, ReachInv, StateInv;
  }

  // ---- what a run without an error has found ----

  /** Exactly the keys reachable from the roots, each with exactly its neighbours, all completed,
      each resolved, and no cycle. */
  ghost predicate Complete<K(!new)>(p: Params<K>, s: State<K>) {
    && (forall k {:trigger k in s.adj} :: k in s.adj <==> Reachable(p, k))
    && (forall k {:trigger s.adj[k]} :: k in s.adj ==> forall n {:trigger n in s.adj[k]} :: n in s.adj[k] <==> n in p.next(k))
    && (forall k {:trigger k in s.adj} :: k in s.adj ==> CurrentState(s, k) == Completed)
    && (forall k {:trigger k in s.resolved} :: k in s.resolved <==> k in s.adj) && Distinct(s.resolved)
    && Sound(s.adj)
  }

  ghost predicate AllReturnedWell<K(!new)>(s: State<K>) {
    forall c: Call<K> {:trigger s.pcs[c]} :: c in s.pcs ==> s.pcs[c] == Back(false)
  }

  lemma {:induction false} BornWell<K(!new)>(p: Params<K>, s: State<K>, j: nat)
    requires OwnerInv(p, s) && ChildInv(p, s) && EdgeInv(p, s) && BornInv(p, s) && ResultInv(p, s) && s.result == Some(false) && j < |s.born|
    ensures At(s, s.born[j], Back(false))
  {
    hide HasEdge, Past;
    var c := s.born[j];
    assert c in s.born;
    assert s.pcs[c] == s.pcs[c] && ValidCall(p, c);
    if c.Child? {
      var o := s.owner[c.parent];
      assert o in s.born[..j];
      var m :| 0 <= m < j && s.born[m] == o;
      BornWell(p, s, m);
      assert Progressed(p, s, c.parent, PcOf(s, c.parent));
      assert c == Child(c.parent, c.i);
    }
  }

  lemma NilMeansWell<K(!new)>(p: Params<K>, s: State<K>)
    requires Inv(p, s) && s.result == Some(false)
    ensures AllReturnedWell(s)
  {
    hide GraphInv, OwnerInv, ChildInv, EdgeInv, VertexInv, ResultInv, ResolvedInv, ReachInv, StateInv, At;
    forall c {:trigger s.pcs[c]} | c in s.pcs ensures s.pcs[c] == Back(false) {
      assert c in s.born;
      var j :| 0 <= j < |s.born| && s.born[j] == c;
      BornWell(p, s, j);
      AtMeans(s, c, Back(false));
    }
  }

  lemma AtMeans<K>(s: State<K>, c: Call<K>, pc: Pc)
    requires At(s, c, pc)
    ensures c in s.pcs && s.pcs[c] == pc
  {
  }

  /** When all is well an owned key has all its neighbours owned and is completed. */
  lemma OwnedWell<K(!new)>(p: Params<K>, s: State<K>, k: K)
    requires OwnerInv(p, s) && EdgeInv(p, s) && ChildInv(p, s) && StateInv(p, s) && ResolvedInv(p, s) && AllReturnedWell(s) && k in s.owner
    ensures k in s.adj && CurrentState(s, k) == Completed && k in s.resolved
    ensures forall n {:trigger n in p.next(k)} :: n in p.next(k) ==> n in s.owner && HasEdge(s.adj, k, n)
  {
    hide HasEdge, Past, ResolvedInv;
    assert s.owner[k] in s.pcs;
    assert PcOf(s, k) == Back(false);
    assert AllWell(p, s, k) by { assert Progressed(p, s, k, PcOf(s, k)); }
    ResolvedNow(p, s, k);
    forall n {:trigger n in p.next(k)} | n in p.next(k) ensures n in s.owner && HasEdge(s.adj, k, n) {
      var i: nat :| i < |p.next(k)| && p.next(k)[i] == n;
      assert At(s, Child(k, i), Back(false));
      assert s.pcs[Child(k, i)] == Back(false) && Key(p, Child(k, i)) == n;
    }
  }

  lemma {:induction false} ReachableOwned<K(!new)>(p: Params<K>, s: State<K>, q: seq<K>, k: K)
    requires OwnerInv(p, s) && EdgeInv(p, s) && ChildInv(p, s) && StateInv(p, s) && ResolvedInv(p, s) && AllReturnedWell(s)
    requires LeadsTo(p, q, k)
    ensures k in s.owner
  {
    hide EdgeInv, StateInv, ResolvedInv;
    if |q| == 1 {
      var r: nat :| r < |p.roots| && p.roots[r] == k;
      assert Root(r) in s.pcs;
      assert s.pcs[Root(r)] == Back(false) && Key(p, Root(r)) == k;
    } else {
      var l := q[|q| - 2];
      assert q[..|q| - 1][|q| - 2] == l;
      assert LeadsTo(p, q[..|q| - 1], l) by {
        assert forall i {:trigger q[..|q| - 1][i]} :: 0 < i < |q| - 1 ==> q[..|q| - 1][i] == q[i];
      }
      ReachableOwned(p, s, q[..|q| - 1], l);
      OwnedWell(p, s, l);
      assert q[|q| - 1] in p.next(l);
    }
  }

  lemma NilMeansOwned<K(!new)>(p: Params<K>, s: State<K>, k: K)
    requires Inv(p, s) && s.result == Some(false)
    ensures k in s.adj <==> Reachable(p, k)
    ensures k in s.resolved ==> k in s.adj
    ensures k in s.adj ==> CurrentState(s, k) == Completed && k in s.resolved && forall n {:trigger n in p.next(k)} :: n in p.next(k) ==> HasEdge(s.adj, k, n)
  {
    hide GraphInv, OwnerInv, EdgeInv, ChildInv, VertexInv, BornInv, ResultInv, StateInv, LeadsTo, CurrentState, ResolvedInv, HasEdge;
    NilMeansWell(p, s);
    ResolvedNow(p, s, k);
    if Reachable(p, k) {
      var q :| LeadsTo(p, q, k);
      ReachableOwned(p, s, q, k);
    }
    if k in s.owner { OwnedWell(p, s, k); }
  }

  lemma NilMeansComplete<K(!new)>(p: Params<K>, s: State<K>)
    requires Inv(p, s) && s.result == Some(false)
    ensures p.roots != [] && Complete(p, s)
  {
    hide OwnerInv, ChildInv, VertexInv, BornInv, StateInv, Reachable, Sound, ReachInv, Progressed, PcOf;
    InvMeans(p, s);
    forall k ensures k in s.adj <==> Reachable(p, k)
      ensures k in s.resolved ==> k in s.adj
      ensures k in s.adj ==> CurrentState(s, k) == Completed && k in s.resolved && forall n {:trigger n in p.next(k)} :: n in p.next(k) ==> HasEdge(s.adj, k, n)
    {
      NilMeansOwned(p, s, k);
    }
    forall k, n {:trigger n in s.adj[k]} | k in s.adj ensures n in s.adj[k] <==> n in p.next(k) {
      assert n in s.adj[k] ==> HasEdge(s.adj, k, n);
    }
  }

  /** A chain of neighbours from a reachable key back to itself. */
  ghost predicate NextCycle<K(!new)>(p: Params<K>, q: seq<K>) {
    && |q| > 1 && q[0] == q[|q| - 1] && Reachable(p, q[0])
    && forall i {:trigger q[i]} :: 0 < i < |q| ==> q[i] in p.next(q[i - 1])
  }

  lemma {:induction false} ChainReachable<K(!new)>(p: Params<K>, q: seq<K>, i: nat)
    requires NextCycle(p, q) && i < |q|
    ensures Reachable(p, q[i])
  {
    hide Reachable;
    if i > 0 {
      ChainReachable(p, q, i - 1);
      NextReachable(p, q[i - 1], q[i]);
    }
  }

  lemma CycleFound<K(!new)>(p: Params<K>, g: map<K, set<K>>, q: seq<K>)
    requires NextCycle(p, q)
    requires forall k, n {:trigger HasEdge(g, k, n)} :: Reachable(p, k) && n in p.next(k) ==> HasEdge(g, k, n)
    ensures IsCycle(g, q)
  {
    hide Reachable;
    forall i | 0 <= i < |q| - 1 ensures EdgeAt(g, q, i) {
      ChainReachable(p, q, i);
      assert q[i + 1] in p.next(q[i]);
      assert HasEdge(g, q[i], q[i + 1]);
    }
  }

  lemma CompleteHasNoCycle<K(!new)>(p: Params<K>, s: State<K>)
    requires Complete(p, s)
    ensures forall q: seq<K> :: !NextCycle(p, q)
  {
    hide Reachable, NextCycle;
    forall q: seq<K> ensures !NextCycle(p, q) {
      if NextCycle(p, q) { CycleFound(p, s.adj, q); }
    }
  }

  /** If Discover returns nil it has found everything reachable, all its own edges and no more; so it
      never returns nil when a cycle is reachable or a call failed. */
  lemma DiscoveryComplete<K(!new)>(p: Params<K>, run: seq<State<K>>, actions: seq<Action<K>>, i: nat)
    requires IsRun(p, run, actions) && i < |run| && run[i].result == Some(false)
    ensures p.roots != [] && Complete(p, run[i]) && AllReturnedWell(run[i])
    ensures forall q: seq<K> :: !NextCycle(p, q)
  {
    hide Inv, Init, Enabled, Next, Complete, NextCycle;
    RunInv(p, run, actions, i);
    NilMeansComplete(p, run[i]);
    NilMeansWell(p, run[i]);
    CompleteHasNoCycle(p, run[i]);
  }

  // ---- no deadlock ----

  /** An action discovery can take by itself: no context needs to be cancelled for it. */
  predicate OwnAction<K>(a: Action<K>) {
    !a.Propagate? && !a.CallerCancels? && !a.WaitCancelled?
  }

  ghost function Unfinished<K(!new)>(s: State<K>): set<K> {
    set k | k in s.owner && k !in s.closed
  }

  /** A call that does not wait for a running owner or for its own neighbours can act. */
  lemma CallActs<K(!new)>(p: Params<K>, s: State<K>, c: Call<K>) returns (a: Action<K>)
    requires Inv(p, s) && c in s.pcs && !s.pcs[c].Back?
    requires s.pcs[c].Waiting? ==> ValidCall(p, c) && Key(p, c) in s.closed
    requires s.pcs[c].Joining? ==> ValidCall(p, c) && ChildrenBack(s, Key(p, c))
    ensures OwnAction(a) && Enabled(p, s, a)
  {
    hide GraphInv, ChildInv, EdgeInv, VertexInv, BornInv, ResultInv, ResolvedInv, ReachInv, ChildrenBack, OwnerInv, StateInv;
    CallsValid(p, s);
    assert ValidCall(p, c) by { assert s.pcs[c] == s.pcs[c]; }
    match s.pcs[c]
    case Entering => a := Enter(c);
    case Claiming => a := Claim(c);
    case Waiting => a := WaitDone(c);
    case Adding => a := Add(c);
    case Resolving => a := Resolve(c, true);
    case Listing => a := List(c, true);
    case Linking(i) =>
      OwnedVertex(p, s, c);
      a := if i < |p.next(Key(p, c))| then Link(c) else EndLoop(c);
    case Joining(_) => a := Join(c);
    case Closing(_) => a := Close(c);
  }

  lemma OwnersWork<K(!new)>(p: Params<K>, s: State<K>, c: Call<K>)
    requires OwnerInv(p, s) && c in s.pcs
    ensures ValidCall(p, c)
    ensures Owning(s.pcs[c]) ==> Key(p, c) in Unfinished(s) && s.owner[Key(p, c)] == c
    ensures s.pcs[c].Waiting? ==> Key(p, c) in s.closed || Key(p, c) in Unfinished(s)
  {
    assert s.pcs[c] == s.pcs[c];
  }

  lemma ChildEdge<K(!new)>(p: Params<K>, s: State<K>, k: K, i: nat)
    requires ChildInv(p, s) && Child(k, i) in s.pcs
    ensures i < |p.next(k)| && HasEdge(s.adj, k, p.next(k)[i])
  {
    hide HasEdge, Past;
  }

  lemma WorkRemains<K(!new)>(p: Params<K>, s: State<K>, k: K)
    requires OwnerInv(p, s) && k in Unfinished(s)
    ensures s.owner[k] in s.pcs && Owning(s.pcs[s.owner[k]]) && ValidCall(p, s.owner[k]) && Key(p, s.owner[k]) == k
  {
  }

  lemma RootCall<K(!new)>(p: Params<K>, s: State<K>) returns (c: Call<K>)
    requires ChildInv(p, s) && s.result == None && !Enabled(p, s, Finish)
    ensures c in s.pcs && !s.pcs[c].Back?
  {
    c :| c.Root? && c.r < |p.roots| && !(c in s.pcs && s.pcs[c].Back?);
  }

  /** Discovery never deadlocks: until Discover has returned some action is possible, whether or not
      any context is cancelled. The edge of a waiting call was added before the call, so the owners
      that wait for each other follow the edges of an acyclic graph, and the last of them can act. */
  lemma NoDeadlock<K(!new)>(p: Params<K>, s: State<K>) returns (a: Action<K>)
    requires Inv(p, s) && s.result == None
    ensures OwnAction(a) && Enabled(p, s, a)
  {
    hide GraphInv, OwnerInv, ChildInv, EdgeInv, VertexInv, BornInv, ResultInv, ResolvedInv, ReachInv, StateInv, Enabled, HasEdge, Sound;
    InvMeans(p, s);
    if Unfinished(s) == {} {
      if Enabled(p, s, Finish) {
        a := Finish;
      } else {
        var c := RootCall(p, s);
        OwnersWork(p, s, c);
        a := CallActs(p, s, c);
      }
    } else {
      SoundMeans(s.adj);
      var k := MaximalMember(s.adj, Unfinished(s));
      WorkRemains(p, s, k);
      var o := s.owner[k];
      if s.pcs[o].Joining? && !ChildrenBack(s, k) {
        var i: nat :| Child(k, i) in s.pcs && !s.pcs[Child(k, i)].Back?;
        ChildEdge(p, s, k, i);
        OwnersWork(p, s, Child(k, i));
        a := CallActs(p, s, Child(k, i));
      } else {
        a := CallActs(p, s, o);
      }
    }
  }

  lemma SoundMeans<K(!new)>(g: map<K, set<K>>)
    requires Sound(g)
    ensures Closed(g) && Acyclic(g)
  {
  }

  // ---- runs in which nothing fails ----

  predicate Harmless<K>(a: Action<K>) {
    !a.CallerCancels? && (a.Resolve? || a.List? ==> a.ok)
  }

  ghost predicate Calm<K(!new)>(s: State<K>) {
    s.cancelled == {} && forall c {:trigger s.pcs[c]} :: c in s.pcs ==> !Bad(s.pcs[c])
  }

  lemma ChainCloses<K(!new)>(p: Params<K>, g: map<K, set<K>>, k: K, w: seq<K>)
    requires Reachable(p, k) && IsPath(g, w) && w[|w| - 1] == k && w[0] in p.next(k)
    requires forall x, y {:trigger HasEdge(g, x, y)} :: HasEdge(g, x, y) ==> y in p.next(x)
    ensures NextCycle(p, [k] + w)
  {
    hide Reachable;
    var q := [k] + w;
    forall i {:trigger q[i]} | 0 < i < |q| ensures q[i] in p.next(q[i - 1]) {
      if i > 1 { assert EdgeAt(g, w, i - 2); }
    }
  }

  /** Where no cycle can be reached, no edge to a neighbour is rejected. */
  lemma NextAdmitted<K(!new)>(p: Params<K>, s: State<K>, k: K, n: K)
    requires GraphInv(p, s) && EdgeInv(p, s) && ReachInv(p, s) && k in s.adj && n in p.next(k)
    requires forall q: seq<K> :: !NextCycle(p, q)
    ensures Admitted(WithVertex(s.adj, n), k, n)
  {
    hide Sound, Progressed, PcOf, NextCycle, Reachable;
    var g := WithVertex(s.adj, n);
    VertexEdges(s.adj, n);
    if k == n {
      ChainCloses(p, g, k, [k]);
    } else if Reaches(g, n, k) {
      var w: seq<K> :| PathFromTo(g, w, n, k);
      ChainCloses(p, g, k, w);
    }
  }

  lemma CalmLink<K(!new)>(p: Params<K>, s: State<K>, c: Call<K>)
    requires Inv(p, s) && Enabled(p, s, Link(c)) && forall q: seq<K> :: !NextCycle(p, q)
    ensures Next(p, s, Link(c)).pcs[c].Linking? && Next(p, s, Link(c)).cancelled == s.cancelled
    ensures forall d {:trigger Next(p, s, Link(c)).pcs[d]} :: d in Next(p, s, Link(c)).pcs ==> Bad(Next(p, s, Link(c)).pcs[d]) ==> d in s.pcs && s.pcs[d] == Next(p, s, Link(c)).pcs[d]
  {
    hide OwnerInv, ChildInv, VertexInv, BornInv, ResultInv, ResolvedInv, StateInv, GraphInv, EdgeInv, ReachInv, Admitted, NextCycle;
    NewCallLater(p, s, c);
    NextAdmitted(p, s, Key(p, c), p.next(Key(p, c))[s.pcs[c].i]);
  }

  lemma CalmOne<K(!new)>(s: State<K>, t: State<K>, c: Call<K>)
    requires Calm(s) && c in t.pcs && !Bad(t.pcs[c]) && t.pcs == s.pcs[c := t.pcs[c]] && t.cancelled == s.cancelled
    ensures Calm(t)
  {
  }

  lemma NotBad<K(!new)>(s: State<K>, c: Call<K>)
    requires Calm(s) && c in s.pcs
    ensures !Bad(s.pcs[c])
  {
  }

  lemma NoChildFailed<K(!new)>(s: State<K>, k: K)
    requires Calm(s)
    ensures !ChildFailed(s, k)
  {
  }

  lemma CalmStep<K(!new)>(p: Params<K>, s: State<K>, a: Action<K>)
    requires Inv(p, s) && Enabled(p, s, a) && Harmless(a) && Calm(s) && forall q: seq<K> :: !NextCycle(p, q)
    ensures Calm(Next(p, s, a))
  {
    hide Inv, Calm, NextCycle, Admitted, ChildFailed, ChildrenBack;
    CalmMeans(s);
    var t := Next(p, s, a);
    if a.Link? {
      CalmLink(p, s, a.c);
      CalmAgain(s, t);
    } else if Caller(a).Some? {
      var c := Caller(a).value;
      NotBad(s, c);
      if a.Join? { NoChildFailed(s, Key(p, c)); }
      CalmOne(s, t, c);
    } else {
      CalmAgain(s, t);
    }
  }

  lemma CalmMeans<K(!new)>(s: State<K>)
    requires Calm(s)
    ensures s.cancelled == {}
  {
  }

  lemma CalmAgain<K(!new)>(s: State<K>, t: State<K>)
    requires Calm(s) && t.cancelled == s.cancelled
    requires forall d {:trigger t.pcs[d]} :: d in t.pcs ==> Bad(t.pcs[d]) ==> d in s.pcs && s.pcs[d] == t.pcs[d]
    ensures Calm(t)
  {
  }

  lemma {:induction false} StaysCalm<K(!new)>(p: Params<K>, run: seq<State<K>>, actions: seq<Action<K>>, i: nat)
    requires IsRun(p, run, actions) && i < |run| && forall q: seq<K> :: !NextCycle(p, q)
    requires forall j {:trigger actions[j]} :: 0 <= j < |actions| ==> Harmless(actions[j])
    ensures Calm(run[i]) && (run[i].result == Some(true) ==> p.roots == [])
  {
    hide Inv, Enabled, Next, NextCycle, Harmless;
    if i > 0 {
      StaysCalm(p, run, actions, i - 1);
      RunInv(p, run, actions, i - 1);
      assert run[i] == Next(p, run[i - 1], actions[i - 1]);
      CalmStep(p, run[i - 1], actions[i - 1]);
      CalmResult(p, run[i - 1], actions[i - 1]);
    }
  }

  lemma CalmResult<K(!new)>(p: Params<K>, s: State<K>, a: Action<K>)
    requires Enabled(p, s, a) && Calm(s)
    ensures Next(p, s, a).result == Some(true) ==> s.result == Some(true)
  {
    hide ChildFailed, ChildrenBack, Admitted;
  }

  /** When nothing fails or is cancelled, Discover returns an error exactly when there is no root or a
      cycle can be reached from the roots. */
  lemma UndisturbedOutcome<K(!new)>(p: Params<K>, run: seq<State<K>>, actions: seq<Action<K>>, i: nat)
    requires IsRun(p, run, actions) && i < |run| && run[i].result.Some?
    requires forall j {:trigger actions[j]} :: 0 <= j < |actions| ==> Harmless(actions[j])
    ensures run[i].result == Some(true) <==> p.roots == [] || exists q: seq<K> :: NextCycle(p, q)
  {
    hide Inv, Init, Enabled, Next, NextCycle, Harmless, Complete, Calm, AllReturnedWell;
    if !run[i].result.value {
      DiscoveryComplete(p, run, actions, i);
    } else if forall q: seq<K> :: !NextCycle(p, q) {
      StaysCalm(p, run, actions, i);
    }
  }

  // ---- termination ----

  /** How far a call has come; each of its actions takes it further. */
  function Rank<K>(p: Params<K>, c: Call<K>, pc: Pc): nat {
    var n := if ValidCall(p, c) then |p.next(Key(p, c))| else 0;
    match pc
    case Entering => 0
    case Claiming => 1
    case Waiting => 2
    case Adding => 2
    case Resolving => 3
    case Listing => 4
    case Linking(i) => 5 + i
    case Joining(_) => 6 + n
    case Closing(_) => 7 + n
    case Back(_) => 8 + n
  }

  /** Every call that can be started when all keys are in keys, with every rank it can reach. */
  ghost function AllSteps<K(!new)>(p: Params<K>, keys: set<K>): set<(Call<K>, nat)> {
    var calls := (set r | 0 <= r < |p.roots| :: Root(r)) + (set k, i | k in keys && 0 <= i < |p.next(k)| :: Child(k, i));
    set c, r | c in calls && 0 <= r <= Rank(p, c, Back(true)) :: (c, r)
  }

  ghost function StepsDone<K(!new)>(p: Params<K>, s: State<K>): set<(Call<K>, nat)> {
    set c, r | c in s.pcs && 0 <= r <= Rank(p, c, s.pcs[c]) :: (c, r)
  }

  function CallActions<K>(actions: seq<Action<K>>): nat {
    if actions == [] then 0
    else CallActions(actions[..|actions| - 1]) + if Caller(actions[|actions| - 1]).Some? then 1 else 0
  }

  lemma RankGrows<K(!new)>(p: Params<K>, s: State<K>, a: Action<K>, c: Call<K>)
    requires Inv(p, s) && Enabled(p, s, a) && Caller(a) == Some(c)
    ensures c in s.pcs && c in Next(p, s, a).pcs && Rank(p, c, s.pcs[c]) < Rank(p, c, Next(p, s, a).pcs[c])
  {
    hide GraphInv, OwnerInv, ChildInv, EdgeInv, VertexInv, BornInv, ResultInv, ResolvedInv, ReachInv, StateInv,
      Admitted, ChildrenBack, ChildFailed, WithVertex, WithEdge;
    CallsValid(p, s);
    if a.Link? { NewCallLater(p, s, c); }
    if a.EndLoop? { ProgressOf(p, s, c); }
  }

  lemma StepsAdded<K(!new)>(p: Params<K>, s: State<K>, t: State<K>, c: Call<K>)
    requires CallStep(p, s, t, c) && Rank(p, c, s.pcs[c]) < Rank(p, c, t.pcs[c])
    ensures |StepsDone(p, s)| < |StepsDone(p, t)|
  {
    hide Rank, Started, StartsOne, Past;
    var x := (c, Rank(p, c, t.pcs[c]));
    assert x in StepsDone(p, t) && x !in StepsDone(p, s);
    assert forall d {:trigger d in t.pcs} :: d in s.pcs ==> d in t.pcs && Rank(p, d, s.pcs[d]) <= Rank(p, d, t.pcs[d]);
    assert StepsDone(p, s) + {x} <= StepsDone(p, t);
    SubsetSize(StepsDone(p, s) + {x}, StepsDone(p, t));
  }

  lemma RankBounded<K(!new)>(p: Params<K>, s: State<K>, c: Call<K>)
    requires OwnerInv(p, s) && EdgeInv(p, s) && c in s.pcs
    ensures ValidCall(p, c) && Rank(p, c, s.pcs[c]) <= Rank(p, c, Back(true))
  {
    hide AllWell;
    assert s.pcs[c] == s.pcs[c];
    if s.pcs[c].Linking? { ProgressOf(p, s, c); }
  }

  lemma StepsBounded<K(!new)>(p: Params<K>, keys: set<K>, s: State<K>)
    requires Inv(p, s) && forall k {:trigger Reachable(p, k)} :: Reachable(p, k) ==> k in keys
    ensures |StepsDone(p, s)| <= |AllSteps(p, keys)|
  {
    hide GraphInv, OwnerInv, EdgeInv, VertexInv, BornInv, ResultInv, ResolvedInv, StateInv, ChildInv, ReachInv, Rank;
    forall c, r | c in s.pcs && 0 <= r <= Rank(p, c, s.pcs[c]) ensures (c, r) in AllSteps(p, keys) {
      RankBounded(p, s, c);
      if c.Child? { ParentReachable(p, s, c.parent, c.i); }
    }
    assert StepsDone(p, s) <= AllSteps(p, keys);
    SubsetSize(StepsDone(p, s), AllSteps(p, keys));
  }

  lemma ParentReachable<K(!new)>(p: Params<K>, s: State<K>, k: K, i: nat)
    requires ChildInv(p, s) && ReachInv(p, s) && Child(k, i) in s.pcs
    ensures Reachable(p, k)
  {
    hide Reachable, Past;
    assert HasEdge(s.adj, k, p.next(k)[i]);
    assert k in s.adj;
  }

  lemma {:induction false} CallActionsCounted<K(!new)>(p: Params<K>, run: seq<State<K>>, actions: seq<Action<K>>, i: nat)
    requires IsRun(p, run, actions) && i < |run|
    ensures CallActions(actions[..i]) <= |StepsDone(p, run[i])|
  {
    hide Inv, Init, Enabled, Next, StepsDone, CallStep, OwnerStays, EdgesGrow, StatesStay, ResolvedGrows, Progressed;
    if i > 0 {
      CallActionsCounted(p, run, actions, i - 1);
      RunInv(p, run, actions, i - 1);
      var s, a := run[i - 1], actions[i - 1];
      assert run[i] == Next(p, s, a);
      assert actions[..i][..i - 1] == actions[..i - 1];
      if Caller(a).Some? {
        var c := Caller(a).value;
        ActionSteps(p, s, a, c);
        RankGrows(p, s, a, c);
        StepsAdded(p, s, run[i], c);
      } else {
        SameStepsDone(p, s, a);
      }
    }
  }

  lemma SameStepsDone<K(!new)>(p: Params<K>, s: State<K>, a: Action<K>)
    requires Enabled(p, s, a) && Caller(a) == None
    ensures StepsDone(p, Next(p, s, a)) == StepsDone(p, s)
  {
    hide Rank;
  }

  /** When finitely many keys can be reached the calls of a run take boundedly many actions, however
      they interleave; with NoDeadlock, Discover terminates. */
  lemma DiscoveryTerminates<K(!new)>(p: Params<K>, keys: set<K>, run: seq<State<K>>, actions: seq<Action<K>>)
    requires IsRun(p, run, actions) && forall k {:trigger Reachable(p, k)} :: Reachable(p, k) ==> k in keys
    ensures CallActions(actions) <= |AllSteps(p, keys)|
  {
    hide Inv, Init, Enabled, Next, StepsDone, AllSteps, Reachable;
    var n := |actions|;
    assert actions[..n] == actions;
    CallActionsCounted(p, run, actions, n);
    RunInv(p, run, actions, n);
    StepsBounded(p, keys, run[n]);
  }

  /** Discovery can start from any roots; by NoDeadlock it can be continued until Discover returns. */
  lemma Starts<K(!new)>(p: Params<K>) returns (s: State<K>)
    ensures Init(p, s)
  {
    var calls: seq<Call<K>> := seq(|p.roots|, r requires 0 <= r < |p.roots| => Root(r));
    s := State(map c | c in calls :: Entering, calls, map[], {}, map[], map[], [], {}, if p.roots == [] then Some(true) else None);
    forall c ensures c in s.pcs <==> c.Root? && c.r < |p.roots| {
      if c.Root? && c.r < |p.roots| { assert calls[c.r] == c; }
    }
  }
}
