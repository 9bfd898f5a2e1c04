/** Concurrent recursive discovery (bindings/go/dag/sync/discover.go) as a state machine over all
    interleavings. A call is one invocation of discover; the first to claim a key owns its vertex,
    later ones wait for the owner. Each action is one indivisible step: a context test, the
    LoadOrStore on the done map, a section under the graph's write lock (with the resolver or
    discoverer call whose result it records), a channel operation, or a return. */
module Discover {
  import opened Graphs
  import opened TopoOrder
  import GraphState

  /** The keys to start from, and the neighbours the resolver and discoverer find for a key when
      they succeed. */
  datatype Params<!K> = Params(roots: seq<K>, next: K -> seq<K>)

  /** The r-th root, or the i-th neighbour of parent. */
  datatype Call<K> = Root(r: nat) | Child(parent: K, i: nat)

  /** The errgroup of the roots, or of the neighbours of k; a group stands for its context too. */
  datatype Group<K> = Top | Of(k: K)

  datatype DiscoveryState = Unknown | Discovering | Discovered | Completed | Error

  /** Where a call is. Up to Waiting it may or may not become the owner; the others belong to the
      owner, until it is Back. bad says whether the call has failed or will. */
  datatype Pc =
    | Entering | Claiming | Waiting
    | Adding | Resolving | Listing | Linking(i: nat) | Joining(bad: bool) | Closing(bad: bool)
    | Back(bad: bool)

  datatype State<!K> = State(
    pcs: map<Call<K>, Pc>,
    born: seq<Call<K>>,            // the calls in the order they were started
    owner: map<K, Call<K>>,        // the done map
    closed: set<K>,                // whose done channel is closed
    adj: map<K, set<K>>,
    vstate: map<K, DiscoveryState>,
    resolved: seq<K>,              // the resolver calls made so far
    cancelled: set<Group<K>>,
    result: Option<bool>)          // of Discover: whether it is an error

  datatype Action<K> =
    | Enter(c: Call<K>) | Claim(c: Call<K>) | WaitDone(c: Call<K>) | WaitCancelled(c: Call<K>)
    | Add(c: Call<K>) | Resolve(c: Call<K>, ok: bool) | List(c: Call<K>, ok: bool)
    | Link(c: Call<K>) | EndLoop(c: Call<K>) | Join(c: Call<K>) | Close(c: Call<K>)
    | Finish | Propagate(k: K) | CallerCancels

  predicate ValidCall<K>(p: Params<K>, c: Call<K>) {
    match c
    case Root(r) => r < |p.roots|
    case Child(k, i) => i < |p.next(k)|
  }

  function Key<K>(p: Params<K>, c: Call<K>): K
    requires ValidCall(p, c)
  {
    match c
    case Root(r) => p.roots[r]
    case Child(k, i) => p.next(k)[i]
  }

  function GroupOf<K>(c: Call<K>): Group<K> {
    match c
    case Root(_) => Top
    case Child(k, _) => Of(k)
  }

  predicate Owning(pc: Pc) {
    pc.Adding? || pc.Resolving? || pc.Listing? || pc.Linking? || pc.Joining? || pc.Closing?
  }

  predicate At<K(==)>(s: State<K>, c: Call<K>, pc: Pc) {
    c in s.pcs && s.pcs[c] == pc
  }

  /** All calls for neighbours of k have returned. */
  ghost predicate ChildrenBack<K(!new)>(s: State<K>, k: K) {
    forall i: nat {:trigger Child(k, i)} :: Child(k, i) in s.pcs ==> s.pcs[Child(k, i)].Back?
  }

  ghost predicate ChildFailed<K(!new)>(s: State<K>, k: K) {
    exists i: nat {:trigger Child(k, i)} :: At(s, Child(k, i), Back(true))
  }

  /** AddEdge's verdict, see Dag: no self-reference, and no new edge whose end reaches its start. */
  ghost predicate Admitted<K(!new)>(g: map<K, set<K>>, a: K, b: K) {
    a in g && b in g && a != b && (b in g[a] || !Reaches(g, b, a))
  }

  /** The section that registers a neighbour is AddVertex, if it is missing, and AddEdge. */
  lemma SectionIsAddEdge<K(!new), A>(s: GraphState.State<K, A>, k: K, n: K,
      vertexAttributes: seq<GraphState.Attributes<A>>, edgeAttributes: seq<GraphState.Attributes<A>>)
    requires k in s
    ensures var t := GraphState.Apply(s, GraphState.AddVertex(n, vertexAttributes));
      var u := GraphState.Apply(t, GraphState.AddEdge(k, n, edgeAttributes));
      && GraphState.Adj(t) == WithVertex(GraphState.Adj(s), n)
      && (GraphState.Admits(t, k, n) <==> Admitted(GraphState.Adj(t), k, n))
      && GraphState.Adj(u) == if Admitted(GraphState.Adj(t), k, n) then WithEdge(GraphState.Adj(t), k, n) else GraphState.Adj(t)
  {
    hide Reaches, GraphState.AddedEdge, GraphState.AddedVertex, WithVertex, WithEdge;
    var t := GraphState.Apply(s, GraphState.AddVertex(n, vertexAttributes));
    if n !in s {
      GraphState.AddedVertexMaps(s, n, GraphState.Merged(map[], vertexAttributes));
    } else {
      KnownVertex(GraphState.Adj(s), n);
    }
    if GraphState.Admits(t, k, n) { GraphState.AddedEdgeAdj(t, k, n, edgeAttributes); }
  }

  lemma KnownVertex<K>(g: map<K, set<K>>, n: K)
    requires n in g
    ensures WithVertex(g, n) == g
  {
  }

  ghost predicate Init<K(!new)>(p: Params<K>, s: State<K>) {
    && (forall c :: c in s.pcs <==> c.Root? && c.r < |p.roots|)
    && (forall c :: c in s.pcs ==> s.pcs[c] == Entering)
    && (forall c :: c in s.born <==> c in s.pcs)
    && s.owner == map[] && s.closed == {} && s.adj == map[] && s.vstate == map[] && s.resolved == [] && s.cancelled == {}
    && s.result == if p.roots == [] then Some(true) else None
  }

  ghost predicate Enabled<K(!new)>(p: Params<K>, s: State<K>, a: Action<K>) {
    match a
    case Enter(c) => At(s, c, Entering)
    case Claim(c) => At(s, c, Claiming) && ValidCall(p, c)
    case WaitDone(c) => At(s, c, Waiting) && ValidCall(p, c) && Key(p, c) in s.closed
    case WaitCancelled(c) => At(s, c, Waiting) && GroupOf(c) in s.cancelled
    case Add(c) => At(s, c, Adding) && ValidCall(p, c)
    case Resolve(c, _) => At(s, c, Resolving) && ValidCall(p, c)
    case List(c, _) => At(s, c, Listing) && ValidCall(p, c)
    case Link(c) => c in s.pcs && ValidCall(p, c) && s.pcs[c].Linking? && s.pcs[c].i < |p.next(Key(p, c))| && Key(p, c) in s.adj
    case EndLoop(c) => c in s.pcs && ValidCall(p, c) && s.pcs[c].Linking? && s.pcs[c].i >= |p.next(Key(p, c))|
    case Join(c) => c in s.pcs && ValidCall(p, c) && s.pcs[c].Joining? && ChildrenBack(s, Key(p, c))
    case Close(c) => c in s.pcs && ValidCall(p, c) && s.pcs[c].Closing?
    case Finish => s.result == None && forall c: Call<K> {:trigger c in s.pcs} :: c.Root? && c.r < |p.roots| ==> c in s.pcs && s.pcs[c].Back?
    case Propagate(k) => k in s.owner && GroupOf(s.owner[k]) in s.cancelled
    case CallerCancels => true
  }

  /** A call returns; if with an error, its errgroup cancels the group's context. */
  function Returns<K>(s: State<K>, c: Call<K>, bad: bool): State<K> {
    s.(pcs := s.pcs[c := Back(bad)], cancelled := if bad then s.cancelled + {GroupOf(c)} else s.cancelled)
  }

  ghost function Next<K(!new)>(p: Params<K>, s: State<K>, a: Action<K>): State<K>
    requires Enabled(p, s, a)
  {
    match a
    case Enter(c) => if GroupOf(c) in s.cancelled then Returns(s, c, true) else s.(pcs := s.pcs[c := Claiming])
    case Claim(c) =>
      if Key(p, c) in s.owner then s.(pcs := s.pcs[c := Waiting])
      else s.(pcs := s.pcs[c := Adding], owner := s.owner[Key(p, c) := c])
    case WaitDone(c) => Returns(s, c, false)
    case WaitCancelled(c) => Returns(s, c, true)
    case Add(c) =>
      s.(pcs := s.pcs[c := Resolving], adj := WithVertex(s.adj, Key(p, c)), vstate := s.vstate[Key(p, c) := Discovering])
    case Resolve(c, ok) =>
      s.(pcs := s.pcs[c := if ok then Listing else Closing(true)], resolved := s.resolved + [Key(p, c)],
         vstate := s.vstate[Key(p, c) := if ok then Discovered else Error])
    case List(c, ok) =>
      if ok then s.(pcs := s.pcs[c := Linking(0)])
      else s.(pcs := s.pcs[c := Closing(true)], vstate := s.vstate[Key(p, c) := Error])
    case Link(c) =>
      var k, i := Key(p, c), s.pcs[c].i;
      var n := p.next(k)[i];
      var t := s.(adj := WithVertex(s.adj, n), vstate := if n in s.adj then s.vstate else s.vstate[n := Unknown]);
      if Admitted(t.adj, k, n) then
        t.(adj := WithEdge(t.adj, k, n), pcs := s.pcs[c := Linking(i + 1)][Child(k, i) := Entering], born := s.born + [Child(k, i)])
      else t.(pcs := s.pcs[c := Joining(true)], cancelled := s.cancelled + {Of(k)})
    case EndLoop(c) => s.(pcs := s.pcs[c := Joining(false)])
    case Join(c) =>
      var bad := s.pcs[c].bad || ChildFailed(s, Key(p, c));
      s.(pcs := s.pcs[c := Closing(bad)], vstate := s.vstate[Key(p, c) := if bad then Error else Completed])
    case Close(c) => Returns(s, c, s.pcs[c].bad).(closed := s.closed + {Key(p, c)})
    case Finish => s.(result := Some(exists c: Call<K> :: c.Root? && At(s, c, Back(true))))
    case Propagate(k) => s.(cancelled := s.cancelled + {Of(k)})
    case CallerCancels => s.(cancelled := s.cancelled + {Top})
  }

  // ---- the invariant, in parts ----

  ghost predicate GraphInv<K(!new)>(p: Params<K>, s: State<K>) {
    Sound(s.adj) && s.vstate.Keys == s.adj.Keys
  }

  /** A key has one owner, which is the only call to work on it, and its channel is closed exactly
      when the owner is back. */
  ghost predicate OwnerInv<K(!new)>(p: Params<K>, s: State<K>) {
    && (forall c {:trigger s.pcs[c]} :: c in s.pcs ==> ValidCall(p, c))
    && (forall k {:trigger s.owner[k]} :: k in s.owner ==>
      s.owner[k] in s.pcs && ValidCall(p, s.owner[k]) && Key(p, s.owner[k]) == k && (Owning(s.pcs[s.owner[k]]) || s.pcs[s.owner[k]].Back?))
    && (forall c {:trigger s.pcs[c]} :: c in s.pcs && Owning(s.pcs[c]) ==> Key(p, c) in s.owner && s.owner[Key(p, c)] == c)
    && (forall c {:trigger s.pcs[c]} :: c in s.pcs && (s.pcs[c] == Waiting || s.pcs[c] == Back(false)) ==> Key(p, c) in s.owner)
    && (forall k :: k in s.closed <==> k in s.owner && s.pcs[s.owner[k]].Back?)
  }

  /** The position of k's owner. */
  ghost function PcOf<K(!new)>(s: State<K>, k: K): Pc
    requires k in s.owner && s.owner[k] in s.pcs
  {
    s.pcs[s.owner[k]]
  }

  /** The owner at pc has already started the call for its i-th neighbour. */
  predicate Past(pc: Pc, i: nat) {
    match pc
    case Linking(j) => i < j
    case Joining(_) => true
    case Closing(_) => true
    case Back(_) => true
    case _ => false
  }

  /** Calls are only started by the owner of their parent, after the edge to their key was added. */
  ghost predicate ChildInv<K(!new)>(p: Params<K>, s: State<K>) {
    && (forall c: Call<K> {:trigger c in s.pcs} :: c.Root? && c.r < |p.roots| ==> c in s.pcs)
    && forall k, i: nat {:trigger Child(k, i)} :: Child(k, i) in s.pcs ==>
      i < |p.next(k)| && HasEdge(s.adj, k, p.next(k)[i]) && k in s.owner && s.owner[k] in s.pcs && Past(PcOf(s, k), i)
  }

  /** All of k's neighbours have a call, and each is back without an error. */
  ghost predicate AllWell<K(!new)>(p: Params<K>, s: State<K>, k: K) {
    forall i: nat {:trigger Child(k, i)} :: i < |p.next(k)| ==> At(s, Child(k, i), Back(false))
  }

  /** How far the owner of k is with its neighbours. */
  ghost predicate Progressed<K(!new)>(p: Params<K>, s: State<K>, k: K, pc: Pc) {
    match pc
    case Linking(j) => j <= |p.next(k)| && forall i: nat {:trigger Child(k, i)} :: i < j ==> Child(k, i) in s.pcs
    case Joining(bad) => !bad ==> forall i: nat {:trigger Child(k, i)} :: i < |p.next(k)| ==> Child(k, i) in s.pcs
    case Closing(bad) => !bad ==> AllWell(p, s, k)
    case Back(bad) => !bad ==> AllWell(p, s, k)
    case _ => true
  }

  ghost predicate EdgeInv<K(!new)>(p: Params<K>, s: State<K>) {
    && (forall k, n {:trigger HasEdge(s.adj, k, n)} :: HasEdge(s.adj, k, n) ==> n in p.next(k))
    && forall k {:trigger s.owner[k]} :: k in s.owner && s.owner[k] in s.pcs ==> Progressed(p, s, k, PcOf(s, k))
  }

  /** The recorded state of a vertex follows its owner. */
  ghost predicate StateAgrees(st: DiscoveryState, pc: Pc) {
    match pc
    case Resolving => st == Discovering
    case Listing => st == Discovered
    case Linking(_) => st == Discovered
    case Joining(_) => st == Discovered
    case Closing(bad) => st == if bad then Error else Completed
    case Back(bad) => st == if bad then Error else Completed
    case _ => st == Unknown
  }

  ghost function CurrentState<K>(s: State<K>, k: K): DiscoveryState {
    if k in s.vstate then s.vstate[k] else Unknown
  }

  ghost predicate StateInv<K(!new)>(p: Params<K>, s: State<K>) {
    && (forall k {:trigger s.owner[k]} :: k in s.owner && s.owner[k] in s.pcs ==>
      StateAgrees(CurrentState(s, k), PcOf(s, k)) && (PcOf(s, k) != Adding ==> k in s.adj))
    && (forall k {:trigger k in s.owner} :: k !in s.owner ==> CurrentState(s, k) == Unknown)
  }

  predicate Bad(pc: Pc) {
    pc == Joining(true) || pc == Closing(true) || pc == Back(true)
  }

  ghost predicate SomeBad<K(!new)>(s: State<K>) {
    exists c {:trigger s.pcs[c]} :: c in s.pcs && Bad(s.pcs[c])
  }

  ghost predicate Called<K(!new)>(p: Params<K>, s: State<K>, k: K) {
    exists c {:trigger s.pcs[c]} :: c in s.pcs && ValidCall(p, c) && Key(p, c) == k
  }

  /** A vertex has a call for it, unless a rejected edge left it behind. */
  ghost predicate VertexInv<K(!new)>(p: Params<K>, s: State<K>) {
    forall v {:trigger Called(p, s, v)} :: v in s.adj ==> Called(p, s, v) || SomeBad(s)
  }

  /** A call is started by an owner started before. */
  ghost predicate BornInv<K(!new)>(p: Params<K>, s: State<K>) {
    && (forall c {:trigger c in s.born} :: c in s.born <==> c in s.pcs)
    && forall j {:trigger s.born[j]} :: 0 <= j < |s.born| && s.born[j].Child? ==>
      s.born[j].parent in s.owner && s.owner[s.born[j].parent] in s.born[..j]
  }

  ghost predicate ResultInv<K(!new)>(p: Params<K>, s: State<K>) {
    && (p.roots == [] ==> s.result == Some(true))
    && (s.result == Some(false) ==> forall c: Call<K> {:trigger At(s, c, Back(false))} :: c.Root? && c.r < |p.roots| ==> At(s, c, Back(false)))
  }

  predicate ResolverCalled(pc: Pc) {
    (Owning(pc) || pc.Back?) && pc != Adding && pc != Resolving
  }

  /** The keys resolved are those whose owner got that far, and each is resolved once. */
  ghost predicate ResolvedInv<K(!new)>(p: Params<K>, s: State<K>) {
    && Distinct(s.resolved)
    && (forall k {:trigger k in s.resolved} :: k in s.resolved ==> k in s.owner && s.owner[k] in s.pcs && ResolverCalled(PcOf(s, k)))
    && (forall k {:trigger s.owner[k]} :: k in s.owner && s.owner[k] in s.pcs && ResolverCalled(PcOf(s, k)) ==> k in s.resolved)
  }

  /** q leads from a root to k through neighbours. */
  ghost predicate LeadsTo<K(!new)>(p: Params<K>, q: seq<K>, k: K) {
    && q != [] && q[0] in p.roots && q[|q| - 1] == k
    && forall i {:trigger q[i]} :: 0 < i < |q| ==> q[i] in p.next(q[i - 1])
  }

  ghost predicate Reachable<K(!new)>(p: Params<K>, k: K) {
    exists q :: LeadsTo(p, q, k)
  }

  ghost predicate ReachInv<K(!new)>(p: Params<K>, s: State<K>) {
    && (forall c {:trigger s.pcs[c]} :: c in s.pcs && ValidCall(p, c) ==> Reachable(p, Key(p, c)))
    && forall v {:trigger v in s.adj} :: v in s.adj ==> Reachable(p, v)
  }

  ghost predicate Inv<K(!new)>(p: Params<K>, s: State<K>) {
    && GraphInv(p, s) && OwnerInv(p, s) && ChildInv(p, s) && EdgeInv(p, s) && StateInv(p, s)
    && VertexInv(p, s) && BornInv(p, s) && ResultInv(p, s) && ResolvedInv(p, s) && ReachInv(p, s)
  }

  // ---- every action keeps it ----

  lemma NewVertexSound<K(!new)>(g: map<K, set<K>>, v: K)
    requires Sound(g)
    ensures Sound(WithVertex(g, v))
  {
    var h := WithVertex(g, v);
    assert forall x, y :: HasEdge(h, x, y) ==> HasEdge(g, x, y);
    SubgraphAcyclic(h, g);
  }

  lemma NewEdgeSound<K(!new)>(g: map<K, set<K>>, a: K, b: K)
    requires Sound(g) && Admitted(g, a, b)
    ensures Sound(WithEdge(g, a, b))
  {
    if b in g[a] {
      assert g[a] + {b} == g[a];
      assert WithEdge(g, a, b) == g;
    } else {
      EdgeKeepsAcyclic(g, a, b);
    }
  }

  lemma GraphStep<K(!new)>(p: Params<K>, s: State<K>, a: Action<K>)
    requires GraphInv(p, s) && OwnerInv(p, s) && StateInv(p, s) && Enabled(p, s, a)
    ensures GraphInv(p, Next(p, s, a))
  {
    hide Sound, Admitted, OwnerInv, StateInv, ChildInv, EdgeInv, VertexInv, BornInv, ResultInv, ResolvedInv, ReachInv, ChildrenBack, ChildFailed;
    match a
    case Add(c) => NewVertexSound(s.adj, Key(p, c));
    case Link(c) =>
      var k, n := Key(p, c), p.next(Key(p, c))[s.pcs[c].i];
      NewVertexSound(s.adj, n);
      if Admitted(WithVertex(s.adj, n), k, n) { NewEdgeSound(WithVertex(s.adj, n), k, n); }
    case Resolve(c, _) => OwnedVertex(p, s, c);
    case List(c, _) => OwnedVertex(p, s, c);
    case Join(c) => OwnedVertex(p, s, c);
    case _ =>
  }

  /** Past its first section an owner finds the vertex of its key in the graph. */
  lemma OwnedVertex<K(!new)>(p: Params<K>, s: State<K>, c: Call<K>)
    requires OwnerInv(p, s) && StateInv(p, s) && c in s.pcs && ValidCall(p, c) && Owning(s.pcs[c])
    ensures Key(p, c) in s.owner && s.owner[Key(p, c)] == c
    ensures s.pcs[c] != Adding ==> Key(p, c) in s.adj
    ensures StateAgrees(CurrentState(s, Key(p, c)), s.pcs[c])
  {
  }

  /** The call an owner starts for its next neighbour is a new one. */
  lemma NewCallLater<K(!new)>(p: Params<K>, s: State<K>, c: Call<K>)
    requires OwnerInv(p, s) && ChildInv(p, s) && Enabled(p, s, Link(c))
    ensures Child(Key(p, c), s.pcs[c].i) !in s.pcs && Key(p, c) in s.owner && s.owner[Key(p, c)] == c
  {
  }

  /** A call moves on without claiming or closing anything. */
  ghost predicate Moves<K(!new)>(p: Params<K>, s: State<K>, t: State<K>, c: Call<K>, pc: Pc) {
    && c in s.pcs && ValidCall(p, c) && t.pcs == s.pcs[c := pc] && t.owner == s.owner && t.closed == s.closed
    && !s.pcs[c].Back? && (Owning(pc) <==> Owning(s.pcs[c]))
    && (pc == Waiting || pc == Back(false) ==> Key(p, c) in s.owner)
  }

  lemma OwnerMoves<K(!new)>(p: Params<K>, s: State<K>, t: State<K>, c: Call<K>, pc: Pc)
    requires OwnerInv(p, s) && Moves(p, s, t, c, pc)
    ensures OwnerInv(p, t)
  {
  }

  lemma OwnerClaims<K(!new)>(p: Params<K>, s: State<K>, t: State<K>, c: Call<K>)
    requires OwnerInv(p, s) && At(s, c, Claiming) && ValidCall(p, c) && Key(p, c) !in s.owner
    requires t.pcs == s.pcs[c := Adding] && t.owner == s.owner[Key(p, c) := c] && t.closed == s.closed
    ensures OwnerInv(p, t)
  {
  }

  lemma OwnerCloses<K(!new)>(p: Params<K>, s: State<K>, t: State<K>, c: Call<K>)
    requires OwnerInv(p, s) && Enabled(p, s, Close(c))
    requires t.pcs == s.pcs[c := Back(s.pcs[c].bad)] && t.owner == s.owner && t.closed == s.closed + {Key(p, c)}
    ensures OwnerInv(p, t)
  {
  }

  lemma OwnerSpawns<K(!new)>(p: Params<K>, s: State<K>, t: State<K>, c: Call<K>)
    requires OwnerInv(p, s) && c !in s.pcs && ValidCall(p, c)
    requires t.pcs == s.pcs[c := Entering] && t.owner == s.owner && t.closed == s.closed
    ensures OwnerInv(p, t)
  {
  }

  lemma CallsValid<K(!new)>(p: Params<K>, s: State<K>)
    requires OwnerInv(p, s)
    ensures forall c {:trigger s.pcs[c]} :: c in s.pcs ==> ValidCall(p, c)
    ensures forall k :: k in s.closed ==> k in s.owner
  {
  }

  lemma OwnerSame<K(!new)>(p: Params<K>, s: State<K>, t: State<K>)
    requires OwnerInv(p, s) && t.pcs == s.pcs && t.owner == s.owner && t.closed == s.closed
    ensures OwnerInv(p, t)
  {
  }

  lemma OwnerLinks<K(!new)>(p: Params<K>, s: State<K>, c: Call<K>)
    requires OwnerInv(p, s) && ChildInv(p, s) && Enabled(p, s, Link(c))
    ensures OwnerInv(p, Next(p, s, Link(c)))
  {
    hide GraphInv, OwnerInv, StateInv, Admitted, ChildInv, EdgeInv, VertexInv, BornInv, ResultInv, ResolvedInv, ReachInv;
    var t := Next(p, s, Link(c));
    NewCallLater(p, s, c);
    if t.pcs[c].Joining? {
      OwnerMoves(p, s, t, c, t.pcs[c]);
    } else {
      var u := s.(pcs := s.pcs[c := t.pcs[c]]);
      OwnerMoves(p, s, u, c, t.pcs[c]);
      OwnerSpawns(p, u, t, Child(Key(p, c), s.pcs[c].i));
    }
  }

  /** The other actions of an owner. */
  lemma OwnerWorks<K(!new)>(p: Params<K>, s: State<K>, a: Action<K>, c: Call<K>)
    requires OwnerInv(p, s) && Enabled(p, s, a)
    requires a == Add(c) || (a.Resolve? && a.c == c) || (a.List? && a.c == c) || a == EndLoop(c) || a == Join(c)
    ensures OwnerInv(p, Next(p, s, a))
  {
    hide OwnerInv, Admitted, ChildrenBack, ChildFailed;
    OwnerMoves(p, s, Next(p, s, a), c, Next(p, s, a).pcs[c]);
  }

  lemma OwnerStep<K(!new)>(p: Params<K>, s: State<K>, a: Action<K>)
    requires OwnerInv(p, s) && ChildInv(p, s) && Enabled(p, s, a)
    ensures OwnerInv(p, Next(p, s, a))
  {
    hide GraphInv, OwnerInv, StateInv, ChildInv, EdgeInv, VertexInv, BornInv, ResultInv, ResolvedInv, ReachInv, Admitted, ChildrenBack, ChildFailed;
    var t := Next(p, s, a);
    CallsValid(p, s);
    match a
    case Enter(c) => OwnerMoves(p, s, t, c, t.pcs[c]);
    case Claim(c) => if Key(p, c) in s.owner { OwnerMoves(p, s, t, c, Waiting); } else { OwnerClaims(p, s, t, c); }
    case WaitDone(c) => OwnerMoves(p, s, t, c, Back(false));
    case WaitCancelled(c) => OwnerMoves(p, s, t, c, Back(true));
    case Link(c) => OwnerLinks(p, s, c);
    case Close(c) => OwnerCloses(p, s, t, c);
    case Finish => OwnerSame(p, s, t);
    case Propagate(_) => OwnerSame(p, s, t);
    case CallerCancels => OwnerSame(p, s, t);
    case _ => OwnerWorks(p, s, a, a.c);
  }

  /** d is a call the owner c has just started. */
  ghost predicate Started<K(!new)>(p: Params<K>, s: State<K>, t: State<K>, c: Call<K>, d: Call<K>) {
    && ValidCall(p, c) && ValidCall(p, d) && d.Child? && d in t.pcs && t.pcs[d] == Entering && c in s.pcs && Owning(s.pcs[c]) && c in t.pcs
    && d.parent == Key(p, c) && Past(t.pcs[c], d.i) && HasEdge(t.adj, d.parent, Key(p, d))
  }

  ghost predicate StartsOne<K(!new)>(p: Params<K>, s: State<K>, t: State<K>, c: Call<K>, d: Call<K>) {
    d !in s.pcs && Started(p, s, t, c, d) && t.born == s.born + [d] && t.pcs.Keys == s.pcs.Keys + {d}
  }

  /** From s to t only the call c moves on; it may become an owner and start a call. */
  ghost predicate CallStep<K(!new)>(p: Params<K>, s: State<K>, t: State<K>, c: Call<K>) {
    && c in s.pcs && ValidCall(p, c) && !s.pcs[c].Back? && c in t.pcs
    && (forall d {:trigger d in t.pcs} :: d in s.pcs ==> d in t.pcs && (d != c ==> t.pcs[d] == s.pcs[d]))
    && (forall d {:trigger d in t.pcs} :: d in t.pcs ==> d in s.pcs || Started(p, s, t, c, d))
    && ((t.born == s.born && t.pcs.Keys == s.pcs.Keys) || exists d :: StartsOne(p, s, t, c, d))
    && (forall i: nat {:trigger Past(t.pcs[c], i)} :: Past(s.pcs[c], i) ==> Past(t.pcs[c], i))
    && (Bad(s.pcs[c]) ==> Bad(t.pcs[c]))
  }

  ghost predicate OwnerStays<K(!new)>(p: Params<K>, s: State<K>, t: State<K>, c: Call<K>)
    requires ValidCall(p, c)
  {
    && (forall k {:trigger k in t.owner} :: k in s.owner ==> k in t.owner && t.owner[k] == s.owner[k])
    && (forall k {:trigger k in t.owner} :: k in t.owner ==> k in s.owner || (k == Key(p, c) && At(t, c, Adding) && t.owner[k] == c))
  }

  ghost predicate EdgesGrow<K(!new)>(p: Params<K>, s: State<K>, t: State<K>, c: Call<K>)
    requires ValidCall(p, c)
  {
    && (forall x, y {:trigger HasEdge(t.adj, x, y)} :: HasEdge(s.adj, x, y) ==> HasEdge(t.adj, x, y))
    && (forall x, y {:trigger HasEdge(t.adj, x, y)} :: HasEdge(t.adj, x, y) ==> HasEdge(s.adj, x, y) || y in p.next(x))
    && (forall v {:trigger v in t.adj} :: v in s.adj ==> v in t.adj)
    && (forall v {:trigger v in t.adj} :: v in t.adj ==> v in s.adj || v == Key(p, c) || (v in p.next(Key(p, c)) && (Called(p, t, v) || At(t, c, Joining(true)))))
  }

  ghost predicate StatesStay<K(!new)>(p: Params<K>, s: State<K>, t: State<K>, c: Call<K>)
    requires ValidCall(p, c)
  {
    && (forall k {:trigger CurrentState(t, k)} :: CurrentState(t, k) == CurrentState(s, k) || (k == Key(p, c) && c in s.pcs && Owning(s.pcs[c])))
    && (c in t.pcs && (Owning(t.pcs[c]) || (c in s.pcs && Owning(s.pcs[c]))) ==>
      StateAgrees(CurrentState(t, Key(p, c)), t.pcs[c]) && (t.pcs[c] != Adding ==> Key(p, c) in t.adj))
  }

  ghost predicate ResolvedGrows<K(!new)>(p: Params<K>, s: State<K>, t: State<K>, c: Call<K>)
    requires ValidCall(p, c) && c in s.pcs && c in t.pcs
  {
    if At(s, c, Resolving) then t.resolved == s.resolved + [Key(p, c)] && ResolverCalled(t.pcs[c])
    else t.resolved == s.resolved && (Owning(s.pcs[c]) ==> (ResolverCalled(s.pcs[c]) <==> ResolverCalled(t.pcs[c])))
  }

  /** What every action of a call has in common. */
  ghost predicate Step<K(!new)>(p: Params<K>, s: State<K>, t: State<K>, c: Call<K>) {
    && c in s.pcs && c in t.pcs && ValidCall(p, c)
    && CallStep(p, s, t, c) && OwnerStays(p, s, t, c) && EdgesGrow(p, s, t, c) && StatesStay(p, s, t, c) && ResolvedGrows(p, s, t, c)
    && (Owning(s.pcs[c]) ==> Progressed(p, t, Key(p, c), t.pcs[c]))
    && t.result == s.result
  }

  lemma ChildStep<K(!new)>(p: Params<K>, s: State<K>, t: State<K>, c: Call<K>)
    requires OwnerInv(p, s) && ChildInv(p, s) && CallStep(p, s, t, c) && OwnerStays(p, s, t, c) && EdgesGrow(p, s, t, c)
    ensures ChildInv(p, t)
  {
    hide HasEdge, Called, Past;
    forall k, i: nat {:trigger Child(k, i)} | Child(k, i) in t.pcs
      ensures i < |p.next(k)| && HasEdge(t.adj, k, p.next(k)[i]) && k in t.owner && t.owner[k] in t.pcs && Past(PcOf(t, k), i)
    {
      if Child(k, i) in s.pcs {
        assert HasEdge(s.adj, k, p.next(k)[i]) && Past(PcOf(s, k), i);
        assert HasEdge(t.adj, k, p.next(k)[i]);
        assert k in t.owner && t.owner[k] == s.owner[k] && t.owner[k] in t.pcs;
        assert Past(t.pcs[c], i) || s.owner[k] != c;
      } else {
        assert Started(p, s, t, c, Child(k, i));
        assert s.pcs[c] == s.pcs[c] && k in t.owner;
      }
    }
    forall d: Call<K> {:trigger d in t.pcs} | d.Root? && d.r < |p.roots| ensures d in t.pcs {
      assert d in s.pcs;
    }
  }

  lemma EdgeStep<K(!new)>(p: Params<K>, s: State<K>, t: State<K>, c: Call<K>)
    requires OwnerInv(p, s) && EdgeInv(p, s) && CallStep(p, s, t, c) && OwnerStays(p, s, t, c) && EdgesGrow(p, s, t, c)
    requires Owning(s.pcs[c]) ==> Progressed(p, t, Key(p, c), t.pcs[c])
    ensures EdgeInv(p, t)
  {
    hide HasEdge, Called, Past, Started, Progressed;
    forall k {:trigger t.owner[k]} | k in t.owner && t.owner[k] in t.pcs ensures Progressed(p, t, k, PcOf(t, k)) {
      if k !in s.owner {
        NoProgressYet(p, t, k);
      } else if s.owner[k] != c {
        assert s.owner[k] in s.pcs && t.pcs[s.owner[k]] == s.pcs[s.owner[k]];
        assert Progressed(p, s, k, PcOf(s, k));
        ProgressStays(p, s, t, c, k, PcOf(s, k));
      } else {
        assert Owning(s.pcs[c]) && Key(p, c) == k;
      }
    }
  }

  lemma NoProgressYet<K(!new)>(p: Params<K>, t: State<K>, k: K)
    ensures Progressed(p, t, k, Adding)
  {
  }

  lemma ProgressStays<K(!new)>(p: Params<K>, s: State<K>, t: State<K>, c: Call<K>, k: K, pc: Pc)
    requires Progressed(p, s, k, pc)
    requires c in s.pcs && !s.pcs[c].Back?
    requires forall d {:trigger d in t.pcs} :: d in s.pcs ==> d in t.pcs && (d != c ==> t.pcs[d] == s.pcs[d])
    ensures Progressed(p, t, k, pc)
  {
    assert forall i: nat {:trigger Child(k, i)} :: Child(k, i) in s.pcs ==> Child(k, i) in t.pcs;
    assert forall i: nat {:trigger Child(k, i)} :: At(s, Child(k, i), Back(false)) ==> Child(k, i) in t.pcs && At(t, Child(k, i), Back(false));
  }

  lemma StateStep<K(!new)>(p: Params<K>, s: State<K>, t: State<K>, c: Call<K>)
    requires OwnerInv(p, s) && StateInv(p, s) && CallStep(p, s, t, c) && OwnerStays(p, s, t, c) && StatesStay(p, s, t, c)
    requires forall v {:trigger v in t.adj} :: v in s.adj ==> v in t.adj
    ensures StateInv(p, t)
  {
    hide HasEdge, Called, Past, Started, StateAgrees, CurrentState;
    forall k {:trigger t.owner[k]} | k in t.owner && t.owner[k] in t.pcs
      ensures StateAgrees(CurrentState(t, k), PcOf(t, k)) && (PcOf(t, k) != Adding ==> k in t.adj)
    {
      if k in s.owner && s.owner[k] != c {
        assert s.owner[k] in s.pcs && t.pcs[s.owner[k]] == s.pcs[s.owner[k]];
        assert StateAgrees(CurrentState(s, k), PcOf(s, k));
        assert k == Key(p, c) ==> !Owning(s.pcs[c]);
        assert CurrentState(t, k) == CurrentState(s, k);
      } else if k in s.owner {
        assert Owning(s.pcs[c]) && Key(p, c) == k;
      }
    }
    forall k {:trigger k in t.owner} | k !in t.owner ensures CurrentState(t, k) == Unknown {
      assert k !in s.owner && CurrentState(s, k) == Unknown;
      assert k == Key(p, c) ==> !Owning(s.pcs[c]);
      assert CurrentState(t, k) == CurrentState(s, k);
    }
  }

  lemma CallsStay<K(!new)>(p: Params<K>, s: State<K>, t: State<K>, c: Call<K>, v: K)
    requires CallStep(p, s, t, c)
    ensures Called(p, s, v) ==> Called(p, t, v)
    ensures SomeBad(s) ==> SomeBad(t)
  {
    hide Started, Past;
    if Called(p, s, v) {
      var d :| d in s.pcs && ValidCall(p, d) && Key(p, d) == v;
      assert d in t.pcs && t.pcs[d] == t.pcs[d];
    }
    if SomeBad(s) {
      var d :| d in s.pcs && Bad(s.pcs[d]);
      assert d in t.pcs && Bad(t.pcs[d]);
    }
  }

  lemma VertexStep<K(!new)>(p: Params<K>, s: State<K>, t: State<K>, c: Call<K>)
    requires VertexInv(p, s) && CallStep(p, s, t, c) && EdgesGrow(p, s, t, c)
    ensures VertexInv(p, t)
  {
    hide HasEdge, Past, Started, Called, SomeBad, CallStep;
    forall v {:trigger Called(p, t, v)} | v in t.adj ensures Called(p, t, v) || SomeBad(t) {
      CallsStay(p, s, t, c, v);
      if v !in s.adj {
        CallerCalled(p, s, t, c);
      } else {
        assert Called(p, s, v) || SomeBad(s);
      }
    }
  }

  lemma CallerCalled<K(!new)>(p: Params<K>, s: State<K>, t: State<K>, c: Call<K>)
    requires CallStep(p, s, t, c)
    ensures ValidCall(p, c) && Called(p, t, Key(p, c))
    ensures At(t, c, Joining(true)) ==> SomeBad(t)
  {
    hide Started, Past;
    assert t.pcs[c] == t.pcs[c];
  }

  lemma NextReachable<K(!new)>(p: Params<K>, k: K, n: K)
    requires Reachable(p, k) && n in p.next(k)
    ensures Reachable(p, n)
  {
    var q :| LeadsTo(p, q, k);
    assert LeadsTo(p, q + [n], n);
  }

  lemma ReachStep<K(!new)>(p: Params<K>, s: State<K>, t: State<K>, c: Call<K>)
    requires ReachInv(p, s) && CallStep(p, s, t, c) && EdgesGrow(p, s, t, c)
    ensures ReachInv(p, t)
  {
    hide HasEdge, Past, Called, Reachable;
    var k := Key(p, c);
    assert s.pcs[c] == s.pcs[c] && Reachable(p, k);
    forall d {:trigger t.pcs[d]} | d in t.pcs && ValidCall(p, d) ensures Reachable(p, Key(p, d)) {
      if d in s.pcs {
        assert s.pcs[d] == s.pcs[d];
      } else {
        assert Started(p, s, t, c, d);
        NextReachable(p, k, Key(p, d));
      }
    }
    forall v {:trigger v in t.adj} | v in t.adj ensures Reachable(p, v) {
      if v !in s.adj && v != k { NextReachable(p, k, v); }
    }
  }

  lemma BornSame<K(!new)>(p: Params<K>, s: State<K>, t: State<K>, c: Call<K>)
    requires BornInv(p, s) && CallStep(p, s, t, c) && OwnerStays(p, s, t, c) && t.born == s.born && t.pcs.Keys == s.pcs.Keys
    ensures BornInv(p, t)
  {
    hide HasEdge, Past, Called, OwnerStays, Started;
    forall d {:trigger d in t.born} ensures d in t.born <==> d in t.pcs {
      assert d in s.born <==> d in s.pcs.Keys;
    }
    BornOrder(p, s, t, c);
  }

  lemma BornOrder<K(!new)>(p: Params<K>, s: State<K>, t: State<K>, c: Call<K>)
    requires BornInv(p, s) && ValidCall(p, c) && OwnerStays(p, s, t, c)
    ensures forall j {:trigger s.born[j]} :: 0 <= j < |s.born| && s.born[j].Child? ==>
      s.born[j].parent in t.owner && t.owner[s.born[j].parent] in s.born[..j]
  {
  }

  lemma BornStep<K(!new)>(p: Params<K>, s: State<K>, t: State<K>, c: Call<K>)
    requires OwnerInv(p, s) && BornInv(p, s) && CallStep(p, s, t, c) && OwnerStays(p, s, t, c)
    ensures BornInv(p, t)
  {
    hide HasEdge, Past, Called;
    if t.born == s.born && t.pcs.Keys == s.pcs.Keys {
      BornSame(p, s, t, c);
    } else {
      var d :| StartsOne(p, s, t, c, d);
      forall e {:trigger e in t.born} ensures e in t.born <==> e in t.pcs {
        assert e in t.born <==> e in s.born || e == d;
        assert e in t.pcs.Keys <==> e in s.pcs.Keys || e == d;
      }
      assert d.parent in s.owner && s.owner[d.parent] == c by { assert s.pcs[c] == s.pcs[c]; }
      assert c in s.born;
      forall j {:trigger t.born[j]} | 0 <= j < |t.born| && t.born[j].Child?
        ensures t.born[j].parent in t.owner && t.owner[t.born[j].parent] in t.born[..j]
      {
        assert j < |s.born| ==> t.born[j] == s.born[j] && t.born[..j] == s.born[..j];
        assert j == |s.born| ==> t.born[..j] == s.born;
      }
    }
  }

  lemma ResultStep<K(!new)>(p: Params<K>, s: State<K>, t: State<K>, c: Call<K>)
    requires ResultInv(p, s) && CallStep(p, s, t, c) && t.result == s.result
    ensures ResultInv(p, t)
  {
    hide Started, Past, Bad;
    if t.result == Some(false) {
      forall d: Call<K> {:trigger At(t, d, Back(false))} | d.Root? && d.r < |p.roots| ensures At(t, d, Back(false)) {
        assert At(s, d, Back(false));
        assert d in t.pcs;
      }
    }
  }

  lemma ResolvedStep<K(!new)>(p: Params<K>, s: State<K>, t: State<K>, c: Call<K>)
    requires OwnerInv(p, s) && ResolvedInv(p, s) && CallStep(p, s, t, c) && OwnerStays(p, s, t, c) && ResolvedGrows(p, s, t, c)
    ensures ResolvedInv(p, t)
  {
    hide Started, Past, Bad;
    var k := Key(p, c);
    assert s.pcs[c] == s.pcs[c];
    if At(s, c, Resolving) { assert k !in s.resolved by { assert s.owner[k] == c; } }
    forall x {:trigger x in t.resolved} ensures x in t.resolved <==> x in t.owner && t.owner[x] in t.pcs && ResolverCalled(PcOf(t, x)) {
      ResolvedAt(p, s, t, c, x);
    }
  }

  lemma ResolvedNow<K(!new)>(p: Params<K>, s: State<K>, x: K)
    requires ResolvedInv(p, s)
    ensures x in s.resolved <==> x in s.owner && s.owner[x] in s.pcs && ResolverCalled(PcOf(s, x))
  {
  }

  lemma OwnerIs<K(!new)>(p: Params<K>, s: State<K>, x: K, c: Call<K>)
    requires OwnerInv(p, s) && x in s.owner && c in s.pcs
    ensures s.owner[x] in s.pcs && (s.owner[x] == c && !s.pcs[c].Back? ==> Owning(s.pcs[c]))
    ensures ValidCall(p, c) && (Owning(s.pcs[c]) && Key(p, c) == x ==> s.owner[x] == c) && (s.owner[x] == c ==> Key(p, c) == x)
  {
    assert s.pcs[c] == s.pcs[c];
  }

  lemma ResolvedAt<K(!new)>(p: Params<K>, s: State<K>, t: State<K>, c: Call<K>, x: K)
    requires OwnerInv(p, s) && ResolvedInv(p, s) && CallStep(p, s, t, c) && OwnerStays(p, s, t, c) && ResolvedGrows(p, s, t, c)
    ensures x in t.resolved <==> x in t.owner && t.owner[x] in t.pcs && ResolverCalled(PcOf(t, x))
  {
    hide Started, StartsOne, Past, Bad, OwnerInv, ResolvedInv;
    ResolvedNow(p, s, x);
    if x in s.owner {
      OwnerIs(p, s, x, c);
      assert t.owner[x] == s.owner[x] && s.owner[x] in t.pcs;
    } else if At(s, c, Resolving) && x == Key(p, c) {
      ResolvingOwned(p, s, c);
    }
  }

  lemma ResolvingOwned<K(!new)>(p: Params<K>, s: State<K>, c: Call<K>)
    requires OwnerInv(p, s) && At(s, c, Resolving)
    ensures ValidCall(p, c) && Key(p, c) in s.owner && s.owner[Key(p, c)] == c
  {
    assert s.pcs[c] == Resolving;
  }

  /** The action is one of a call: which one, if any. */
  function Caller<K>(a: Action<K>): Option<Call<K>> {
    match a
    case Enter(c) => Some(c)
    case Claim(c) => Some(c)
    case WaitDone(c) => Some(c)
    case WaitCancelled(c) => Some(c)
    case Add(c) => Some(c)
    case Resolve(c, _) => Some(c)
    case List(c, _) => Some(c)
    case Link(c) => Some(c)
    case EndLoop(c) => Some(c)
    case Join(c) => Some(c)
    case Close(c) => Some(c)
    case _ => None
  }

  ghost predicate Steps<K(!new)>(p: Params<K>, s: State<K>, a: Action<K>, c: Call<K>)
    requires Enabled(p, s, a)
  {
    Step(p, s, Next(p, s, a), c)
  }

  /** Nothing changes but the position of c, which is and stays outside the owner's part. */
  lemma OutsideSteps<K(!new)>(p: Params<K>, s: State<K>, t: State<K>, c: Call<K>, pc: Pc)
    requires c in s.pcs && ValidCall(p, c) && !s.pcs[c].Back? && !Owning(s.pcs[c]) && !Owning(pc)
    requires t == s.(pcs := s.pcs[c := pc], cancelled := t.cancelled)
    ensures Step(p, s, t, c)
  {
    assert t.pcs.Keys == s.pcs.Keys;
  }

  /** The owner of a key moves on, without starting a call. */
  lemma OwnerSteps<K(!new)>(p: Params<K>, s: State<K>, t: State<K>, c: Call<K>, pc: Pc)
    requires OwnerInv(p, s) && c in s.pcs && ValidCall(p, c) && Owning(s.pcs[c])
    requires t.pcs == s.pcs[c := pc] && t.owner == s.owner && t.born == s.born && t.result == s.result
    requires EdgesGrow(p, s, t, c) && ResolvedGrows(p, s, t, c) && StatesStay(p, s, t, c)
    requires (forall i: nat {:trigger Past(pc, i)} :: Past(s.pcs[c], i) ==> Past(pc, i)) && (Bad(s.pcs[c]) ==> Bad(pc))
    requires Progressed(p, t, Key(p, c), pc)
    ensures Step(p, s, t, c)
  {
    hide EdgesGrow, ResolvedGrows, StatesStay, Progressed, Past, Bad, OwnerInv, Started, StartsOne;
    assert t.pcs.Keys == s.pcs.Keys;
  }

  lemma SameEdgesGrow<K(!new)>(p: Params<K>, s: State<K>, t: State<K>, c: Call<K>)
    requires ValidCall(p, c) && t.adj == s.adj
    ensures EdgesGrow(p, s, t, c)
  {
    hide HasEdge, Called;
  }

  lemma OneStateChanges<K(!new)>(p: Params<K>, s: State<K>, t: State<K>, c: Call<K>, pc: Pc, st: DiscoveryState)
    requires OwnerInv(p, s) && StateInv(p, s) && c in s.pcs && ValidCall(p, c) && Owning(s.pcs[c])
    requires t.pcs == s.pcs[c := pc] && Key(p, c) in t.adj
    requires t.vstate == s.vstate[Key(p, c) := st] || (t.vstate == s.vstate && st == CurrentState(s, Key(p, c)))
    requires StateAgrees(st, pc)
    ensures StatesStay(p, s, t, c)
  {
    hide OwnerInv, StateInv, StateAgrees;
  }

  lemma ClaimSteps<K(!new)>(p: Params<K>, s: State<K>, c: Call<K>)
    requires StateInv(p, s) && Enabled(p, s, Claim(c)) && Key(p, c) !in s.owner
    ensures Steps(p, s, Claim(c), c)
  {
    hide GraphInv, OwnerInv, ChildInv, EdgeInv, VertexInv, BornInv, ResultInv, ResolvedInv, ReachInv, EdgesGrow, Progressed;
    var t := Next(p, s, Claim(c));
    SameEdgesGrow(p, s, t, c);
    assert t.pcs.Keys == s.pcs.Keys;
    assert CurrentState(s, Key(p, c)) == Unknown;
  }

  lemma AddSteps<K(!new)>(p: Params<K>, s: State<K>, c: Call<K>)
    requires OwnerInv(p, s) && StateInv(p, s) && Enabled(p, s, Add(c))
    ensures Steps(p, s, Add(c), c)
  {
    hide GraphInv, OwnerInv, ChildInv, EdgeInv, VertexInv, BornInv, ResultInv, ResolvedInv, ReachInv, StateInv;
    var t := Next(p, s, Add(c));
    OneStateChanges(p, s, t, c, Resolving, Discovering);
    OwnerSteps(p, s, t, c, Resolving);
  }

  lemma ResolveSteps<K(!new)>(p: Params<K>, s: State<K>, c: Call<K>, ok: bool)
    requires OwnerInv(p, s) && StateInv(p, s) && Enabled(p, s, Resolve(c, ok))
    ensures Steps(p, s, Resolve(c, ok), c)
  {
    hide GraphInv, OwnerInv, ChildInv, EdgeInv, VertexInv, BornInv, ResultInv, ResolvedInv, ReachInv, StateInv, EdgesGrow, StatesStay;
    var t := Next(p, s, Resolve(c, ok));
    OwnedVertex(p, s, c);
    SameEdgesGrow(p, s, t, c);
    OneStateChanges(p, s, t, c, t.pcs[c], if ok then Discovered else Error);
    OwnerSteps(p, s, t, c, t.pcs[c]);
  }

  lemma ListSteps<K(!new)>(p: Params<K>, s: State<K>, c: Call<K>, ok: bool)
    requires OwnerInv(p, s) && StateInv(p, s) && Enabled(p, s, List(c, ok))
    ensures Steps(p, s, List(c, ok), c)
  {
    hide GraphInv, OwnerInv, ChildInv, EdgeInv, VertexInv, BornInv, ResultInv, ResolvedInv, ReachInv, StateInv, EdgesGrow, StatesStay;
    var t := Next(p, s, List(c, ok));
    OwnedVertex(p, s, c);
    SameEdgesGrow(p, s, t, c);
    OneStateChanges(p, s, t, c, t.pcs[c], if ok then Discovered else Error);
    OwnerSteps(p, s, t, c, t.pcs[c]);
  }

  lemma ProgressOf<K(!new)>(p: Params<K>, s: State<K>, c: Call<K>)
    requires OwnerInv(p, s) && EdgeInv(p, s) && c in s.pcs && ValidCall(p, c) && Owning(s.pcs[c])
    ensures Progressed(p, s, Key(p, c), s.pcs[c])
  {
    assert s.owner[Key(p, c)] == c;
  }

  lemma EndLoopSteps<K(!new)>(p: Params<K>, s: State<K>, c: Call<K>)
    requires OwnerInv(p, s) && StateInv(p, s) && EdgeInv(p, s) && Enabled(p, s, EndLoop(c))
    ensures Steps(p, s, EndLoop(c), c)
  {
    hide GraphInv, OwnerInv, ChildInv, EdgeInv, VertexInv, BornInv, ResultInv, ResolvedInv, ReachInv, StateInv, EdgesGrow, StatesStay;
    var t := Next(p, s, EndLoop(c));
    OwnedVertex(p, s, c);
    SameEdgesGrow(p, s, t, c);
    OneStateChanges(p, s, t, c, t.pcs[c], Discovered);
    ProgressOf(p, s, c);
    OwnerSteps(p, s, t, c, t.pcs[c]);
  }

  lemma JoinSteps<K(!new)>(p: Params<K>, s: State<K>, c: Call<K>)
    requires OwnerInv(p, s) && StateInv(p, s) && EdgeInv(p, s) && Enabled(p, s, Join(c))
    ensures Steps(p, s, Join(c), c)
  {
    hide GraphInv, OwnerInv, ChildInv, EdgeInv, VertexInv, BornInv, ResultInv, ResolvedInv, ReachInv, StateInv, EdgesGrow, StatesStay, AllWell;
    var t := Next(p, s, Join(c));
    var k := Key(p, c);
    OwnedVertex(p, s, c);
    SameEdgesGrow(p, s, t, c);
    OneStateChanges(p, s, t, c, t.pcs[c], if t.pcs[c].bad then Error else Completed);
    ProgressOf(p, s, c);
    if !t.pcs[c].bad { AllJoined(p, s, t, c, k); }
    OwnerSteps(p, s, t, c, t.pcs[c]);
  }

  lemma AllJoined<K(!new)>(p: Params<K>, s: State<K>, t: State<K>, c: Call<K>, k: K)
    requires c in s.pcs && Owning(s.pcs[c]) && t.pcs == s.pcs[c := Closing(false)]
    requires ChildrenBack(s, k) && !ChildFailed(s, k)
    requires forall i: nat {:trigger Child(k, i)} :: i < |p.next(k)| ==> Child(k, i) in s.pcs
    ensures AllWell(p, t, k)
  {
    forall i: nat {:trigger Child(k, i)} | i < |p.next(k)| ensures At(t, Child(k, i), Back(false)) {
      var d := Child(k, i);
      assert s.pcs[d].Back? && !At(s, d, Back(true));
      assert d != c;
    }
  }

  lemma CloseSteps<K(!new)>(p: Params<K>, s: State<K>, c: Call<K>)
    requires OwnerInv(p, s) && StateInv(p, s) && EdgeInv(p, s) && Enabled(p, s, Close(c))
    ensures Steps(p, s, Close(c), c)
  {
    hide GraphInv, OwnerInv, ChildInv, EdgeInv, VertexInv, BornInv, ResultInv, ResolvedInv, ReachInv, StateInv, EdgesGrow, StatesStay, AllWell;
    var t := Next(p, s, Close(c));
    var k := Key(p, c);
    OwnedVertex(p, s, c);
    SameEdgesGrow(p, s, t, c);
    OneStateChanges(p, s, t, c, t.pcs[c], CurrentState(s, k));
    ProgressOf(p, s, c);
    if !s.pcs[c].bad { WellStays(p, s, t, c, k); }
    OwnerSteps(p, s, t, c, t.pcs[c]);
  }

  lemma WellStays<K(!new)>(p: Params<K>, s: State<K>, t: State<K>, c: Call<K>, k: K)
    requires AllWell(p, s, k) && c in s.pcs && !s.pcs[c].Back? && forall d :: d in s.pcs && d != c ==> d in t.pcs && t.pcs[d] == s.pcs[d]
    ensures AllWell(p, t, k)
  {
    forall i: nat {:trigger Child(k, i)} | i < |p.next(k)| ensures At(t, Child(k, i), Back(false)) {
      assert At(s, Child(k, i), Back(false));
    }
  }

  lemma VertexEdges<K(!new)>(g: map<K, set<K>>, v: K)
    ensures forall x, y {:trigger HasEdge(WithVertex(g, v), x, y)} :: HasEdge(WithVertex(g, v), x, y) <==> HasEdge(g, x, y)
    ensures forall x {:trigger x in WithVertex(g, v)} :: x in WithVertex(g, v) <==> x in g || x == v
  {
  }

  lemma NewEdges<K(!new)>(g: map<K, set<K>>, a: K, b: K)
    requires a in g
    ensures forall x, y {:trigger HasEdge(WithEdge(g, a, b), x, y)} :: HasEdge(WithEdge(g, a, b), x, y) <==> HasEdge(g, x, y) || (x == a && y == b)
    ensures WithEdge(g, a, b).Keys == g.Keys
  {
  }

  lemma SameStates<K(!new)>(p: Params<K>, s: State<K>, t: State<K>, c: Call<K>, n: K)
    requires s.vstate.Keys == s.adj.Keys && OwnerInv(p, s) && StateInv(p, s) && c in s.pcs && ValidCall(p, c) && Owning(s.pcs[c]) && s.pcs[c] != Adding
    requires t.vstate == if n in s.adj then s.vstate else s.vstate[n := Unknown]
    requires c in t.pcs && Key(p, c) in t.adj && forall st :: StateAgrees(st, s.pcs[c]) ==> StateAgrees(st, t.pcs[c])
    ensures StatesStay(p, s, t, c)
  {
    OwnedVertex(p, s, c);
    hide OwnerInv, StateInv;
    assert n in s.adj.Keys <==> n in s.vstate.Keys;
  }

  lemma RejectSteps<K(!new)>(p: Params<K>, s: State<K>, c: Call<K>)
    requires GraphInv(p, s) && OwnerInv(p, s) && StateInv(p, s) && Enabled(p, s, Link(c)) && At(Next(p, s, Link(c)), c, Joining(true))
    ensures Steps(p, s, Link(c), c)
  {
    hide Sound, OwnerInv, ChildInv, EdgeInv, VertexInv, BornInv, ResultInv, ResolvedInv, ReachInv, StateInv,
      StatesStay, AllWell, HasEdge, Called, Admitted, WithVertex;
    var t := Next(p, s, Link(c));
    var n := p.next(Key(p, c))[s.pcs[c].i];
    VertexEdges(s.adj, n);
    SameStates(p, s, t, c, n);
    OwnerSteps(p, s, t, c, Joining(true));
  }

  lemma AcceptEdges<K(!new)>(p: Params<K>, s: State<K>, t: State<K>, c: Call<K>)
    requires ValidCall(p, c) && c in s.pcs && s.pcs[c].Linking? && s.pcs[c].i < |p.next(Key(p, c))| && Key(p, c) in s.adj
    requires t.adj == WithEdge(WithVertex(s.adj, p.next(Key(p, c))[s.pcs[c].i]), Key(p, c), p.next(Key(p, c))[s.pcs[c].i])
    requires Child(Key(p, c), s.pcs[c].i) in t.pcs
    ensures EdgesGrow(p, s, t, c)
    ensures HasEdge(t.adj, Key(p, c), p.next(Key(p, c))[s.pcs[c].i]) && Key(p, c) in t.adj
  {
    hide HasEdge, WithVertex, WithEdge, Called;
    var k, n := Key(p, c), p.next(Key(p, c))[s.pcs[c].i];
    VertexEdges(s.adj, n);
    NewEdges(WithVertex(s.adj, n), k, n);
    CalledNow(p, t, Child(k, s.pcs[c].i));
  }

  lemma CalledNow<K(!new)>(p: Params<K>, s: State<K>, c: Call<K>)
    requires c in s.pcs && ValidCall(p, c)
    ensures Called(p, s, Key(p, c))
  {
    assert s.pcs[c] == s.pcs[c];
  }

  lemma AcceptCalls<K(!new)>(p: Params<K>, s: State<K>, t: State<K>, c: Call<K>, d: Call<K>)
    requires c in s.pcs && ValidCall(p, c) && ValidCall(p, d) && s.pcs[c].Linking? && d == Child(Key(p, c), s.pcs[c].i) && d !in s.pcs
    requires t.pcs == s.pcs[c := Linking(s.pcs[c].i + 1)][d := Entering] && t.born == s.born + [d]
    requires HasEdge(t.adj, Key(p, c), Key(p, d))
    ensures CallStep(p, s, t, c)
  {
    hide HasEdge;
    assert t.pcs.Keys == s.pcs.Keys + {d};
    assert d.i == s.pcs[c].i && Past(t.pcs[c], d.i);
    assert StartsOne(p, s, t, c, d);
  }

  lemma AcceptProgress<K(!new)>(p: Params<K>, s: State<K>, t: State<K>, c: Call<K>, k: K, j: nat)
    requires c in s.pcs && Progressed(p, s, k, Linking(j)) && j < |p.next(k)|
    requires t.pcs == s.pcs[c := Linking(j + 1)][Child(k, j) := Entering]
    ensures Progressed(p, t, k, Linking(j + 1))
  {
    forall i: nat {:trigger Child(k, i)} | i < j + 1 ensures Child(k, i) in t.pcs {
      assert i < j ==> Child(k, i) in s.pcs;
    }
  }

  lemma AcceptSteps<K(!new)>(p: Params<K>, s: State<K>, c: Call<K>)
    requires GraphInv(p, s) && OwnerInv(p, s) && ChildInv(p, s) && StateInv(p, s) && EdgeInv(p, s) && Enabled(p, s, Link(c)) && Next(p, s, Link(c)).pcs[c].Linking?
    ensures Steps(p, s, Link(c), c)
  {
    hide Sound, OwnerInv, ChildInv, EdgeInv, VertexInv, BornInv, ResultInv, ResolvedInv, ReachInv, StateInv,
      StatesStay, EdgesGrow, AllWell, HasEdge, Called, Admitted, WithVertex, WithEdge, CallStep, Progressed;
    var t := Next(p, s, Link(c));
    var k, i := Key(p, c), s.pcs[c].i;
    NewCallLater(p, s, c);
    ProgressOf(p, s, c);
    AcceptEdges(p, s, t, c);
    AcceptCalls(p, s, t, c, Child(k, i));
    AcceptProgress(p, s, t, c, k, i);
    SameStates(p, s, t, c, p.next(k)[i]);
  }

  /** Every action of a call is a step of that call. */
  lemma ActionSteps<K(!new)>(p: Params<K>, s: State<K>, a: Action<K>, c: Call<K>)
    requires Inv(p, s) && Enabled(p, s, a) && Caller(a) == Some(c)
    ensures Steps(p, s, a, c)
  {
    hide GraphInv, OwnerInv, ChildInv, EdgeInv, VertexInv, BornInv, ResultInv, ResolvedInv, ReachInv, StateInv, Step;
    CallsValid(p, s);
    match a
    case Enter(_) => OutsideSteps(p, s, Next(p, s, a), c, Next(p, s, a).pcs[c]);
    case Claim(_) => if Key(p, c) in s.owner { OutsideSteps(p, s, Next(p, s, a), c, Waiting); } else { ClaimSteps(p, s, c); }
    case WaitDone(_) => OutsideSteps(p, s, Next(p, s, a), c, Back(false));
    case WaitCancelled(_) => OutsideSteps(p, s, Next(p, s, a), c, Back(true));
    case Add(_) => AddSteps(p, s, c);
    case Resolve(_, ok) => ResolveSteps(p, s, c, ok);
    case List(_, ok) => ListSteps(p, s, c, ok);
    case Link(_) => if Next(p, s, Link(c)).pcs[c].Linking? { AcceptSteps(p, s, c); } else { RejectSteps(p, s, c); }
    case EndLoop(_) => EndLoopSteps(p, s, c);
    case Join(_) => JoinSteps(p, s, c);
    case Close(_) => CloseSteps(p, s, c);
  }

  lemma CallKeepsInv<K(!new)>(p: Params<K>, s: State<K>, t: State<K>, c: Call<K>)
    requires Inv(p, s) && Step(p, s, t, c) && GraphInv(p, t) && OwnerInv(p, t)
    ensures Inv(p, t)
  {
    hide GraphInv, OwnerInv, ChildInv, EdgeInv, VertexInv, BornInv, ResultInv, ResolvedInv, ReachInv, StateInv;
    hide CallStep, OwnerStays, EdgesGrow, StatesStay, ResolvedGrows, Progressed;
    ChildStep(p, s, t, c);
    EdgeStep(p, s, t, c);
    EdgesKept(p, s, t, c);
    StateStep(p, s, t, c);
    VertexStep(p, s, t, c);
    ReachStep(p, s, t, c);
    BornStep(p, s, t, c);
    ResultStep(p, s, t, c);
    ResolvedStep(p, s, t, c);
  }

  lemma EdgesKept<K(!new)>(p: Params<K>, s: State<K>, t: State<K>, c: Call<K>)
    requires ValidCall(p, c) && EdgesGrow(p, s, t, c)
    ensures forall v {:trigger v in t.adj} :: v in s.adj ==> v in t.adj
  {
  }

  /** Only the contexts and the result change. */
  lemma OtherKeepsInv<K(!new)>(p: Params<K>, s: State<K>, t: State<K>)
    requires Inv(p, s) && t == s.(cancelled := t.cancelled, result := t.result) && ResultInv(p, t)
    ensures Inv(p, t)
  {
    hide GraphInv, OwnerInv, ChildInv, EdgeInv, VertexInv, BornInv, ResultInv, ResolvedInv, ReachInv, StateInv;
    OwnerSame(p, s, t);
    SameButContexts(p, s, t);
    VerticesSame(p, s, t);
    EdgesSame(p, s, t);
  }

  lemma SameButContexts<K(!new)>(p: Params<K>, s: State<K>, t: State<K>)
    requires GraphInv(p, s) && ChildInv(p, s) && StateInv(p, s) && BornInv(p, s) && ResolvedInv(p, s) && ReachInv(p, s)
    requires t == s.(cancelled := t.cancelled, result := t.result)
    ensures GraphInv(p, t) && ChildInv(p, t) && StateInv(p, t) && BornInv(p, t) && ResolvedInv(p, t) && ReachInv(p, t)
  {
    hide Sound, Past, StateAgrees;
  }

  lemma VerticesSame<K(!new)>(p: Params<K>, s: State<K>, t: State<K>)
    requires VertexInv(p, s) && t == s.(cancelled := t.cancelled, result := t.result)
    ensures VertexInv(p, t)
  {
    forall v {:trigger Called(p, t, v)} | v in t.adj ensures Called(p, t, v) || SomeBad(t) {
      assert Called(p, s, v) ==> Called(p, t, v);
      assert SomeBad(s) ==> SomeBad(t);
    }
  }

  lemma EdgesSame<K(!new)>(p: Params<K>, s: State<K>, t: State<K>)
    requires EdgeInv(p, s) && t == s.(cancelled := t.cancelled, result := t.result)
    ensures EdgeInv(p, t)
  {
    forall k {:trigger t.owner[k]} | k in t.owner && t.owner[k] in t.pcs ensures Progressed(p, t, k, PcOf(t, k)) {
      assert Progressed(p, s, k, PcOf(s, k));
    }
  }

  lemma OtherStep<K(!new)>(p: Params<K>, s: State<K>, a: Action<K>)
    requires Inv(p, s) && Enabled(p, s, a) && Caller(a) == None
    ensures Inv(p, Next(p, s, a))
  {
    hide GraphInv, OwnerInv, ChildInv, EdgeInv, VertexInv, BornInv, ResolvedInv, ReachInv, StateInv;
    var t := Next(p, s, a);
    if t.result == Some(false) {
      forall c: Call<K> {:trigger At(t, c, Back(false))} | c.Root? && c.r < |p.roots| ensures At(t, c, Back(false)) {
        if a.Finish? {
          assert c in s.pcs && s.pcs[c].Back? && !At(s, c, Back(true));
        } else {
          assert At(s, c, Back(false));
        }
      }
    }
    OtherKeepsInv(p, s, Next(p, s, a));
  }

  lemma InvParts<K(!new)>(p: Params<K>, s: State<K>, a: Action<K>)
    requires Inv(p, s) && Enabled(p, s, a)
    ensures GraphInv(p, Next(p, s, a)) && OwnerInv(p, Next(p, s, a))
  {
    hide Enabled, Next, GraphInv, OwnerInv, ChildInv, EdgeInv, StateInv, VertexInv, BornInv, ResultInv, ResolvedInv, ReachInv;
    GraphStep(p, s, a);
    OwnerStep(p, s, a);
  }
}
