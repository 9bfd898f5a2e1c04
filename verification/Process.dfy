/** The parallel form of Kahn's algorithm (bindings/go/dag/sync/process.go) as a state machine:
    one coordinator and one goroutine per started vertex, in every interleaving. Each action is
    one indivisible step: a loop test, a channel operation, a section under the graph's lock, or
    the return of a goroutine. */
module Process {
  import opened Graphs
  import opened TopoOrder

  /** The graph, and how many vertices may be processed at once (no limit if not positive). */
  datatype Params<T> = Params(g: map<T, set<T>>, limit: int)

  /** What became of a vertex: not started; its processor running; returned without error and about
      to report; reported (active while its goroutine still holds its slot); failed. */
  datatype Phase = Waiting | Working | Sending | Sent(active: bool) | Failed

  datatype Result<T> = Nil | WorkerError(node: T) | Cancelled | Stalled(left: int)

  /** Where the coordinator is. Launching(i) and Spawning(i) are at ready[i]: before the context is
      tested, and blocked in errgroup.Go. Draining waits for the group, after all vertices finished
      or after the group context ended. */
  datatype Pc<T> =
    | Launching(i: nat)
    | Spawning(i: nat)
    | Checking
    | Selecting
    | Draining(cancelled: bool)
    | Returned(result: Result<T>)

  datatype State<T> = State(
    pc: Pc<T>,
    ready: seq<T>,
    inDegree: map<T, int>,
    inFlight: int,
    done: seq<T>,            // the buffered channel
    taken: seq<T>,           // what the coordinator received from it so far
    phase: map<T, Phase>,
    groupDone: bool,         // the group context has ended
    parentDone: bool,        // the caller's context has ended
    firstError: Option<T>)

  datatype Action<T> =
    | LaunchNext | LaunchBreak | LaunchEnd | Spawn | Check
    | Receive(order: seq<T>) | SeeCancel | DrainEnd
    | Succeed(v: T) | Fail(v: T) | Send(v: T) | Leave(v: T)
    | ParentCancel

  ghost function Started<T(!new)>(s: State<T>): set<T> {
    set v | v in s.phase && s.phase[v] != Waiting
  }

  /** The goroutines that hold a slot of the group. */
  ghost function Workers<T(!new)>(s: State<T>): set<T> {
    set v | v in s.phase && (s.phase[v] == Working || s.phase[v] == Sending || s.phase[v] == Sent(true))
  }

  predicate Succeeded<T>(s: State<T>, v: T) {
    v in s.phase && (s.phase[v] == Sending || s.phase[v].Sent?)
  }

  /** The vertices of ready the coordinator has not handed out yet. */
  function Pending<T>(s: State<T>): seq<T> {
    if (s.pc.Launching? || s.pc.Spawning?) && s.pc.i <= |s.ready| then s.ready[s.pc.i..] else []
  }

  /** The counters once v is finished. */
  function Decremented<T>(p: Params<T>, inDegree: map<T, int>, v: T): map<T, int>
    requires v in p.g
  {
    map x | x in inDegree :: if x in p.g[v] then inDegree[x] - 1 else inDegree[x]
  }

  /** order lists, once each and in any order, the children of v whose counter becomes zero. */
  ghost predicate Unlocks<T(!new)>(p: Params<T>, inDegree: map<T, int>, v: T, order: seq<T>)
    requires v in p.g
  {
    && Distinct(order)
    && forall x :: x in order <==> x in p.g[v] && x in inDegree && inDegree[x] == 1
  }

  ghost predicate HasInDegree<T(!new)>(g: map<T, set<T>>, inDegree: map<T, int>, v: T) {
    v in inDegree && inDegree[v] == |Preds(g, v)|
  }

  ghost predicate Init<T(!new)>(p: Params<T>, s: State<T>) {
    && s.inDegree.Keys == p.g.Keys && s.phase.Keys == p.g.Keys
    && (forall v {:trigger HasInDegree(p.g, s.inDegree, v)} :: v in p.g ==> HasInDegree(p.g, s.inDegree, v))
    && (forall v {:trigger s.phase[v]} :: v in p.g ==> s.phase[v] == Waiting)
    && Distinct(s.ready) && (forall v :: v in s.ready <==> v in p.g && Preds(p.g, v) == {})
    && s.pc == (if |p.g| > 0 then Launching(0) else Draining(false))
    && s.inFlight == 0 && s.done == [] && s.taken == [] && s.firstError == None
    && s.groupDone == s.parentDone
  }

  ghost predicate Enabled<T(!new)>(p: Params<T>, s: State<T>, a: Action<T>) {
    match a
    case LaunchNext => s.pc.Launching? && s.pc.i < |s.ready| && !s.groupDone
    case LaunchBreak => s.pc.Launching? && s.pc.i < |s.ready| && s.groupDone
    case LaunchEnd => s.pc.Launching? && s.pc.i >= |s.ready|
    case Spawn => s.pc.Spawning? && s.pc.i < |s.ready| && (p.limit <= 0 || |Workers(s)| < p.limit)
    case Check => s.pc.Checking?
    case Receive(order) => s.pc.Selecting? && s.done != [] && s.done[0] in p.g && Unlocks(p, s.inDegree, s.done[0], order)
    case SeeCancel => s.pc.Selecting? && s.groupDone
    case DrainEnd => s.pc.Draining? && Workers(s) == {}
    case Succeed(v) => v in s.phase && s.phase[v] == Working
    case Fail(v) => v in s.phase && s.phase[v] == Working
    case Send(v) => v in s.phase && s.phase[v] == Sending && |s.done| < |p.g|
    case Leave(v) => v in s.phase && s.phase[v] == Sent(true)
    case ParentCancel => !s.parentDone
  }

  ghost function Next<T(!new)>(p: Params<T>, s: State<T>, a: Action<T>): State<T>
    requires Enabled(p, s, a)
  {
    match a
    case LaunchNext => s.(pc := Spawning(s.pc.i), inFlight := s.inFlight + 1)
    case LaunchBreak => s.(pc := Checking, ready := [])
    case LaunchEnd => s.(pc := Checking, ready := [])
    case Spawn => s.(pc := Launching(s.pc.i + 1), phase := s.phase[s.ready[s.pc.i] := Working])
    case Check =>
      if s.inFlight == 0 && !s.groupDone then s.(pc := Returned(Stalled(|p.g| - |s.taken|)))
      else s.(pc := Selecting)
    case Receive(order) =>
      s.(done := s.done[1..], taken := s.taken + [s.done[0]], inFlight := s.inFlight - 1, ready := order,
         inDegree := Decremented(p, s.inDegree, s.done[0]),
         pc := if |s.taken| + 1 < |p.g| then Launching(0) else Draining(false))
    case SeeCancel => s.(pc := Draining(true))
    case DrainEnd =>
      s.(pc := Returned(
        if s.firstError.Some? then WorkerError(s.firstError.value)
        else if s.pc.cancelled && s.parentDone then Cancelled
        else Nil))
    case Succeed(v) => s.(phase := s.phase[v := Sending])
    case Fail(v) =>
      s.(phase := s.phase[v := Failed], groupDone := true,
         firstError := if s.firstError.None? then Some(v) else s.firstError)
    case Send(v) => s.(done := s.done + [v], phase := s.phase[v := Sent(true)])
    case Leave(v) => s.(phase := s.phase[v := Sent(false)])
    case ParentCancel => s.(parentDone := true, groupDone := true)
  }

  // ---- the invariant, in parts ----

  /** The channel and what was taken from it hold each reported vertex once. */
  ghost predicate ChannelInv<T(!new)>(p: Params<T>, s: State<T>) {
    && s.phase.Keys == p.g.Keys
    && Distinct(s.done) && Distinct(s.taken)
    && (forall v :: v in s.done ==> v !in s.taken)
    && (forall v :: v in s.done || v in s.taken <==> v in s.phase && s.phase[v].Sent?)
  }

  ghost predicate Unlocked<T(!new)>(p: Params<T>, s: State<T>, v: T) {
    Preds(p.g, v) <= Elements(s.taken)
  }

  ghost function Missing<T(!new)>(g: map<T, set<T>>, taken: set<T>, v: T): set<T> {
    Preds(g, v) - taken
  }

  ghost predicate Counts<T(!new)>(g: map<T, set<T>>, degree: map<T, int>, taken: set<T>) {
    degree.Keys == g.Keys && forall v {:trigger CountAt(g, degree, taken, v)} :: v in g ==> CountAt(g, degree, taken, v)
  }

  ghost predicate CountAt<T(!new)>(g: map<T, set<T>>, degree: map<T, int>, taken: set<T>, v: T) {
    v in degree && degree[v] == |Missing(g, taken, v)|
  }

  /** inDegree counts the predecessors not yet taken. */
  ghost predicate DegreeInv<T(!new)>(p: Params<T>, s: State<T>) {
    Counts(p.g, s.inDegree, Elements(s.taken))
  }

  /** Only unlocked vertices are started or about to be; and unless the group context has ended,
      every unlocked vertex is. */
  ghost predicate ReadyInv<T(!new)>(p: Params<T>, s: State<T>) {
    && s.phase.Keys == p.g.Keys && Distinct(s.ready)
    && (forall v {:trigger s.phase[v]} :: v in p.g && s.phase[v] != Waiting ==> Unlocked(p, s, v))
    && (forall v {:trigger v in Pending(s)} :: v in Pending(s) ==> v in p.g && s.phase[v] == Waiting && Unlocked(p, s, v))
    && (!s.groupDone ==> forall v {:trigger v in Pending(s)} :: v in p.g && Unlocked(p, s, v) && s.phase[v] == Waiting ==> v in Pending(s))
    && PredsFirst(p.g, s.taken)
  }

  ghost predicate CountInv<T(!new)>(p: Params<T>, s: State<T>) {
    && s.inFlight == |Started(s)| - |s.taken| + (if s.pc.Spawning? then 1 else 0)
    && (p.limit > 0 ==> |Workers(s)| <= p.limit)
    && |s.ready| <= |p.g|
  }

  ghost predicate ErrorInv<T(!new)>(p: Params<T>, s: State<T>) {
    && (s.parentDone ==> s.groupDone)
    && (s.groupDone ==> s.parentDone || s.firstError.Some?)
    && (s.firstError.Some? ==> s.firstError.value in s.phase && s.phase[s.firstError.value] == Failed)
    && (forall v :: v in s.phase && s.phase[v] == Failed ==> s.firstError.Some? && s.groupDone)
  }

  /** What the coordinator knows at each point. */
  ghost predicate PcInv<T(!new)>(p: Params<T>, s: State<T>) {
    match s.pc
    case Launching(i) => i <= |s.ready| && |s.taken| < |p.g|
    case Spawning(i) => i < |s.ready| && |s.taken| < |p.g|
    case Checking => |s.taken| < |p.g|
    case Selecting => |s.taken| < |p.g| && (s.inFlight != 0 || s.groupDone)
    case Draining(cancelled) => if cancelled then s.groupDone && |s.taken| < |p.g| else |s.taken| == |p.g|
    case Returned(Nil) => |s.taken| == |p.g|
    case Returned(WorkerError(v)) => s.firstError == Some(v) && Workers(s) == {}
    case Returned(Cancelled) => s.parentDone && s.firstError == None && Workers(s) == {} && |s.taken| < |p.g|
    case Returned(Stalled(n)) => n == |p.g| - |s.taken| > 0 && s.inFlight == 0 && StallInv(p, s)
  }

  /** A stall is only reported when every vertex not taken waits for another one not taken. */
  ghost predicate StallInv<T(!new)>(p: Params<T>, s: State<T>) {
    && s.firstError == None
    && forall v :: v in p.g && v !in s.taken ==> PredIn(p.g, p.g.Keys - Elements(s.taken), v)
  }

  ghost predicate Inv<T(!new)>(p: Params<T>, s: State<T>) {
    ChannelInv(p, s) && DegreeInv(p, s) && ReadyInv(p, s) && CountInv(p, s) && ErrorInv(p, s) && PcInv(p, s)
  }

  // ---- every action keeps it ----

  lemma ChannelSends<T(!new)>(p: Params<T>, s: State<T>, t: State<T>, v: T)
    requires ChannelInv(p, s) && v in s.phase && s.phase[v] == Sending
    requires t.phase == s.phase[v := Sent(true)] && t.done == s.done + [v] && t.taken == s.taken
    ensures ChannelInv(p, t)
  {
    assert forall x :: x in t.done <==> x in s.done || x == v;
  }

  lemma ChannelReceives<T(!new)>(p: Params<T>, s: State<T>, t: State<T>)
    requires ChannelInv(p, s) && s.done != []
    requires t.phase == s.phase && t.done == s.done[1..] && t.taken == s.taken + [s.done[0]]
    ensures ChannelInv(p, t)
  {
    assert s.done == [s.done[0]] + s.done[1..] && s.done[0] in s.done;
    assert forall i :: 0 <= i < |t.done| ==> t.done[i] == s.done[i + 1] && t.done[i] != s.done[0];
    assert forall x :: x in t.taken <==> x in s.taken || x == s.done[0];
    assert forall x :: x in s.done <==> x == s.done[0] || x in t.done;
  }

  /** v changes its phase before or after it is on the channel. */
  lemma ChannelPhase<T(!new)>(p: Params<T>, s: State<T>, t: State<T>, v: T)
    requires ChannelInv(p, s) && v in s.phase && v in t.phase && t.phase == s.phase[v := t.phase[v]]
    requires (t.phase[v].Sent? <==> s.phase[v].Sent?) && t.done == s.done && t.taken == s.taken
    ensures ChannelInv(p, t)
  {
  }

  lemma ChannelSame<T(!new)>(p: Params<T>, s: State<T>, t: State<T>)
    requires ChannelInv(p, s) && t.phase == s.phase && t.done == s.done && t.taken == s.taken
    ensures ChannelInv(p, t)
  {
  }

  lemma ChannelStep<T(!new)>(p: Params<T>, s: State<T>, a: Action<T>)
    requires ChannelInv(p, s) && ReadyInv(p, s) && Enabled(p, s, a)
    ensures ChannelInv(p, Next(p, s, a))
  {
    hide ChannelInv, DegreeInv, ReadyInv, CountInv, ErrorInv, PcInv, Unlocks, Decremented, Workers;
    var t := Next(p, s, a);
    match a
    case Send(v) => ChannelSends(p, s, t, v);
    case Receive(order) => ChannelReceives(p, s, t);
    case Spawn => ReadyAtHand(p, s); ChannelPhase(p, s, t, s.ready[s.pc.i]);
    case Succeed(v) => ChannelPhase(p, s, t, v);
    case Fail(v) => ChannelPhase(p, s, t, v);
    case Leave(v) => ChannelPhase(p, s, t, v);
    case _ => ChannelSame(p, s, t);
  }

  /** Taking n changes the number of missing predecessors of its children only, by one. */
  lemma MissingAfter<T(!new)>(g: map<T, set<T>>, taken: set<T>, n: T, v: T)
    requires n in g && n !in taken
    ensures |Missing(g, taken + {n}, v)| == |Missing(g, taken, v)| - if v in g[n] then 1 else 0
  {
    if v in g[n] {
      assert Missing(g, taken, v) == Missing(g, taken + {n}, v) + {n};
    } else {
      assert Missing(g, taken, v) == Missing(g, taken + {n}, v);
    }
  }

  lemma CountsAfter<T(!new)>(p: Params<T>, degree: map<T, int>, taken: set<T>, n: T)
    requires Counts(p.g, degree, taken) && n in p.g && n !in taken
    ensures Counts(p.g, Decremented(p, degree, n), taken + {n})
  {
    hide Missing;
    forall v | v in p.g ensures CountAt(p.g, Decremented(p, degree, n), taken + {n}, v) {
      assert CountAt(p.g, degree, taken, v);
      MissingAfter(p.g, taken, n, v);
    }
  }

  lemma CountZero<T(!new)>(g: map<T, set<T>>, degree: map<T, int>, taken: set<T>, v: T)
    requires Counts(g, degree, taken) && v in g
    ensures degree[v] == 0 <==> Preds(g, v) <= taken
  {
    hide Preds;
    assert CountAt(g, degree, taken, v);
    NoneLeft(Preds(g, v), taken);
  }

  lemma NoneLeft<T>(a: set<T>, b: set<T>)
    ensures |a - b| == 0 <==> a <= b
  {
    if |a - b| == 0 {
      forall x | x in a ensures x in b {
        assert x in b || x in a - b;
      }
    }
    if a <= b { assert a - b == {}; }
  }

  lemma Extended<T>(s: seq<T>, x: T)
    ensures Elements(s + [x]) == Elements(s) + {x}
  {
  }

  lemma InElements<T>(s: seq<T>, x: T)
    ensures x in Elements(s) <==> x in s
  {
  }

  lemma DegreeStep<T(!new)>(p: Params<T>, s: State<T>, a: Action<T>)
    requires ChannelInv(p, s) && DegreeInv(p, s) && Enabled(p, s, a)
    ensures DegreeInv(p, Next(p, s, a))
  {
    hide ReadyInv, CountInv, ErrorInv, PcInv, Unlocks, Preds, Elements, Counts, Decremented;
    if a.Receive? {
      var n := s.done[0];
      assert n in s.done;
      Extended(s.taken, n);
      InElements(s.taken, n);
      CountsAfter(p, s.inDegree, Elements(s.taken), n);
    }
  }

  /** The same vertices are started, and the same are pending, or none once the context has ended. */
  lemma ReadySame<T(!new)>(p: Params<T>, s: State<T>, t: State<T>)
    requires ReadyInv(p, s) && t.phase.Keys == s.phase.Keys && t.taken == s.taken && (s.groupDone ==> t.groupDone) && (t.ready == s.ready || t.ready == [])
    requires forall v {:trigger t.phase[v]} :: v in t.phase ==> v in s.phase && (t.phase[v] == Waiting <==> s.phase[v] == Waiting)
    requires Pending(t) == Pending(s) || (t.groupDone && Pending(t) == [])
    ensures ReadyInv(p, t)
  {
    hide Preds, Elements, PredsFirst, Pending;
    assert forall v {:trigger Unlocked(p, t, v)} :: Unlocked(p, t, v) <==> Unlocked(p, s, v);
    forall v {:trigger t.phase[v]} | v in p.g && t.phase[v] != Waiting ensures Unlocked(p, t, v) {
      assert s.phase[v] != Waiting;
    }
  }

  lemma ReadyOther<T(!new)>(p: Params<T>, s: State<T>, a: Action<T>)
    requires ReadyInv(p, s) && Enabled(p, s, a) && !a.Receive? && !a.Spawn?
    ensures ReadyInv(p, Next(p, s, a))
  {
    hide ChannelInv, DegreeInv, ReadyInv, CountInv, ErrorInv, PcInv, Unlocks, Decremented, Workers;
    ReadySame(p, s, Next(p, s, a));
  }

  lemma ReadySpawn<T(!new)>(p: Params<T>, s: State<T>)
    requires ReadyInv(p, s) && Enabled(p, s, Spawn)
    ensures ReadyInv(p, Next(p, s, Spawn))
  {
    hide ChannelInv, DegreeInv, CountInv, ErrorInv, PcInv, Preds, Elements, Workers;
    var t := Next(p, s, Spawn);
    assert forall v {:trigger Unlocked(p, t, v)} :: Unlocked(p, t, v) <==> Unlocked(p, s, v);
    var i := s.pc.i;
    assert s.ready[i] in Pending(s) && Pending(s) == [s.ready[i]] + Pending(t);
    assert forall v :: v in Pending(s) <==> v == s.ready[i] || v in Pending(t);
    forall v | v in Pending(t) ensures v != s.ready[i] {
      var k :| 0 <= k < |Pending(t)| && Pending(t)[k] == v;
      assert s.ready[i + 1 + k] == v;
    }
  }

  /** Every vertex that becomes unlocked by taking n is a child of n whose counter drops to zero. */
  lemma UnlockedByTaking<T(!new)>(p: Params<T>, degree: map<T, int>, taken: set<T>, n: T, v: T)
    requires Counts(p.g, degree, taken) && n in p.g && n !in taken && v in p.g
    ensures v in degree && (v in p.g[n] && degree[v] == 1 <==> Preds(p.g, v) <= taken + {n} && !(Preds(p.g, v) <= taken))
  {
    hide *;
    CountsAfter(p, degree, taken, n);
    CountZero(p.g, degree, taken, v);
    CountZero(p.g, Decremented(p, degree, n), taken + {n}, v);
    DecrementedAt(p, degree, taken, n, v);
  }

  lemma DecrementedAt<T(!new)>(p: Params<T>, degree: map<T, int>, taken: set<T>, n: T, v: T)
    requires Counts(p.g, degree, taken) && n in p.g && v in p.g
    ensures v in degree && v in Decremented(p, degree, n) && degree[v] >= 0
    ensures Decremented(p, degree, n)[v] == degree[v] - if v in p.g[n] then 1 else 0
  {
    hide Preds;
    assert CountAt(p.g, degree, taken, v);
  }

  lemma {:induction false} DistinctSize<T>(s: seq<T>)
    requires Distinct(s)
    ensures |Elements(s)| == |s|
  {
    if s != [] {
      var n := |s| - 1;
      DistinctSize(s[..n]);
      assert s == s[..n] + [s[n]];
      Extended(s[..n], s[n]);
    }
  }

  /** As many different members as the set has: all of it. */
  lemma WholeSet<T>(s: seq<T>, all: set<T>)
    requires Distinct(s) && Elements(s) <= all && |s| == |all|
    ensures Elements(s) == all
  {
    DistinctSize(s);
    if Elements(s) != all {
      var x :| x in all && x !in Elements(s);
      SubsetSize(Elements(s), all - {x});
    }
  }

  lemma TakenAreVertices<T(!new)>(p: Params<T>, s: State<T>)
    requires ChannelInv(p, s)
    ensures Elements(s.taken) <= p.g.Keys && |s.taken| <= |p.g|
    ensures |s.taken| == |p.g| ==> forall v :: v in p.g ==> v in s.taken && s.phase[v].Sent?
  {
    forall v | v in Elements(s.taken) ensures v in p.g {
      assert v in s.taken;
    }
    DistinctSize(s.taken);
    SubsetSize(Elements(s.taken), p.g.Keys);
    if |s.taken| == |p.g| { WholeSet(s.taken, p.g.Keys); }
  }

  lemma OrderUnlocks<T(!new)>(p: Params<T>, s: State<T>, order: seq<T>, v: T)
    requires ChannelInv(p, s) && DegreeInv(p, s) && Enabled(p, s, Receive(order)) && v in p.g
    ensures var t := Next(p, s, Receive(order));
      (v in order <==> Unlocked(p, t, v) && !Unlocked(p, s, v)) && (Unlocked(p, s, v) ==> Unlocked(p, t, v))
  {
    hide Counts, Decremented, Preds, Elements;
    var n := s.done[0];
    assert n in s.done;
    Extended(s.taken, n);
    InElements(s.taken, n);
    UnlockedByTaking(p, s.inDegree, Elements(s.taken), n, v);
  }

  lemma OrderInGraph<T(!new)>(p: Params<T>, s: State<T>, order: seq<T>)
    requires DegreeInv(p, s) && Enabled(p, s, Receive(order))
    ensures forall v :: v in order ==> v in p.g
  {
    hide Missing;
  }

  ghost predicate PredsFirst<T(!new)>(g: map<T, set<T>>, taken: seq<T>) {
    forall i {:trigger taken[i]} :: 0 <= i < |taken| ==> Preds(g, taken[i]) <= Elements(taken[..i])
  }

  lemma PredsFirstExtended<T(!new)>(g: map<T, set<T>>, taken: seq<T>, n: T)
    requires PredsFirst(g, taken) && Preds(g, n) <= Elements(taken)
    ensures PredsFirst(g, taken + [n])
  {
    hide Preds, Elements;
    var t := taken + [n];
    forall i | 0 <= i < |t| ensures Preds(g, t[i]) <= Elements(t[..i]) {
      assert t[..i] == taken[..i];
      if i == |taken| {
        assert taken[..i] == taken;
      } else {
        assert t[i] == taken[i];
      }
    }
  }

  lemma ReadyReceive<T(!new)>(p: Params<T>, s: State<T>, order: seq<T>)
    requires ChannelInv(p, s) && DegreeInv(p, s) && ReadyInv(p, s) && Enabled(p, s, Receive(order)) && ChannelInv(p, Next(p, s, Receive(order)))
    ensures ReadyInv(p, Next(p, s, Receive(order)))
  {
    hide CountInv, ErrorInv, PcInv, DegreeInv, PredsFirst, Decremented, Unlocked;
    var t, n := Next(p, s, Receive(order)), s.done[0];
    assert n in s.done;
    UnlockedMeans(p, s, n);
    PredsFirstExtended(p.g, s.taken, n);
    TakenAreVertices(p, t);
    forall v | v in p.g
      ensures v in order <==> Unlocked(p, t, v) && !Unlocked(p, s, v)
      ensures Unlocked(p, s, v) ==> Unlocked(p, t, v)
    {
      OrderUnlocks(p, s, order, v);
    }
    OrderInGraph(p, s, order);
    ReadyAfter(p, s, t, order);
  }

  lemma UnlockedMeans<T(!new)>(p: Params<T>, s: State<T>, v: T)
    ensures Unlocked(p, s, v) <==> Preds(p.g, v) <= Elements(s.taken)
  {
  }

  lemma ReadyAfter<T(!new)>(p: Params<T>, s: State<T>, t: State<T>, order: seq<T>)
    requires ReadyInv(p, s) && Pending(s) == [] && t.phase == s.phase && t.groupDone == s.groupDone && Distinct(order)
    requires forall v :: v in order ==> v in p.g
    requires forall v :: v in p.g ==> (v in order <==> Unlocked(p, t, v) && !Unlocked(p, s, v))
    requires forall v :: v in p.g && Unlocked(p, s, v) ==> Unlocked(p, t, v)
    requires Pending(t) == order || (Pending(t) == [] && forall v :: v in p.g ==> s.phase[v] != Waiting)
    ensures forall v {:trigger s.phase[v]} :: v in p.g && s.phase[v] != Waiting ==> Unlocked(p, t, v)
    ensures forall v {:trigger v in Pending(t)} :: v in Pending(t) ==> v in p.g && s.phase[v] == Waiting && Unlocked(p, t, v)
    ensures !t.groupDone ==> forall v {:trigger v in Pending(t)} :: v in p.g && Unlocked(p, t, v) && s.phase[v] == Waiting ==> v in Pending(t)
  {
    hide Unlocked;
    assert forall v :: v in p.g && s.phase[v] == Waiting && !s.groupDone ==> !Unlocked(p, s, v) || v in Pending(s);
  }

  lemma SetStarts<T(!new)>(s: State<T>, t: State<T>, v: T)
    requires v in s.phase && v in t.phase && t.phase == s.phase[v := t.phase[v]]
    ensures Started(t) == if t.phase[v] == Waiting then Started(s) - {v} else Started(s) + {v}
    ensures Workers(t) == if t.phase[v] in {Working, Sending, Sent(true)} then Workers(s) + {v} else Workers(s) - {v}
  {
  }

  /** v goes on without being started; it may give up its slot. */
  lemma CountGoesOn<T(!new)>(p: Params<T>, s: State<T>, t: State<T>, v: T)
    requires CountInv(p, s) && v in s.phase && v in t.phase && t.phase == s.phase[v := t.phase[v]]
    requires s.phase[v] in {Working, Sending, Sent(true)} && t.phase[v] != Waiting
    requires t.ready == s.ready && t.inFlight == s.inFlight && t.taken == s.taken && t.pc == s.pc
    ensures CountInv(p, t)
  {
    hide Started, Workers;
    SetStarts(s, t, v);
    InSets(s, v);
    assert Started(t) == Started(s) && Workers(t) <= Workers(s);
    SubsetSize(Workers(t), Workers(s));
  }

  lemma CountSpawns<T(!new)>(p: Params<T>, s: State<T>, t: State<T>, v: T)
    requires CountInv(p, s) && v in s.phase && s.phase[v] == Waiting && t.phase == s.phase[v := Working] && (p.limit <= 0 || |Workers(s)| < p.limit)
    requires t.ready == s.ready && t.inFlight == s.inFlight && t.taken == s.taken && s.pc.Spawning? && t.pc.Launching?
    ensures CountInv(p, t)
  {
    hide Started, Workers;
    SetStarts(s, t, v);
    InSets(s, v);
  }

  lemma CountReceives<T(!new)>(p: Params<T>, s: State<T>, t: State<T>, order: seq<T>)
    requires CountInv(p, s) && t.phase == s.phase && Distinct(order) && (forall v :: v in order ==> v in p.g)
    requires t.ready == order && t.inFlight == s.inFlight - 1 && |t.taken| == |s.taken| + 1 && !s.pc.Spawning? && !t.pc.Spawning?
    ensures CountInv(p, t)
  {
    SamePhase(s, t);
    ListedOnce(p, order);
  }

  lemma CountSame<T(!new)>(p: Params<T>, s: State<T>, t: State<T>)
    requires CountInv(p, s) && t.phase == s.phase && (t.ready == s.ready || t.ready == []) && t.taken == s.taken
    requires t.inFlight - (if t.pc.Spawning? then 1 else 0) == s.inFlight - (if s.pc.Spawning? then 1 else 0)
    ensures CountInv(p, t)
  {
    SamePhase(s, t);
  }

  lemma CountStep<T(!new)>(p: Params<T>, s: State<T>, a: Action<T>)
    requires ChannelInv(p, s) && ReadyInv(p, s) && CountInv(p, s) && DegreeInv(p, s) && PcInv(p, s) && Enabled(p, s, a) && ReadyInv(p, Next(p, s, a))
    ensures CountInv(p, Next(p, s, a))
  {
    hide ChannelInv, DegreeInv, ReadyInv, CountInv, ErrorInv, PcInv, Decremented, Unlocks, Workers;
    var t := Next(p, s, a);
    match a
    case Spawn => ReadyAtHand(p, s); CountSpawns(p, s, t, s.ready[s.pc.i]);
    case Succeed(v) => CountGoesOn(p, s, t, v);
    case Fail(v) => CountGoesOn(p, s, t, v);
    case Send(v) => CountGoesOn(p, s, t, v);
    case Leave(v) => CountGoesOn(p, s, t, v);
    case Receive(order) => OrderListed(p, s, order); OrderInGraph(p, s, order); CountReceives(p, s, t, order);
    case _ => CountSame(p, s, t);
  }

  lemma OrderListed<T(!new)>(p: Params<T>, s: State<T>, order: seq<T>)
    requires Enabled(p, s, Receive(order))
    ensures Distinct(order)
  {
  }

  lemma InSets<T(!new)>(s: State<T>, v: T)
    requires v in s.phase
    ensures v in Started(s) <==> s.phase[v] != Waiting
    ensures v in Workers(s) <==> s.phase[v] in {Working, Sending, Sent(true)}
  {
  }

  lemma SamePhase<T(!new)>(s: State<T>, t: State<T>)
    requires t.phase == s.phase
    ensures Started(t) == Started(s) && Workers(t) == Workers(s)
  {
  }

  lemma ListedOnce<T(!new)>(p: Params<T>, order: seq<T>)
    requires Distinct(order) && forall v :: v in order ==> v in p.g
    ensures |order| <= |p.g|
  {
    DistinctSize(order);
    SubsetSize(Elements(order), p.g.Keys);
  }

  lemma ErrorStep<T(!new)>(p: Params<T>, s: State<T>, a: Action<T>)
    requires ErrorInv(p, s) && ReadyInv(p, s) && Enabled(p, s, a)
    ensures ErrorInv(p, Next(p, s, a))
  {
    hide ChannelInv, DegreeInv, ReadyInv, CountInv, PcInv, Decremented, Unlocks, Workers;
    if a.Spawn? { ReadyAtHand(p, s); }
  }

  lemma ReadyAtHand<T(!new)>(p: Params<T>, s: State<T>)
    requires ReadyInv(p, s) && s.pc.Spawning? && s.pc.i < |s.ready|
    ensures var v := s.ready[s.pc.i]; v in p.g && v in s.phase && s.phase[v] == Waiting && Unlocked(p, s, v)
  {
    assert s.ready[s.pc.i] in Pending(s);
  }

  /** With nothing in flight every started vertex has been taken. */
  lemma NothingInFlight<T(!new)>(p: Params<T>, s: State<T>)
    requires ChannelInv(p, s) && CountInv(p, s) && s.inFlight == 0 && !s.pc.Spawning?
    ensures Started(s) == Elements(s.taken)
  {
    forall v | v in Elements(s.taken) ensures v in Started(s) {
      assert v in s.taken;
    }
    DistinctSize(s.taken);
    SameSize(Elements(s.taken), Started(s));
  }

  lemma SameSize<T>(a: set<T>, b: set<T>)
    requires a <= b && |a| == |b|
    ensures a == b
  {
    if x :| x in b && x !in a { SubsetSize(a, b - {x}); }
  }

  lemma StallFound<T(!new)>(p: Params<T>, s: State<T>)
    requires ChannelInv(p, s) && ReadyInv(p, s) && CountInv(p, s) && ErrorInv(p, s)
    requires s.pc.Checking? && s.inFlight == 0 && !s.groupDone
    ensures StallInv(p, s)
  {
    NothingInFlight(p, s);
    hide PredsFirst, Elements, CountInv, Unlocked;
    forall v | v in p.g && v !in s.taken ensures PredIn(p.g, p.g.Keys - Elements(s.taken), v) {
      InElements(s.taken, v);
      assert v !in Started(s);
      UnlockedMeans(p, s, v);
      assert v !in Pending(s);
      var y :| y in Preds(p.g, v) && y !in Elements(s.taken);
      assert HasEdge(p.g, y, v);
    }
  }

  lemma PcStep<T(!new)>(p: Params<T>, s: State<T>, a: Action<T>)
    requires Inv(p, s) && Enabled(p, s, a)
    ensures PcInv(p, Next(p, s, a))
  {
    hide DegreeInv, ReadyInv, Decremented, Unlocks, CountInv, StallInv, ChannelInv;
    var t := Next(p, s, a);
    match a
    case Check =>
      if s.inFlight == 0 && !s.groupDone {
        StallFound(p, s);
        StallStays(p, s, t);
      }
    case DrainEnd => if !s.pc.cancelled { AllSent(p, s); }
    case Succeed(v) => NoWorkerLeft(p, s, v); StallStays(p, s, t);
    case Fail(v) => NoWorkerLeft(p, s, v); StallStays(p, s, t);
    case Send(v) => NoWorkerLeft(p, s, v); StallStays(p, s, t);
    case Leave(v) => NoWorkerLeft(p, s, v); StallStays(p, s, t);
    case ParentCancel => StallStays(p, s, t); SamePhase(s, t);
    case _ =>
  }

  lemma StallStays<T(!new)>(p: Params<T>, s: State<T>, t: State<T>)
    requires t.taken == s.taken
    ensures StallInv(p, s) && t.firstError == s.firstError ==> StallInv(p, t)
  {
  }

  lemma AllSent<T(!new)>(p: Params<T>, s: State<T>)
    requires ChannelInv(p, s) && ErrorInv(p, s) && |s.taken| == |p.g|
    ensures s.firstError == None
  {
    TakenAreVertices(p, s);
  }

  /** After the coordinator returned, no processor is running any more. */
  lemma NoWorkerLeft<T(!new)>(p: Params<T>, s: State<T>, v: T)
    requires ChannelInv(p, s) && CountInv(p, s) && PcInv(p, s) && v in Workers(s)
    ensures s.pc.Returned? ==> s.pc.result == Nil || s.pc.result.Stalled?
    ensures s.pc.Returned? ==> s.phase[v] == Sent(true)
  {
    hide DegreeInv, ReadyInv;
    if s.pc.Returned? {
      match s.pc.result
      case Nil => TakenAreVertices(p, s);
      case Stalled(_) => NothingInFlight(p, s); assert v in Started(s); InElements(s.taken, v);
      case _ =>
    }
  }

  lemma InvStep<T(!new)>(p: Params<T>, s: State<T>, a: Action<T>)
    requires Inv(p, s) && Enabled(p, s, a)
    ensures Inv(p, Next(p, s, a))
  {
    hide Enabled, Next, ChannelInv, DegreeInv, ReadyInv, CountInv, ErrorInv, PcInv;
    ChannelStep(p, s, a);
    DegreeStep(p, s, a);
    match a {
      case Receive(order) => ReadyReceive(p, s, order);
      case Spawn => ReadySpawn(p, s);
      case _ => ReadyOther(p, s, a);
    }
    CountStep(p, s, a);
    ErrorStep(p, s, a);
    PcStep(p, s, a);
  }
}
