/** What holds in the runs of the parallel form of Kahn's algorithm (see Process) and what they end in:
    safety, the meaning of every result, progress and termination. */
module ProcessOutcome {
  import opened Graphs
  import opened TopoOrder
  import opened Process

  // ---- every run ----

  lemma DegreesAtFirst<T(!new)>(p: Params<T>, s: State<T>)
    requires Init(p, s)
    ensures DegreeInv(p, s)
  {
    forall v | v in p.g ensures CountAt(p.g, s.inDegree, Elements(s.taken), v) {
      assert HasInDegree(p.g, s.inDegree, v) && Missing(p.g, Elements(s.taken), v) == Preds(p.g, v);
    }
  }

  lemma ReadyAtFirst<T(!new)>(p: Params<T>, s: State<T>)
    requires Init(p, s)
    ensures ReadyInv(p, s)
  {
    hide Preds;
    assert Elements(s.taken) == {};
    if s.pc.Launching? {
      assert Pending(s) == s.ready;
    } else {
      assert p.g.Keys == {};
    }
  }

  lemma CountsAtFirst<T(!new)>(p: Params<T>, s: State<T>)
    requires Init(p, s)
    ensures CountInv(p, s)
  {
    hide Preds;
    assert Started(s) == {} && Workers(s) == {};
    ListedOnce(p, s.ready);
  }

  lemma InvInit<T(!new)>(p: Params<T>, s: State<T>)
    requires Init(p, s)
    ensures Inv(p, s)
  {
    hide Preds, DegreeInv, ReadyInv, CountInv, Started, Workers;
    DegreesAtFirst(p, s);
    ReadyAtFirst(p, s);
    CountsAtFirst(p, s);
  }

  // ---- whole runs ----

  /** A run: from an initial state, each action enabled where it is taken. */
  ghost predicate IsRun<T(!new)>(p: Params<T>, run: seq<State<T>>, actions: seq<Action<T>>) {
    && |run| == |actions| + 1 && Init(p, run[0])
    && forall i {:trigger actions[i]} :: 0 <= i < |actions| ==> Enabled(p, run[i], actions[i]) && run[i + 1] == Next(p, run[i], actions[i])
  }

  lemma {:induction false} RunInv<T(!new)>(p: Params<T>, run: seq<State<T>>, actions: seq<Action<T>>, i: nat)
    requires IsRun(p, run, actions) && i < |run|
    ensures Inv(p, run[i])
  {
    hide Inv, Init, Enabled;
    if i == 0 {
      InvInit(p, run[0]);
    } else {
      RunInv(p, run, actions, i - 1);
      var a := actions[i - 1];
      InvStep(p, run[i - 1], a);
    }
  }

  /** Every started vertex has all its predecessors succeeded and taken. */
  ghost predicate Ordered<T(!new)>(p: Params<T>, s: State<T>) {
    forall u, v :: HasEdge(p.g, u, v) && v in s.phase && s.phase[v] != Waiting ==> Succeeded(s, u) && u in s.taken
  }

  lemma InvOrdered<T(!new)>(p: Params<T>, s: State<T>)
    requires ChannelInv(p, s) && ReadyInv(p, s)
    ensures Ordered(p, s)
  {
    hide PredsFirst;
    forall u, v | HasEdge(p.g, u, v) && v in s.phase && s.phase[v] != Waiting ensures Succeeded(s, u) && u in s.taken {
      assert Unlocked(p, s, v) && u in Preds(p.g, v);
    }
  }

  /** Safety: in every run, whatever fails or is cancelled when,
      a vertex is started at most once, and only after the processors of all its predecessors
      have succeeded and reported; the limit holds; a report never finds the channel full; and
      inDegree counts the predecessors that have not reported yet. */
  lemma ProcessSafety<T(!new)>(p: Params<T>, run: seq<State<T>>, actions: seq<Action<T>>, i: nat)
    requires IsRun(p, run, actions) && i < |run|
    ensures Ordered(p, run[i])
    ensures i < |actions| && actions[i] == Spawn ==> StartsWaiting(run[i])
    ensures p.limit > 0 ==> |Workers(run[i])| <= p.limit
    ensures forall v :: v in run[i].phase && run[i].phase[v] == Sending ==> |run[i].done| < |p.g|
    ensures Counts(p.g, run[i].inDegree, Elements(run[i].taken))
  {
    hide Enabled, Init, Ordered, Counts, Workers, Started, StartsWaiting, ReadyInv, ChannelInv;
    RunInv(p, run, actions, i);
    InvOrdered(p, run[i]);
    forall v | v in run[i].phase && run[i].phase[v] == Sending ensures |run[i].done| < |p.g| {
      RoomToSend(p, run[i], v);
    }
    if i < |actions| && actions[i] == Spawn { SpawnsWaiting(p, run[i]); }
  }

  /** The vertex about to be started was not started before. */
  ghost predicate StartsWaiting<T>(s: State<T>) {
    s.pc.Spawning? && s.pc.i < |s.ready| && s.ready[s.pc.i] in s.phase && s.phase[s.ready[s.pc.i]] == Waiting
  }

  lemma SpawnsWaiting<T(!new)>(p: Params<T>, s: State<T>)
    requires ReadyInv(p, s)
    ensures Enabled(p, s, Spawn) ==> StartsWaiting(s)
  {
    hide ChannelInv, DegreeInv, CountInv, PredsFirst;
    if Enabled(p, s, Spawn) { ReadyAtHand(p, s); }
  }

  lemma RoomToSend<T(!new)>(p: Params<T>, s: State<T>, v: T)
    requires ChannelInv(p, s) && v in s.phase && s.phase[v] == Sending
    ensures |s.done| < |p.g|
  {
    assert v !in s.done;
    forall x | x in Elements(s.done) ensures x in p.g.Keys - {v} {
      assert x in s.done;
    }
    DistinctSize(s.done);
    SubsetSize(Elements(s.done), p.g.Keys - {v});
  }

  // ---- halting ----

  /** The vertex the coordinator is waiting to start, if there is one. */
  ghost function AtHand<T(!new)>(s: State<T>): set<T> {
    if s.pc.Spawning? && s.pc.i < |s.ready| then {s.ready[s.pc.i]} else {}
  }

  /** Since s nothing was started but what was at hand there, and nothing else is about to be; and the
      first error has stayed the first. */
  ghost predicate Halted<T(!new)>(s: State<T>, t: State<T>) {
    && t.groupDone && Started(t) - Started(s) <= AtHand(s) && AtHand(t) <= AtHand(s)
    && (s.parentDone ==> t.parentDone) && (s.firstError.Some? ==> t.firstError == s.firstError)
  }

  lemma HaltedStep<T(!new)>(p: Params<T>, s: State<T>, t: State<T>, a: Action<T>)
    requires Halted(s, t) && Enabled(p, t, a)
    ensures Halted(s, Next(p, t, a))
  {
    hide Workers, Unlocks, Decremented;
  }

  /** Once the group context has ended, by the first failure or a cancellation, at most the vertex is
      started that the coordinator is already waiting to start; the context stays ended and the first
      error the first. */
  lemma {:induction false} NothingStartsLater<T(!new)>(p: Params<T>, run: seq<State<T>>, actions: seq<Action<T>>, i: nat, j: nat)
    requires IsRun(p, run, actions) && i <= j < |run| && run[i].groupDone
    ensures Halted(run[i], run[j])
  {
    hide Enabled, Next, Init, Halted;
    if i == j {
      HaltedAtFirst(run[i]);
    } else {
      NothingStartsLater(p, run, actions, i, j - 1);
      assert run[j] == Next(p, run[j - 1], actions[j - 1]);
      HaltedStep(p, run[i], run[j - 1], actions[j - 1]);
    }
  }

  lemma HaltedAtFirst<T(!new)>(s: State<T>)
    requires s.groupDone
    ensures Halted(s, s)
  {
    hide Started;
  }

  /** A failure or a cancellation ends the group context, and the first failure is the one reported. */
  lemma Halts<T(!new)>(p: Params<T>, run: seq<State<T>>, actions: seq<Action<T>>, i: nat)
    requires IsRun(p, run, actions) && i < |actions| && (actions[i].Fail? || actions[i].ParentCancel?)
    ensures run[i + 1].groupDone
    ensures actions[i].Fail? && run[i].firstError.None? ==> run[i + 1].firstError == Some(actions[i].v)
    ensures actions[i].ParentCancel? ==> run[i + 1].parentDone
  {
    hide Unlocks, Init;
  }

  // ---- outcomes ----

  /** What was taken with all predecessors first holds nothing downstream of a cycle. */
  lemma TakenNotFromCycle<T(!new)>(g: map<T, set<T>>, taken: seq<T>, v: T)
    requires Closed(g) && PredsFirst(g, taken) && Distinct(taken) && Elements(taken) <= g.Keys && v in taken
    ensures !FromCycle(g, v)
  {
    var h := Converse(g);
    ConverseEdges(g);
    forall i | 0 <= i < |taken| ensures taken[i] in h && forall y :: y in h[taken[i]] ==> y in taken[..i] {
      assert taken[i] in Elements(taken);
      assert h[taken[i]] == Preds(g, taken[i]);
    }
    assert ChildrenFirst(h, taken);
    hide ChildrenFirst, PredsFirst, Distinct;
    if FromCycle(g, v) {
      var c: seq<T> :| IsCycle(g, c) && Reaches(g, c[0], v);
      var p :| PathFromTo(g, p, c[0], v);
      ReversedPath(g, h, p);
      ReversedPath(g, h, c);
      var i :| 0 <= i < |taken| && taken[i] == v;
      var j := PathDescends(h, taken, Reversed(p), i);
      var k := PathDescends(h, taken, Reversed(c), j);
      TwiceListed(taken, j, k);
    }
  }

  lemma TwiceListed<T>(s: seq<T>, i: nat, j: nat)
    requires Distinct(s) && i < |s| && j < |s| && s[i] == s[j]
    ensures i == j
  {
  }

  lemma StalledExactly<T(!new)>(p: Params<T>, s: State<T>, v: T)
    requires Closed(p.g) && ChannelInv(p, s) && ReadyInv(p, s) && StallInv(p, s) && v in p.g
    ensures v in s.taken <==> !FromCycle(p.g, v)
  {
    if v in s.taken {
      TakenAreVertices(p, s);
      TakenNotFromCycle(p.g, s.taken, v);
    } else {
      var rest := p.g.Keys - Elements(s.taken);
      forall x | x in rest ensures PredIn(p.g, rest, x) {
        assert x !in s.taken;
      }
      StuckFromCycle(p.g, rest, v);
    }
  }

  /** What the coordinator's result means. */
  ghost predicate Meaningful<T(!new)>(p: Params<T>, s: State<T>) {
    s.pc.Returned? ==>
      match s.pc.result
      case Nil => Acyclic(p.g) && forall v :: v in p.g ==> Succeeded(s, v)
      case Stalled(n) => !Acyclic(p.g) && n == |p.g| - |s.taken| &&
        forall v :: v in p.g ==> (v in s.taken <==> !FromCycle(p.g, v))
      case WorkerError(v) => s.firstError == Some(v) && v in p.g && v in s.phase && s.phase[v] == Failed && Workers(s) == {}
      case Cancelled => s.parentDone && s.firstError == None && Workers(s) == {} && |s.taken| < |p.g|
  }

  lemma StallMeaningful<T(!new)>(p: Params<T>, s: State<T>)
    requires Closed(p.g) && ChannelInv(p, s) && ReadyInv(p, s) && StallInv(p, s) && |s.taken| < |p.g|
    ensures !Acyclic(p.g) && forall v :: v in p.g ==> (v in s.taken <==> !FromCycle(p.g, v))
  {
    hide ChannelInv, ReadyInv, StallInv;
    forall v | v in p.g ensures v in s.taken <==> !FromCycle(p.g, v) {
      StalledExactly(p, s, v);
    }
    if forall v :: v in p.g ==> v in s.taken { AllListed(p, s); }
    var v :| v in p.g && v !in s.taken;
    assert FromCycle(p.g, v);
  }

  lemma NilMeaningful<T(!new)>(p: Params<T>, s: State<T>)
    requires Closed(p.g) && ChannelInv(p, s) && ReadyInv(p, s) && |s.taken| == |p.g|
    ensures Acyclic(p.g) && forall v :: v in p.g ==> Succeeded(s, v)
  {
    hide ReadyInv;
    TakenAreVertices(p, s);
    EverythingTaken(p, s);
  }

  lemma InvMeaningful<T(!new)>(p: Params<T>, s: State<T>)
    requires Closed(p.g) && Inv(p, s)
    ensures Meaningful(p, s)
  {
    hide DegreeInv, ReadyInv, ChannelInv, CountInv, StallInv, Succeeded, Acyclic, FromCycle;
    if s.pc.Returned? {
      match s.pc.result
      case Nil => NilMeaningful(p, s);
      case Stalled(n) => StallMeaningful(p, s);
      case WorkerError(v) => PhasesOfVertices(p, s);
      case _ =>
    }
  }

  /** In every run: nil only after every vertex succeeded; a stall only on a cyclic graph, and
      exactly when all vertices that are not downstream of a cycle are finished; an error names a
      failed vertex; a cancellation is reported only if it came before every vertex was through and none
      failed; and with an error or a cancellation no goroutine is left running. */
  lemma OutcomeMeaningful<T(!new)>(p: Params<T>, run: seq<State<T>>, actions: seq<Action<T>>, i: nat)
    requires Closed(p.g) && IsRun(p, run, actions) && i < |run|
    ensures Meaningful(p, run[i])
  {
    hide Meaningful, IsRun, Inv;
    RunInv(p, run, actions, i);
    InvMeaningful(p, run[i]);
  }

  lemma PhasesOfVertices<T(!new)>(p: Params<T>, s: State<T>)
    requires ChannelInv(p, s)
    ensures s.phase.Keys == p.g.Keys
  {
  }

  lemma AllListed<T(!new)>(p: Params<T>, s: State<T>)
    requires ChannelInv(p, s) && forall v :: v in p.g ==> v in s.taken
    ensures |s.taken| == |p.g|
  {
    TakenAreVertices(p, s);
    DistinctSize(s.taken);
    forall v | v in p.g ensures v in Elements(s.taken) {
    }
    SubsetSize(p.g.Keys, Elements(s.taken));
  }

  lemma EverythingTaken<T(!new)>(p: Params<T>, s: State<T>)
    requires Closed(p.g) && ChannelInv(p, s) && ReadyInv(p, s) && |s.taken| == |p.g|
    ensures Acyclic(p.g)
  {
    TakenAreVertices(p, s);
    forall c: seq<T> | IsCycle(p.g, c) ensures false {
      CycleInGraph(p.g, c);
      TakenNotFromCycle(p.g, s.taken, c[0]);
      ReachesRefl(p.g, c[0]);
      assert FromCycle(p.g, c[0]);
    }
  }

  /** Without a failure or a cancellation the result tells the graphs with and without cycles apart. */
  lemma UndisturbedOutcome<T(!new)>(p: Params<T>, run: seq<State<T>>, actions: seq<Action<T>>, i: nat)
    requires Closed(p.g) && IsRun(p, run, actions) && i < |run| && run[i].pc.Returned? && !run[i].groupDone
    ensures run[i].pc.result == Nil <==> Acyclic(p.g)
    ensures run[i].pc.result.Stalled? <==> !Acyclic(p.g)
  {
    hide Enabled, Init, IsRun, DegreeInv, ReadyInv, ChannelInv, CountInv, Acyclic, FromCycle;
    RunInv(p, run, actions, i);
    OutcomeMeaningful(p, run, actions, i);
  }

  // ---- termination ----

  ghost function PcWeight<T>(s: State<T>): int {
    match s.pc
    case Launching(i) => 2 * (|s.ready| - i) + 4
    case Spawning(i) => 2 * (|s.ready| - i) + 3
    case Checking => 3
    case Selecting => 2
    case Draining(_) => 1
    case Returned(_) => 0
  }

  /** The vertices whose goroutine has at least n steps to go: start, return, report, leave. */
  ghost function StepsLeft<T(!new)>(s: State<T>, n: int): set<T> {
    set v | v in s.phase && n <= match s.phase[v] case Waiting => 4 case Working => 3 case Sending => 2 case Sent(true) => 1 case _ => 0
  }

  /** An upper bound on the number of actions still possible. */
  ghost function Measure<T(!new)>(p: Params<T>, s: State<T>): int {
    (|p.g| - |s.taken|) * (2 * |p.g| + 6) + PcWeight(s)
    + |StepsLeft(s, 1)| + |StepsLeft(s, 2)| + |StepsLeft(s, 3)| + |StepsLeft(s, 4)| + if s.parentDone then 0 else 1
  }

  lemma StepsShrink<T(!new)>(s: State<T>, t: State<T>, v: T, n: int)
    requires v in s.phase && v in t.phase && t.phase == s.phase[v := t.phase[v]]
    requires match s.phase[v]
      case Waiting => t.phase[v] == Working
      case Working => t.phase[v] == Sending || t.phase[v] == Failed
      case Sending => t.phase[v] == Sent(true)
      case Sent(true) => t.phase[v] == Sent(false)
      case _ => false
    ensures |StepsLeft(t, n)| <= |StepsLeft(s, n)|
    ensures v in StepsLeft(s, n) && v !in StepsLeft(t, n) ==> |StepsLeft(t, n)| < |StepsLeft(s, n)|
  {
    assert StepsLeft(t, n) <= StepsLeft(s, n);
    SubsetSize(StepsLeft(t, n), StepsLeft(s, n));
    if v in StepsLeft(s, n) && v !in StepsLeft(t, n) {
      SubsetSize(StepsLeft(t, n), StepsLeft(s, n) - {v});
    }
  }

  lemma WorkShrinks<T(!new)>(s: State<T>, t: State<T>, v: T)
    requires v in s.phase && v in t.phase && t.phase == s.phase[v := t.phase[v]]
    requires match s.phase[v]
      case Waiting => t.phase[v] == Working
      case Working => t.phase[v] == Sending || t.phase[v] == Failed
      case Sending => t.phase[v] == Sent(true)
      case Sent(true) => t.phase[v] == Sent(false)
      case _ => false
    ensures |StepsLeft(t, 1)| + |StepsLeft(t, 2)| + |StepsLeft(t, 3)| + |StepsLeft(t, 4)|
      < |StepsLeft(s, 1)| + |StepsLeft(s, 2)| + |StepsLeft(s, 3)| + |StepsLeft(s, 4)|
  {
    var n := match s.phase[v] case Waiting => 4 case Working => 3 case Sending => 2 case _ => 1;
    assert v in StepsLeft(s, n) && v !in StepsLeft(t, n);
    hide StepsLeft;
    StepsShrink(s, t, v, 1);
    StepsShrink(s, t, v, 2);
    StepsShrink(s, t, v, 3);
    StepsShrink(s, t, v, 4);
  }

  lemma OneRoundLess(k: int, size: int)
    ensures (k - 1) * (2 * size + 6) == k * (2 * size + 6) - (2 * size + 6)
  {
  }

  lemma SameSteps<T(!new)>(s: State<T>, t: State<T>)
    requires t.phase == s.phase
    ensures forall n :: StepsLeft(t, n) == StepsLeft(s, n)
  {
  }

  /** Every action uses up some of it. */
  lemma MeasureDecreases<T(!new)>(p: Params<T>, s: State<T>, a: Action<T>)
    requires Inv(p, s) && Enabled(p, s, a)
    ensures Measure(p, Next(p, s, a)) < Measure(p, s)
  {
    hide DegreeInv, ErrorInv, ChannelInv, ReadyInv, StallInv, Started, Workers, Decremented, Unlocks, StepsLeft, PredsFirst;
    var t := Next(p, s, a);
    if a.Receive? { ReceivedListed(p, s, a); }
    match a
    case Spawn => ReadyAtHand(p, s); WorkShrinks(s, t, s.ready[s.pc.i]);
    case Succeed(v) => WorkShrinks(s, t, v);
    case Fail(v) => WorkShrinks(s, t, v);
    case Send(v) => WorkShrinks(s, t, v);
    case Leave(v) => WorkShrinks(s, t, v);
    case Receive(_) => SameSteps(s, t); OneRoundLess(|p.g| - |s.taken|, |p.g|);
    case _ => SameSteps(s, t);
  }

  lemma ReceivedListed<T(!new)>(p: Params<T>, s: State<T>, a: Action<T>)
    requires Inv(p, s) && Enabled(p, s, a)
    ensures |Next(p, s, a).ready| <= |p.g|
  {
    hide Inv, Enabled, Next, ChannelInv, DegreeInv, ReadyInv, ErrorInv, PcInv, Started, Workers;
    InvStep(p, s, a);
    InvCounts(p, Next(p, s, a));
  }

  lemma InvCounts<T(!new)>(p: Params<T>, s: State<T>)
    requires Inv(p, s)
    ensures CountInv(p, s)
  {
  }

  lemma MeasureNatural<T(!new)>(p: Params<T>, s: State<T>)
    requires Inv(p, s)
    ensures Measure(p, s) >= 0
  {
    hide DegreeInv, ErrorInv, ReadyInv, Started, Workers, StepsLeft;
    TakenAreVertices(p, s);
    assert (|p.g| - |s.taken|) * (2 * |p.g| + 6) >= 0;
  }

  lemma {:induction false} ListSet<T(!new)>(s: set<T>) returns (q: seq<T>)
    ensures Distinct(q) && forall x :: x in q <==> x in s
  {
    q := [];
    if x :| x in s {
      var r := ListSet(s - {x});
      q := [x] + r;
    }
  }

  /** Until the coordinator returns, it or one of the goroutines can act: nothing ever blocks for
      good, in particular not the coordinator in errgroup.Go while all workers report back. */
  lemma Progress<T(!new)>(p: Params<T>, s: State<T>) returns (a: Action<T>)
    requires Inv(p, s) && !s.pc.Returned?
    ensures Enabled(p, s, a) && a != ParentCancel
  {
    if v :| v in Workers(s) {
      a := match s.phase[v] case Working => Succeed(v) case Sending => Send(v) case _ => Leave(v);
      if s.phase[v] == Sending { RoomToSend(p, s, v); }
    } else {
      a := CoordinatorActs(p, s);
    }
  }

  lemma CoordinatorActs<T(!new)>(p: Params<T>, s: State<T>) returns (a: Action<T>)
    requires ChannelInv(p, s) && CountInv(p, s) && ErrorInv(p, s) && PcInv(p, s) && !s.pc.Returned? && Workers(s) == {}
    ensures Enabled(p, s, a) && a != ParentCancel
  {
    hide DegreeInv, ReadyInv, Decremented;
    match s.pc
    case Launching(i) => a := if i >= |s.ready| then LaunchEnd else if s.groupDone then LaunchBreak else LaunchNext;
    case Spawning(i) => a := Spawn;
    case Checking => a := Check;
    case Draining(_) => a := DrainEnd;
    case Selecting =>
      if s.groupDone {
        a := SeeCancel;
      } else {
        SomethingReported(p, s);
        var n := s.done[0];
        assert n in s.done;
        var order := ListSet(set x | x in p.g[n] && x in s.inDegree && s.inDegree[x] == 1);
        a := Receive(order);
      }
  }

  lemma SomethingReported<T(!new)>(p: Params<T>, s: State<T>)
    requires ChannelInv(p, s) && CountInv(p, s) && ErrorInv(p, s)
    requires s.pc.Selecting? && s.inFlight != 0 && !s.groupDone && Workers(s) == {}
    ensures s.done != []
  {
    if s.done == [] { AllStartedTaken(p, s); }
  }

  lemma AllStartedTaken<T(!new)>(p: Params<T>, s: State<T>)
    requires ChannelInv(p, s) && ErrorInv(p, s) && !s.groupDone && Workers(s) == {} && s.done == []
    ensures |Started(s)| == |s.taken|
  {
    forall v ensures v in Started(s) <==> v in Elements(s.taken) {
      InElements(s.taken, v);
      if v in Started(s) {
        assert v !in Workers(s) && s.phase[v].Sent?;
      }
    }
    assert Started(s) == Elements(s.taken);
    DistinctSize(s.taken);
  }

  /** If every processor returns, so does Process: no run takes more than a number of actions fixed
      by the graph, and a run in which the coordinator has not returned can always go on. */
  lemma ProcessTerminates<T(!new)>(p: Params<T>, run: seq<State<T>>, actions: seq<Action<T>>)
    requires IsRun(p, run, actions)
    ensures |actions| <= Measure(p, run[0])
    ensures !run[|actions|].pc.Returned? ==> exists a :: Enabled(p, run[|actions|], a) && a != ParentCancel
  {
    hide Measure, Enabled, Init, Inv;
    var n := |actions|;
    RunInv(p, run, actions, n);
    MeasureDrops(p, run, actions, n);
    MeasureNatural(p, run[n]);
    if !run[n].pc.Returned? {
      var a := Progress(p, run[n]);
    }
  }

  lemma {:induction false} MeasureDrops<T(!new)>(p: Params<T>, run: seq<State<T>>, actions: seq<Action<T>>, i: nat)
    requires IsRun(p, run, actions) && i < |run|
    ensures Measure(p, run[i]) <= Measure(p, run[0]) - i
  {
    hide Measure, Enabled, Init, Inv;
    if i > 0 {
      MeasureDrops(p, run, actions, i - 1);
      RunInv(p, run, actions, i - 1);
      var a := actions[i - 1];
      MeasureDecreases(p, run[i - 1], a);
    }
  }

  /** Every graph has a run: there is a first state, and by Progress it can be continued until the
      coordinator returns. */
  lemma Starts<T(!new)>(p: Params<T>) returns (s: State<T>)
    ensures Init(p, s) && !s.groupDone
  {
    var ready := ListSet(set v | v in p.g && Preds(p.g, v) == {});
    s := State(if |p.g| > 0 then Launching(0) else Draining(false), ready, map v | v in p.g :: |Preds(p.g, v)|, 0, [], [],
      map v | v in p.g :: Waiting, false, false, None);
  }
}
