/** How concurrent discovery (see Discover) halts: an error ends the context of its group, after which no
    further call of the group goes on, and nothing is left running when a call returns. */
module DiscoverHalting {
  import opened Graphs
  import opened Discover
  import opened DiscoverOutcome

  /** A call that returned an error has ended its group's context, and a rejected edge that of the
      neighbours; a call that returned nil has its key's work behind it; and an owner that is done has
      no call for a neighbour running. */
  ghost predicate HaltInv<K(!new)>(p: Params<K>, s: State<K>) {
    && (forall c {:trigger s.pcs[c]} :: c in s.pcs ==> OwnHalt(p, s, c))
    && forall k {:trigger s.owner[k]} :: k in s.owner && s.owner[k] in s.pcs && Done(PcOf(s, k)) ==> ChildrenBack(s, k)
  }

  predicate Done(pc: Pc) {
    pc.Closing? || pc.Back?
  }

  ghost predicate OwnHalt<K(!new)>(p: Params<K>, s: State<K>, c: Call<K>)
    requires c in s.pcs
  {
    match s.pcs[c]
    case Back(bad) => if bad then GroupOf(c) in s.cancelled else ValidCall(p, c) && Key(p, c) in s.closed
    case Joining(bad) => bad ==> ValidCall(p, c) && Of(Key(p, c)) in s.cancelled
    case _ => true
  }

  /** Contexts that have ended stay ended, and closed channels closed. */
  lemma EndedStays<K(!new)>(p: Params<K>, s: State<K>, a: Action<K>)
    requires Enabled(p, s, a)
    ensures s.cancelled <= Next(p, s, a).cancelled && s.closed <= Next(p, s, a).closed
  {
    hide Admitted, ChildrenBack, ChildFailed;
  }

  lemma OwnStep<K(!new)>(p: Params<K>, s: State<K>, a: Action<K>, c: Call<K>)
    requires OwnerInv(p, s) && HaltInv(p, s) && Enabled(p, s, a) && Caller(a) == Some(c) && c in s.pcs && c in Next(p, s, a).pcs
    ensures OwnHalt(p, Next(p, s, a), c)
  {
    hide Admitted, ChildrenBack, ChildFailed, HaltInv;
    assert ValidCall(p, c) by { CallsValid(p, s); }
    OwnAt(p, s, c);
  }

  lemma OwnAt<K(!new)>(p: Params<K>, s: State<K>, c: Call<K>)
    requires HaltInv(p, s) && c in s.pcs
    ensures OwnHalt(p, s, c)
  {
  }

  /** An owner gets there only when all calls for its neighbours are back, or none was started. */
  lemma OwnerDone<K(!new)>(p: Params<K>, s: State<K>, a: Action<K>, c: Call<K>)
    requires OwnerInv(p, s) && ChildInv(p, s) && HaltInv(p, s) && Enabled(p, s, a) && Caller(a) == Some(c) && c in s.pcs && ValidCall(p, c)
    requires Key(p, c) in s.owner && s.owner[Key(p, c)] == c && !s.pcs[c].Back?
    requires c in Next(p, s, a).pcs && Done(Next(p, s, a).pcs[c])
    ensures ChildrenBack(s, Key(p, c))
  {
    hide Admitted, ChildFailed;
    var k := Key(p, c);
    if a.Resolve? || a.List? {
      forall i: nat {:trigger Child(k, i)} ensures Child(k, i) !in s.pcs {
        if Child(k, i) in s.pcs { ChildPast(p, s, k, i); }
      }
    }
  }

  lemma ChildPast<K(!new)>(p: Params<K>, s: State<K>, k: K, i: nat)
    requires ChildInv(p, s) && Child(k, i) in s.pcs
    ensures k in s.owner && s.owner[k] in s.pcs && Past(PcOf(s, k), i)
  {
    hide HasEdge, Past;
  }

  lemma HaltMoves<K(!new)>(p: Params<K>, s: State<K>, t: State<K>, c: Call<K>)
    requires OwnerInv(p, s) && HaltInv(p, s) && Step(p, s, t, c) && s.cancelled <= t.cancelled && s.closed <= t.closed
    requires OwnHalt(p, t, c) && (Key(p, c) in s.owner && s.owner[Key(p, c)] == c && Done(t.pcs[c]) ==> ChildrenBack(s, Key(p, c)))
    requires t.pcs.Keys != s.pcs.Keys ==> t.pcs[c].Linking?
    ensures HaltInv(p, t)
  {
    hide EdgesGrow, StatesStay, ResolvedGrows, Progressed;
    forall d {:trigger t.pcs[d]} | d in t.pcs ensures OwnHalt(p, t, d) {
      if d != c && d in s.pcs { OwnAt(p, s, d); }
    }
    forall k {:trigger t.owner[k]} | k in t.owner && t.owner[k] in t.pcs && Done(PcOf(t, k)) ensures ChildrenBack(t, k) {
      DoneBefore(p, s, t, c, k);
      forall i: nat {:trigger Child(k, i)} | Child(k, i) in t.pcs ensures t.pcs[Child(k, i)].Back? {
        ChildBefore(p, s, t, c, k, i);
      }
    }
  }

  lemma DoneBefore<K(!new)>(p: Params<K>, s: State<K>, t: State<K>, c: Call<K>, k: K)
    requires OwnerInv(p, s) && HaltInv(p, s) && Step(p, s, t, c)
    requires Key(p, c) in s.owner && s.owner[Key(p, c)] == c && Done(t.pcs[c]) ==> ChildrenBack(s, Key(p, c))
    requires k in t.owner && t.owner[k] in t.pcs && Done(PcOf(t, k))
    ensures k in s.owner && s.owner[k] == t.owner[k] && ChildrenBack(s, k)
  {
    hide EdgesGrow, StatesStay, ResolvedGrows, Progressed, ChildrenBack;
    assert k in s.owner;
    assert s.owner[k] in s.pcs;
  }

  lemma ChildBefore<K(!new)>(p: Params<K>, s: State<K>, t: State<K>, c: Call<K>, k: K, i: nat)
    requires OwnerInv(p, s) && Step(p, s, t, c) && k in s.owner && k in t.owner && s.owner[k] == t.owner[k] && s.owner[k] in t.pcs && Done(t.pcs[s.owner[k]])
    requires ChildrenBack(s, k) && Child(k, i) in t.pcs && (t.pcs.Keys != s.pcs.Keys ==> t.pcs[c].Linking?)
    ensures t.pcs[Child(k, i)].Back?
  {
    hide EdgesGrow, StatesStay, ResolvedGrows, Progressed;
    assert Child(k, i) in s.pcs || Started(p, s, t, c, Child(k, i));
    assert Child(k, i) !in s.pcs ==> t.pcs.Keys != s.pcs.Keys;
    if c in s.pcs && Owning(s.pcs[c]) { assert s.owner[Key(p, c)] == c; }
  }

  lemma OnlyLinkStarts<K(!new)>(p: Params<K>, s: State<K>, a: Action<K>, c: Call<K>)
    requires Enabled(p, s, a) && Caller(a) == Some(c) && c in Next(p, s, a).pcs
    ensures Next(p, s, a).pcs.Keys != s.pcs.Keys ==> Next(p, s, a).pcs[c].Linking?
  {
    hide Admitted, ChildrenBack, ChildFailed;
    if !a.Link? { SameCalls(p, s, a, c); }
  }

  lemma SameCalls<K(!new)>(p: Params<K>, s: State<K>, a: Action<K>, c: Call<K>)
    requires Enabled(p, s, a) && Caller(a) == Some(c) && !a.Link?
    ensures Next(p, s, a).pcs.Keys == s.pcs.Keys
  {
    hide Admitted, ChildrenBack, ChildFailed;
  }

  lemma HaltStep<K(!new)>(p: Params<K>, s: State<K>, a: Action<K>)
    requires Inv(p, s) && HaltInv(p, s) && Enabled(p, s, a)
    ensures HaltInv(p, Next(p, s, a))
  {
    hide GraphInv, OwnerInv, ChildInv, EdgeInv, VertexInv, BornInv, ResultInv, ResolvedInv, ReachInv, StateInv, HaltInv, OwnHalt, Enabled, Next, CallStep, OwnerStays, EdgesGrow, StatesStay, ResolvedGrows, Progressed, ChildrenBack;
    var t := Next(p, s, a);
    EndedStays(p, s, a);
    if Caller(a).Some? {
      var c := Caller(a).value;
      ActionSteps(p, s, a, c);
      OwnStep(p, s, a, c);
      NotBackYet(p, s, t, c);
      if Key(p, c) in s.owner && s.owner[Key(p, c)] == c && Done(t.pcs[c]) { OwnerDone(p, s, a, c); }
      OnlyLinkStarts(p, s, a, c);
      HaltMoves(p, s, t, c);
    } else {
      OtherHalt(p, s, a);
    }
  }

  lemma NotBackYet<K(!new)>(p: Params<K>, s: State<K>, t: State<K>, c: Call<K>)
    requires CallStep(p, s, t, c)
    ensures c in s.pcs && !s.pcs[c].Back?
  {
  }

  lemma OtherHalt<K(!new)>(p: Params<K>, s: State<K>, a: Action<K>)
    requires HaltInv(p, s) && Enabled(p, s, a) && Caller(a).None?
    ensures HaltInv(p, Next(p, s, a))
  {
    hide ChildrenBack;
    var t := Next(p, s, a);
    assert t.pcs == s.pcs && t.owner == s.owner && t.closed == s.closed && s.cancelled <= t.cancelled;
    forall k {:trigger t.owner[k]} | k in t.owner && t.owner[k] in t.pcs && Done(PcOf(t, k)) ensures ChildrenBack(t, k) {
      assert s.owner[k] == t.owner[k];
      SameChildren(s, t, k);
    }
    forall c {:trigger t.pcs[c]} | c in t.pcs ensures OwnHalt(p, t, c) {
      OwnAt(p, s, c);
    }
  }

  lemma SameChildren<K(!new)>(s: State<K>, t: State<K>, k: K)
    requires t.pcs == s.pcs && ChildrenBack(s, k)
    ensures ChildrenBack(t, k)
  {
  }

  lemma {:induction false} RunHalt<K(!new)>(p: Params<K>, run: seq<State<K>>, actions: seq<Action<K>>, i: nat)
    requires IsRun(p, run, actions) && i < |run|
    ensures HaltInv(p, run[i])
  {
    hide Inv, Init, Enabled, Next, HaltInv;
    if i == 0 {
      HaltInit(p, run[0]);
    } else {
      RunHalt(p, run, actions, i - 1);
      RunInv(p, run, actions, i - 1);
      assert run[i] == Next(p, run[i - 1], actions[i - 1]);
      HaltStep(p, run[i - 1], actions[i - 1]);
    }
  }

  lemma HaltInit<K(!new)>(p: Params<K>, s: State<K>)
    requires Init(p, s)
    ensures HaltInv(p, s)
  {
  }

  // ---- what follows ----

  /** A call that has not entered yet, or was turned away: it has claimed no key. */
  ghost predicate Outside<K(!new)>(s: State<K>, c: Call<K>) {
    && (c in s.pcs ==> s.pcs[c] == Entering || s.pcs[c] == Back(true))
    && forall k {:trigger s.owner[k]} :: k in s.owner ==> s.owner[k] != c
  }

  lemma NotEntered<K(!new)>(p: Params<K>, s: State<K>, c: Call<K>)
    requires OwnerInv(p, s) && (c in s.pcs ==> s.pcs[c] == Entering)
    ensures Outside(s, c)
  {
  }

  lemma OutsideStep<K(!new)>(p: Params<K>, s: State<K>, a: Action<K>, c: Call<K>)
    requires Outside(s, c) && GroupOf(c) in s.cancelled && Enabled(p, s, a)
    ensures Outside(Next(p, s, a), c)
  {
    hide Admitted, ChildrenBack, ChildFailed;
  }

  /** An error halts discovery: once a call has failed, or a caller has cancelled, the context of its
      group has ended for good, and no call of the group that has not entered by then ever goes on: it
      claims no key, and nothing is resolved by it. */
  lemma {:induction false} NothingEntersLater<K(!new)>(p: Params<K>, run: seq<State<K>>, actions: seq<Action<K>>, i: nat, j: nat, c: Call<K>)
    requires IsRun(p, run, actions) && i <= j < |run| && (c in run[i].pcs ==> run[i].pcs[c] == Entering)
    requires GroupOf(c) in run[i].cancelled || exists d :: At(run[i], d, Back(true)) && GroupOf(d) == GroupOf(c)
    ensures GroupOf(c) in run[j].cancelled && Outside(run[j], c)
  {
    hide Init, Enabled, Next, GraphInv, OwnerInv, ChildInv, EdgeInv, VertexInv, BornInv, ResultInv, ResolvedInv, ReachInv, StateInv, HaltInv, Outside;
    if i == j {
      RunHalt(p, run, actions, i);
      RunInv(p, run, actions, i);
      NotEntered(p, run[i], c);
      if d :| At(run[i], d, Back(true)) && GroupOf(d) == GroupOf(c) {
        OwnAt(p, run[i], d);
      }
    } else {
      NothingEntersLater(p, run, actions, i, j - 1, c);
      assert run[j] == Next(p, run[j - 1], actions[j - 1]);
      EndedStays(p, run[j - 1], actions[j - 1]);
      OutsideStep(p, run[j - 1], actions[j - 1], c);
    }
  }

  /** The contexts nest: the group of the neighbours of k ends with that of the call that owns k. */
  lemma EndReachesBelow<K(!new)>(p: Params<K>, s: State<K>, k: K)
    requires k in s.owner && GroupOf(s.owner[k]) in s.cancelled
    ensures Enabled(p, s, Propagate(k)) && Of(k) in Next(p, s, Propagate(k)).cancelled
  {
  }

  lemma CallerEnds<K(!new)>(p: Params<K>, s: State<K>)
    ensures Enabled(p, s, CallerCancels) && Top in Next(p, s, CallerCancels).cancelled
  {
  }

  /** A call that returned nil was for a key whose work was over, and when Discover has returned, with or
      without an error, no call is left running. */
  lemma NothingLeftRunning<K(!new)>(p: Params<K>, run: seq<State<K>>, actions: seq<Action<K>>, i: nat)
    requires IsRun(p, run, actions) && i < |run|
    ensures forall c {:trigger run[i].pcs[c]} :: c in run[i].pcs && run[i].pcs[c] == Back(false) ==> ValidCall(p, c) && Key(p, c) in run[i].closed
    ensures forall k {:trigger run[i].owner[k]} :: k in run[i].closed ==> ChildrenBack(run[i], k)
    ensures run[i].result.Some? && p.roots != [] ==> forall c {:trigger run[i].pcs[c]} :: c in run[i].pcs ==> run[i].pcs[c].Back?
  {
    hide Init, Enabled, Next, HaltInv, OwnHalt, GraphInv, ChildInv, EdgeInv, VertexInv, BornInv, ResultInv, ResolvedInv, ReachInv, StateInv;
    RunHalt(p, run, actions, i);
    RunInv(p, run, actions, i);
    RootsBack(p, run, actions, i);
    var s := run[i];
    forall c {:trigger s.pcs[c]} | c in s.pcs && s.pcs[c] == Back(false) ensures ValidCall(p, c) && Key(p, c) in s.closed { OwnReturned(p, s, c); }
    forall k {:trigger s.owner[k]} | k in s.closed ensures ChildrenBack(s, k) { ClosedBack(p, s, k); }
    if s.result.Some? && p.roots != [] {
      forall c {:trigger s.pcs[c]} | c in s.pcs ensures s.pcs[c].Back? {
        CallBorn(p, s, c);
        var j :| 0 <= j < |s.born| && s.born[j] == c;
        BornBack(p, s, j);
      }
    }
  }

  lemma OwnReturned<K(!new)>(p: Params<K>, s: State<K>, c: Call<K>)
    requires HaltInv(p, s) && c in s.pcs && s.pcs[c] == Back(false)
    ensures ValidCall(p, c) && Key(p, c) in s.closed
  {
    OwnAt(p, s, c);
  }

  lemma ClosedBack<K(!new)>(p: Params<K>, s: State<K>, k: K)
    requires OwnerInv(p, s) && HaltInv(p, s) && k in s.closed
    ensures ChildrenBack(s, k)
  {
    assert s.owner[k] in s.pcs;
  }

  lemma CallBorn<K(!new)>(p: Params<K>, s: State<K>, c: Call<K>)
    requires BornInv(p, s) && c in s.pcs
    ensures c in s.born
  {
  }

  /** Once there is a result the calls for the roots are back. */
  ghost predicate RootsReturned<K(!new)>(p: Params<K>, s: State<K>) {
    s.result.Some? && p.roots != [] ==> forall c: Call<K> {:trigger s.pcs[c]} :: c.Root? && c.r < |p.roots| ==> c in s.pcs && s.pcs[c].Back?
  }

  lemma RootsStep<K(!new)>(p: Params<K>, s: State<K>, a: Action<K>)
    requires RootsReturned(p, s) && Enabled(p, s, a)
    ensures RootsReturned(p, Next(p, s, a))
  {
    hide Admitted, ChildrenBack, ChildFailed;
    if a.Finish? {
      forall c: Call<K> {:trigger s.pcs[c]} | c.Root? && c.r < |p.roots| ensures c in s.pcs && s.pcs[c].Back? {
        assert c in s.pcs;
      }
    }
  }

  lemma {:induction false} RootsBack<K(!new)>(p: Params<K>, run: seq<State<K>>, actions: seq<Action<K>>, i: nat)
    requires IsRun(p, run, actions) && i < |run|
    ensures RootsReturned(p, run[i])
  {
    hide Enabled, Next;
    if i > 0 {
      RootsBack(p, run, actions, i - 1);
      assert run[i] == Next(p, run[i - 1], actions[i - 1]);
      RootsStep(p, run[i - 1], actions[i - 1]);
    }
  }

  lemma {:induction false} BornBack<K(!new)>(p: Params<K>, s: State<K>, j: nat)
    requires OwnerInv(p, s) && ChildInv(p, s) && BornInv(p, s) && HaltInv(p, s) && RootsReturned(p, s) && s.result.Some? && p.roots != [] && j < |s.born|
    ensures s.born[j] in s.pcs && s.pcs[s.born[j]].Back?
  {
    hide HasEdge, Past;
    var c := s.born[j];
    assert c in s.born;
    assert s.pcs[c] == s.pcs[c] && ValidCall(p, c);
    if c.Child? {
      var o := s.owner[c.parent];
      assert o in s.born[..j];
      var m :| 0 <= m < j && s.born[m] == o;
      BornBack(p, s, m);
      assert ChildrenBack(s, c.parent);
      assert c == Child(c.parent, c.i);
    }
  }
}
