/** When the digests of component construction (see Construct) are the right ones in every run: the
    exact conditions, with the runs that go wrong where a condition fails. */
module ConstructExactly {
  import opened Graphs
  import opened Construct
  import opened ConstructDigests
  import opened ConstructOutcome
  import opened ConstructRuns
  import opened Orders
  import opened Identities
  import opened IdentityHashes
  import TopoOrder
  import Process
  import ProcessOutcome

  /** Descriptors of different component versions have different digests. */
  ghost predicate ToldApart<K(!new), R(!new), G(!new), C(!new)>(p: Params<K, R, G, C>) {
    forall a: Descriptor<K, G, C>, b: Descriptor<K, G, C> {:trigger p.digest(a), p.digest(b)} :: p.digest(a) == p.digest(b) ==> a.id == b.id
  }

  /** A pin is met by descriptors of one component version only. */
  ghost predicate PinsTellApart<K(!new), R(!new), G(!new), C(!new)>(p: Params<K, R, G, C>) {
    forall a: Descriptor<K, G, C>, b: Descriptor<K, G, C>, g {:trigger p.matches(a, g), p.matches(b, g)} :: p.matches(a, g) && p.matches(b, g) ==> a.id == b.id
  }

  /** Each cached digest is the one a fresh computation from the stored descriptor gives. */
  ghost predicate CacheFresh<K(!new), R, G, C>(p: Params<K, R, G, C>, s: State<K, R, G, C>) {
    forall k {:trigger k in s.cache} :: k in s.cache ==> k in s.store && s.cache[k] == p.digest(s.store[k])
  }

  /** Each component constructed and added to the target records the digests of what it refers to. */
  ghost predicate TargetRecorded<K(!new), R, G, C>(p: Params<K, R, G, C>, s: State<K, R, G, C>) {
    forall v {:trigger s.target[v]} :: v in s.target && !p.external(v) ==> AllRecorded(p, s.store, v, s.target[v])
  }

  ghost predicate AlwaysFresh<K(!new), R(!new), G(!new), C(!new)>(p: Params<K, R, G, C>) {
    forall run: seq<State<K, R, G, C>>, actions: seq<Action<K, G, C>>, i: nat ::
      IsRun(p, run, actions) && i < |run| ==> CacheFresh(p, run[i])
  }

  ghost predicate AlwaysRecorded<K(!new), R(!new), G(!new), C(!new)>(p: Params<K, R, G, C>) {
    forall run: seq<State<K, R, G, C>>, actions: seq<Action<K, G, C>>, i: nat ::
      IsRun(p, run, actions) && i < |run| ==> TargetRecorded(p, run[i])
  }

  // ---- the cache ----

  lemma DoingReferences<K(!new), R, G, C>(p: Params<K, R, G, C>, s: State<K, R, G, C>, v: K)
    requires Inv(p, s) && AtReferences(s, v)
    ensures Doing(s, v) && v in p.adj
  {
    hide StoreInv, FailInv, LogInv;
    assert v in s.proc.phase.Keys;
    assert s.work[v] == s.work[v] && s.proc.phase[v] == s.proc.phase[v];
  }

  /** A poisonous reference that is the first to look up the component version it names caches the
      digest of another one. */
  lemma Poisons<K(!new), R(!new), G(!new), C(!new)>(p: Params<K, R, G, C>, s: State<K, R, G, C>, w: K, j: int)
    requires Discovered(p) && Inv(p, s) && Coherent(p, s) && ProcessOutcome.Ordered(ProcessParams(p), s.proc)
    requires Poisonous(p, w, j) && AtReferences(s, w) && j !in s.work[w].parts && p.refs(w)[j].component !in s.cache
    ensures 0 <= j < |p.refs(w)| && Enabled(p, s, Refer(w, j, true))
    ensures var t, k, other := Next(p, s, Refer(w, j, true)), p.refs(w)[j].component, FoundAt(p.refs(w), j);
      && t == s.(work := t.work, cache := t.cache) && t.work.Keys == s.work.Keys && (forall v :: v in s.work && v != w ==> t.work[v] == s.work[v])
      && w in s.work && t.work[w] == s.work[w].(parts := s.work[w].parts[j := Some(p.digest(s.store[other]))])
      && Apart(s.store, k, other) && t.cache == s.cache[k := p.digest(s.store[other])]
  {
    hide Discovered, Inv, Coherent, ProcessOutcome.Ordered, FoundAt, Startable, Untouched;
    DoingReferences(p, s, w);
    CoherentWorks(p, s);
    FoundFor(p, s, w, j);
    RefsStored(p, s, w);
    assert p.refs(w)[j] in p.refs(w);
    OwnIds(p, s);
  }

  /** A plan that leaves one component at its references. */
  ghost function Alone<K(!new), R, G, C>(p: Params<K, R, G, C>, w: K, f: map<K, Descriptor<K, G, C>>, free: Option<K>, content: C): Plan<K, G, C> {
    Plan(map[w := map[]], Completed(p, f, content), free, content)
  }

  lemma AloneSetup<K(!new), R, G, C>(p: Params<K, R, G, C>, w: K, f: map<K, Descriptor<K, G, C>>, free: Option<K>, content: C)
    requires w in p.adj && !p.external(w) && Startable(p, w) && (p.keeps || MeetsAll(p, Completed(p, f, content))) && (free.Some? ==> Untouched(p, w, free.value))
    ensures Setup(p, Alone(p, w, f, free, content)) && Aim(p, Alone(p, w, f, free, content), w)
  {
    hide Reaches, MeetsAll, Startable, Untouched;
  }

  lemma PoisonedRun<K(!new), R(!new), G(!new), C(!new)>(p: Params<K, R, G, C>, w: K, j: int, f: map<K, Descriptor<K, G, C>>, content: C)
    requires Discovered(p) && ToldApart(p) && (p.keeps || MeetsAll(p, f)) && Poisonous(p, w, j)
    ensures !AlwaysFresh(p)
  {
    hide Discovered, Inv, Coherent, Calm, Setup, Aim, Process.Inv, Enabled, Next, IsRun, ProcessOutcome.Ordered, ProcessOutcome.StartsWaiting, Misnamed, FoundAt, MeetsAll, Startable, Untouched, Alone, Poisonous;
    PoisonousReference(p, w, j);
    var k := p.refs(w)[j].component;
    var plan := Alone(p, w, f, Some(k), content);
    if !p.keeps { CompletedMeetsAll(p, f, content); }
    AloneSetup(p, w, f, Some(k), content);
    AloneHolds(p, w, f, Some(k), content);
    var run, actions := Led(p, plan, w);
    var n := |actions|;
    RunLast(p, run, actions);
    RunInv(p, run, actions, n);
    ProcFacts(ProcessParams(p), run[n].proc);
    CalmReferences(p, plan, run[n], w);
    Poisons(p, run[n], w, j);
    RunExtended(p, run, actions, Refer(w, j, true));
    var more, steps := run + [Next(p, run[n], Refer(w, j, true))], actions + [Refer(w, j, true)];
    assert more[n + 1] == Next(p, run[n], Refer(w, j, true));
    assert k in more[n + 1].cache;
    assert !CacheFresh(p, more[n + 1]);
  }

  lemma AloneHolds<K(!new), R, G, C>(p: Params<K, R, G, C>, w: K, f: map<K, Descriptor<K, G, C>>, free: Option<K>, content: C)
    ensures var plan := Alone(p, w, f, free, content); w in plan.held && plan.held[w] == map[] && plan.free == free && plan.choice == Completed(p, f, content)
  {
  }

  lemma CalmReferences<K(!new), R, G, C>(p: Params<K, R, G, C>, plan: Plan<K, G, C>, s: State<K, R, G, C>, v: K)
    requires Calm(p, plan, s) && AtReferences(s, v) && v in plan.held
    ensures s.work[v].parts == plan.held[v] && (plan.free.Some? ==> plan.free.value !in s.cache)
    ensures StoresFrom(p, plan.choice, s)
  {
    CalmAt(p, plan, s, v);
  }

  /** A cached digest always is the one a fresh computation gives, in every run, if no reference is
      poisonous; and exactly then where versions in the target are kept, or the pins are compared with external ones
      and can be met together. */
  lemma CacheExactly<K(!new), R(!new), G(!new), C(!new)>(p: Params<K, R, G, C>, content: C)
    requires Discovered(p)
    ensures (forall w, j :: !Poisonous(p, w, j)) ==> AlwaysFresh(p)
    ensures ToldApart(p) && (p.keeps || Meetable(p)) ==> (AlwaysFresh(p) <==> forall w, j :: !Poisonous(p, w, j))
  {
    hide Discovered, ToldApart, MeetsAll, Inv, Coherent, Process.Inv, IsRun, Poisonous, CacheFresh;
    if w, j :| Poisonous(p, w, j) {
      if ToldApart(p) && (p.keeps || Meetable(p)) {
        var f: map<K, Descriptor<K, G, C>> := map[];
        if !p.keeps { f :| MeetsAll(p, f); }
        PoisonedRun(p, w, j, f, content);
      }
    } else {
      forall run: seq<State<K, R, G, C>>, actions: seq<Action<K, G, C>>, i: nat | IsRun(p, run, actions) && i < |run| ensures CacheFresh(p, run[i]) {
        RunInv(p, run, actions, i);
        FreshWithoutPoison(p, run[i]);
      }
    }
  }

  lemma FreshWithoutPoison<K(!new), R(!new), G(!new), C(!new)>(p: Params<K, R, G, C>, s: State<K, R, G, C>)
    requires Coherent(p, s) && forall w, j :: !Poisonous(p, w, j)
    ensures CacheFresh(p, s)
  {
    hide Poisonous, TargetInv, WorksCoherent, CachedInv;
  }

  // ---- the target ----

  /** v has been through its first n references, and possibly i; reference i gets g: it has, or it has
      no pin and g is cached for what it names. */
  ghost predicate Referred<K(!new), R, G, C>(p: Params<K, R, G, C>, s: State<K, R, G, C>, v: K, n: nat, i: nat, g: G) {
    && AtReferences(s, v) && AllThere(s.work[v].parts, n) && n <= |p.refs(v)| && i < |p.refs(v)|
    && (forall j {:trigger j in s.work[v].parts} :: j in s.work[v].parts ==> j < n || j == i)
    && if i in s.work[v].parts then s.work[v].parts[i] == Some(g)
       else p.refs(v)[i].pinned.None? && p.refs(v)[i].component in s.cache && s.cache[p.refs(v)[i].component] == g
  }

  /** One more reference: its pin is met, or a digest computed or taken from the cache. */
  lemma RefersNext<K(!new), R(!new), G(!new), C(!new)>(p: Params<K, R, G, C>, choice: map<K, Descriptor<K, G, C>>, s: State<K, R, G, C>, v: K, n: nat, i: nat, g: G)
    requires Discovered(p) && Inv(p, s) && Coherent(p, s) && ProcessOutcome.Ordered(ProcessParams(p), s.proc)
    requires MeetsPins(p, v, choice) && StoresFrom(p, choice, s) && (p.keeps || PinsExternal(p, v))
    requires n < |p.refs(v)| && Referred(p, s, v, n, i, g) && n !in s.work[v].parts
    ensures Enabled(p, s, Refer(v, n, true))
    ensures Referred(p, Next(p, s, Refer(v, n, true)), v, n + 1, i, g) && Next(p, s, Refer(v, n, true)).store == s.store
  {
    hide Discovered, Inv, Coherent, ProcessOutcome.Ordered, FoundAt, MeetsPins, AllThere, Referred, PinsExternal;
    ReferredSoFar(p, s, v, n, i, g);
    DoingReferences(p, s, v);
    CoherentWorks(p, s);
    FoundFor(p, s, v, n);
    PinMet(p, choice, s, v, n);
    var t := Next(p, s, Refer(v, n, true));
    ReferredNext(p, s, t, v, n, i, g, t.work[v].parts[n]);
  }

  lemma ReferredNext<K(!new), R(!new), G(!new), C(!new)>(p: Params<K, R, G, C>, s: State<K, R, G, C>, t: State<K, R, G, C>, v: K, n: nat, i: nat, g: G, part: Option<G>)
    requires Referred(p, s, v, n, i, g) && n < |p.refs(v)| && n !in s.work[v].parts && part.Some?
    requires AtReferences(t, v) && t.work[v].parts == s.work[v].parts[n := part]
    requires forall k {:trigger k in t.cache} :: k in s.cache ==> k in t.cache && t.cache[k] == s.cache[k]
    requires p.refs(v)[n].pinned.None? && p.refs(v)[n].component in s.cache ==> part == Some(s.cache[p.refs(v)[n].component])
    ensures Referred(p, t, v, n + 1, i, g)
  {
  }

  lemma {:induction false} RefersAll<K(!new), R(!new), G(!new), C(!new)>(p: Params<K, R, G, C>, choice: map<K, Descriptor<K, G, C>>,
      run: seq<State<K, R, G, C>>, actions: seq<Action<K, G, C>>, v: K, n: nat, i: nat, g: G)
      returns (more: seq<State<K, R, G, C>>, steps: seq<Action<K, G, C>>)
    requires Discovered(p) && IsRun(p, run, actions) && MeetsPins(p, v, choice)
    requires StoresFrom(p, choice, run[|actions|]) && (p.keeps || PinsExternal(p, v)) && Referred(p, run[|actions|], v, n, i, g)
    ensures IsRun(p, more, steps) && more[|steps|].store == run[|actions|].store
    ensures Referred(p, more[|steps|], v, |p.refs(v)|, i, g)
    decreases |p.refs(v)| - n
  {
    hide Discovered, Inv, Coherent, Process.Inv, IsRun, Enabled, Next, ProcessOutcome.Ordered, ProcessOutcome.StartsWaiting, MeetsPins, Referred, PinsExternal;
    more, steps := run, actions;
    RunLast(p, run, actions);
    var s := run[|actions|];
    ReferredSoFar(p, s, v, n, i, g);
    if n < |p.refs(v)| {
      if n in s.work[v].parts {
        more, steps := RefersAll(p, choice, run, actions, v, n + 1, i, g);
      } else {
        RunInv(p, run, actions, |actions|);
        ProcFacts(ProcessParams(p), s.proc);
        RefersNext(p, choice, s, v, n, i, g);
        RunExtended(p, run, actions, Refer(v, n, true));
        more, steps := RefersAll(p, choice, run + [Next(p, s, Refer(v, n, true))], actions + [Refer(v, n, true)], v, n + 1, i, g);
      }
    }
  }

  lemma ReferredSoFar<K(!new), R, G, C>(p: Params<K, R, G, C>, s: State<K, R, G, C>, v: K, n: nat, i: nat, g: G)
    requires Referred(p, s, v, n, i, g)
    ensures n <= |p.refs(v)| && AtReferences(s, v)
    ensures n < |p.refs(v)| && n in s.work[v].parts ==> Referred(p, s, v, n + 1, i, g)
  {
  }

  /** A component through with its references is assembled, validated and added to the target. */
  lemma Publishes<K(!new), R(!new), G(!new), C(!new)>(p: Params<K, R, G, C>, run: seq<State<K, R, G, C>>, actions: seq<Action<K, G, C>>,
      v: K, i: nat, g: G, content: C) returns (more: seq<State<K, R, G, C>>, steps: seq<Action<K, G, C>>)
    requires Discovered(p) && IsRun(p, run, actions) && DistinctHashes(p.refs(v)) && i < |p.refs(v)|
    requires Referred(p, run[|actions|], v, |p.refs(v)|, i, g)
    ensures IsRun(p, more, steps) && more[|steps|].store == run[|actions|].store && v in more[|steps|].target
    ensures |more[|steps|].target[v].digests| == |p.refs(v)| && more[|steps|].target[v].digests[i] == g
  {
    hide Discovered, Inv, Coherent, Process.Inv, IsRun, DistinctHashes;
    RunLast(p, run, actions);
    RunInv(p, run, actions, |actions|);
    var s := run[|actions|];
    DoingReferences(p, s, v);
    var a: Action<K, G, C> := Assemble(v, true, content);
    RunExtended(p, run, actions, a);
    var t := Next(p, s, a);
    var b: Action<K, G, C> := Publish(v, true);
    assert i in s.work[v].parts;
    RunExtended(p, run + [t], actions + [a], b);
    more, steps := run + [t] + [Next(p, t, b)], actions + [a] + [b];
  }

  /** Descriptors for all vertices, those of f where f has one of the right identity. */
  ghost function Completed<K(!new), R, G, C>(p: Params<K, R, G, C>, f: map<K, Descriptor<K, G, C>>, content: C): (choice: map<K, Descriptor<K, G, C>>)
    ensures choice.Keys == p.adj.Keys && forall v {:trigger choice[v]} :: v in choice ==> choice[v].id == v
  {
    map u | u in p.adj :: if u in f && f[u].id == u then f[u] else Descriptor(u, [], content)
  }

  lemma CompletedMeetsAll<K(!new), R(!new), G(!new), C(!new)>(p: Params<K, R, G, C>, f: map<K, Descriptor<K, G, C>>, content: C)
    requires Discovered(p) && MeetsAll(p, f)
    ensures MeetsAll(p, Completed(p, f, content))
  {
    hide Discovered, MeetsPins, PinsExternal, MeetsAll, Completed;
    forall v | v in p.adj && !p.external(v) ensures MeetsPins(p, v, Completed(p, f, content)) && PinsExternal(p, v) {
      MetBy(p, f, v);
      CompletedMeetsPins(p, v, f, content);
    }
    AllMet(p, Completed(p, f, content));
  }

  lemma MetBy<K(!new), R(!new), G(!new), C(!new)>(p: Params<K, R, G, C>, f: map<K, Descriptor<K, G, C>>, v: K)
    requires MeetsAll(p, f) && v in p.adj && !p.external(v)
    ensures MeetsPins(p, v, f) && PinsExternal(p, v)
  {
    hide MeetsPins, PinsExternal;
    assert MeetsPins(p, v, f);
  }

  lemma AllMet<K(!new), R(!new), G(!new), C(!new)>(p: Params<K, R, G, C>, f: map<K, Descriptor<K, G, C>>)
    requires forall v :: v in p.adj && !p.external(v) ==> MeetsPins(p, v, f) && PinsExternal(p, v)
    ensures MeetsAll(p, f)
  {
    hide MeetsPins, PinsExternal;
  }

  lemma CompletedMeetsPins<K(!new), R, G, C>(p: Params<K, R, G, C>, v: K, f: map<K, Descriptor<K, G, C>>, content: C)
    requires Discovered(p) && v in p.adj && MeetsPins(p, v, f)
    ensures MeetsPins(p, v, Completed(p, f, content))
  {
    hide Acyclic;
    forall j {:trigger p.refs(v)[j]} | 0 <= j < |p.refs(v)| ensures FoundAt(p.refs(v), j) in p.adj {
      assert p.refs(v)[j].key == p.refs(v)[j].key;
      var i := LastIsNamed(p.refs(v), |p.refs(v)|, p.refs(v)[j].key);
      assert Targets(p.refs(v))[i] == p.refs(v)[i].component;
      assert FoundAt(p.refs(v), j) in p.adj[v];
    }
  }

  /** The descriptors found and named are stored, and belong to different component versions. */
  ghost predicate Apart<K, G, C>(store: map<K, Descriptor<K, G, C>>, k: K, other: K) {
    k in store && other in store && store[k].id == k && store[other].id == other && k != other
  }

  /** First w is brought to its references, without a lookup of k, and refers to k; then v. */
  ghost function Pair<K(!new), R, G, C>(p: Params<K, R, G, C>, v: K, w: K, parts: map<nat, Option<G>>, f: map<K, Descriptor<K, G, C>>, free: Option<K>, content: C): Plan<K, G, C> {
    Plan(map[w := parts, v := map[]], Completed(p, f, content), free, content)
  }

  lemma PairSetup<K(!new), R, G, C>(p: Params<K, R, G, C>, v: K, w: K, parts: map<nat, Option<G>>, f: map<K, Descriptor<K, G, C>>, free: Option<K>, content: C)
    requires v in p.adj && !p.external(v) && w in p.adj && !p.external(w) && v != w && !Reaches(p.adj, v, w) && !Reaches(p.adj, w, v) && (p.keeps || MeetsAll(p, Completed(p, f, content)))
    ensures var plan := Pair(p, v, w, parts, f, free, content);
      && Setup(p, plan) && plan.held == map[w := parts, v := map[]] && plan.choice == Completed(p, f, content) && plan.free == free
      && (parts == map[] && Startable(p, w) && (free.Some? ==> Untouched(p, w, free.value)) ==> Aim(p, plan, w))
      && (Startable(p, v) && free.None? ==> Aim(p, plan, v))
  {
    hide Reaches, MeetsAll, Startable, Untouched;
  }

  lemma PairCalm<K(!new), R, G, C>(p: Params<K, R, G, C>, v: K, w: K, f: map<K, Descriptor<K, G, C>>, free: Option<K>, content: C,
      s: State<K, R, G, C>, t: State<K, R, G, C>)
    requires v != w && Calm(p, Pair(p, v, w, map[], f, free, content), s) && AtReferences(s, w) && AtReferences(t, w)
    requires t == s.(work := t.work, cache := t.cache) && t.work.Keys == s.work.Keys && forall u :: u in s.work && u != w ==> t.work[u] == s.work[u]
    ensures Calm(p, Pair(p, v, w, t.work[w].parts, f, None, content), t)
  {
    var plan, next := Pair(p, v, w, map[], f, free, content), Pair(p, v, w, t.work[w].parts, f, None, content);
    forall u {:trigger t.work[u]} | u in t.work ensures CalmWork(p, next, u, t.work[u]) {
      assert u in s.work && CalmWork(p, plan, u, s.work[u]);
    }
  }

  lemma PlanMeets<K(!new), R(!new), G(!new), C(!new)>(p: Params<K, R, G, C>, v: K, f: map<K, Descriptor<K, G, C>>, content: C)
    requires Discovered(p) && v in p.adj && !p.external(v) && MeetsPins(p, v, f) && (p.keeps || MeetsAll(p, f))
    ensures MeetsPins(p, v, Completed(p, f, content)) && (p.keeps || (MeetsAll(p, Completed(p, f, content)) && PinsExternal(p, v)))
  {
    hide Discovered, PinsExternal;
    CompletedMeetsPins(p, v, f, content);
    if !p.keeps { CompletedMeetsAll(p, f, content); }
  }

  /** Descriptors to plan with. */
  lemma Choosable<K(!new), R(!new), G(!new), C(!new)>(p: Params<K, R, G, C>, v: K) returns (f: map<K, Descriptor<K, G, C>>)
    requires Constructible(p, v) && (p.keeps || Meetable(p))
    ensures MeetsPins(p, v, f) && (p.keeps || MeetsAll(p, f))
  {
    hide MeetsPins, Startable, DistinctHashes, PinsExternal;
    if p.keeps { f :| MeetsPins(p, v, f); } else {
      f :| MeetsAll(p, f);
    }
  }

  /** Where v can be constructed, and some w clashes with it, w goes first. */
  lemma ClashingRun<K(!new), R(!new), G(!new), C(!new)>(p: Params<K, R, G, C>, v: K, i: nat, w: K, j: int, f: map<K, Descriptor<K, G, C>>, content: C)
      returns (run: seq<State<K, R, G, C>>, actions: seq<Action<K, G, C>>)
    requires Discovered(p) && (p.keeps || MeetsAll(p, f)) && Constructible(p, v) && MeetsPins(p, v, f) && ClashWith(p, v, i, w, j)
    ensures IsRun(p, run, actions) && v in run[|actions|].target && |run[|actions|].target[v].digests| == |p.refs(v)|
    ensures var other, store := FoundAt(p.refs(w), j), run[|actions|].store;
      Apart(store, p.refs(v)[i].component, other) && run[|actions|].target[v].digests[i] == p.digest(store[other])
  {
    hide Discovered, Inv, Coherent, Process.Inv, Calm, Setup, Aim, Pair, IsRun, Enabled, Next, MeetsPins, DistinctHashes, FoundAt, ProcessOutcome.Ordered, ProcessOutcome.StartsWaiting, Reaches, MeetsAll, PinsExternal, Startable, Untouched, Poisonous, Apart, Referred;
    ReachesRefl(p.adj, v);
    PlanMeets(p, v, f, content);
    PoisonousReference(p, w, j);
    var k, other := p.refs(w)[j].component, FoundAt(p.refs(w), j);
    PairSetup(p, v, w, map[], f, Some(k), content);
    run, actions := Led(p, Pair(p, v, w, map[], f, Some(k), content), w);
    RunLast(p, run, actions);
    var s := run[|actions|];
    RunInv(p, run, actions, |actions|);
    ProcFacts(ProcessParams(p), s.proc);
    CalmReferences(p, Pair(p, v, w, map[], f, Some(k), content), s, w);
    Poisons(p, s, w, j);
    RunExtended(p, run, actions, Refer(w, j, true));
    var t := Next(p, s, Refer(w, j, true));
    run, actions := run + [t], actions + [Refer(w, j, true)];
    PairCalm(p, v, w, f, Some(k), content, s, t);
    var plan := Pair(p, v, w, t.work[w].parts, f, None, content);
    PairSetup(p, v, w, t.work[w].parts, f, None, content);
    run, actions := LedOn(p, plan, v, run, actions);
    RunLast(p, run, actions);
    CalmReferences(p, plan, run[|actions|], v);
    StillApart(t.store, run[|actions|].store, k, other);
    StillCached(p, t, run[|actions|], v, i);
    run, actions := RefersAll(p, plan.choice, run, actions, v, 0, i, t.cache[k]);
    run, actions := Publishes(p, run, actions, v, i, t.cache[k], content);
  }

  lemma StillApart<K(!new), G, C>(a: map<K, Descriptor<K, G, C>>, b: map<K, Descriptor<K, G, C>>, k: K, other: K)
    requires Apart(a, k, other) && Extends(a, b)
    ensures k in a && other in a && Apart(b, k, other) && b[other] == a[other]
  {
    assert k in b && other in b;
  }

  lemma StillCached<K(!new), R(!new), G(!new), C(!new)>(p: Params<K, R, G, C>, t: State<K, R, G, C>, s: State<K, R, G, C>, v: K, i: nat)
    requires Extends(t.cache, s.cache) && AtReferences(s, v) && s.work[v].parts == map[]
    requires i < |p.refs(v)| && p.refs(v)[i].pinned.None? && p.refs(v)[i].component in t.cache
    ensures Referred(p, s, v, 0, i, t.cache[p.refs(v)[i].component])
  {
    assert p.refs(v)[i].component in s.cache;
  }

  /** The first reference to be recorded: what is found meets its pin, or its digest is computed. */
  lemma RefersFirst<K(!new), R(!new), G(!new), C(!new)>(p: Params<K, R, G, C>, choice: map<K, Descriptor<K, G, C>>, s: State<K, R, G, C>, v: K, i: nat)
    requires Discovered(p) && Inv(p, s) && Coherent(p, s) && ProcessOutcome.Ordered(ProcessParams(p), s.proc)
    requires MeetsPins(p, v, choice) && StoresFrom(p, choice, s) && (p.keeps || PinsExternal(p, v)) && i < |p.refs(v)|
    requires AtReferences(s, v) && s.work[v].parts == map[] && (p.refs(v)[i].pinned.None? ==> p.refs(v)[i].component !in s.cache)
    ensures Enabled(p, s, Refer(v, i, true)) && FoundAt(p.refs(v), i) in s.store
    ensures var t, r, found := Next(p, s, Refer(v, i, true)), p.refs(v)[i], s.store[FoundAt(p.refs(v), i)];
      t.store == s.store && (r.pinned.Some? ==> p.matches(found, r.pinned.value))
      && Referred(p, t, v, 0, i, if r.pinned.Some? then p.canonical(r.pinned.value) else p.digest(found))
  {
    hide Discovered, Inv, Coherent, ProcessOutcome.Ordered, FoundAt, MeetsPins, PinsExternal;
    DoingReferences(p, s, v);
    CoherentWorks(p, s);
    FoundFor(p, s, v, i);
    PinMet(p, choice, s, v, i);
    assert p.refs(v)[i] in p.refs(v);
  }

  /** Where v can be constructed and reference i finds another component version than it names, it
      goes first. */
  lemma MisledRun<K(!new), R(!new), G(!new), C(!new)>(p: Params<K, R, G, C>, v: K, i: nat, f: map<K, Descriptor<K, G, C>>, content: C)
      returns (run: seq<State<K, R, G, C>>, actions: seq<Action<K, G, C>>)
    requires Discovered(p) && (p.keeps || MeetsAll(p, f)) && Constructible(p, v) && MeetsPins(p, v, f)
    requires Misnamed(p.refs(v), i) && (p.refs(v)[i].pinned.None? ==> Poisonous(p, v, i))
    ensures IsRun(p, run, actions) && v in run[|actions|].target && |run[|actions|].target[v].digests| == |p.refs(v)|
    ensures var other, store, r := FoundAt(p.refs(v), i), run[|actions|].store, p.refs(v)[i];
      Apart(store, r.component, other)
      && if r.pinned.Some? then p.matches(store[other], r.pinned.value) else run[|actions|].target[v].digests[i] == p.digest(store[other])
  {
    hide Discovered, Inv, Coherent, Process.Inv, Calm, Setup, Aim, Alone, IsRun, Enabled, Next, MeetsPins, DistinctHashes, FoundAt, ProcessOutcome.Ordered, ProcessOutcome.StartsWaiting, Referred, MeetsAll, PinsExternal, Startable, Untouched, Poisonous;
    var r := p.refs(v)[i];
    if r.pinned.None? { PoisonousReference(p, v, i); }
    var free := if r.pinned.None? then Some(r.component) else None;
    PlanMeets(p, v, f, content);
    AloneSetup(p, v, f, free, content);
    AloneHolds(p, v, f, free, content);
    var plan := Alone(p, v, f, free, content);
    run, actions := Led(p, plan, v);
    RunLast(p, run, actions);
    var s := run[|actions|];
    RunInv(p, run, actions, |actions|);
    ProcFacts(ProcessParams(p), s.proc);
    CalmReferences(p, plan, s, v);
    RefersFirst(p, plan.choice, s, v, i);
    AllFound(p, s, v, i);
    RunExtended(p, run, actions, Refer(v, i, true));
    var t := Next(p, s, Refer(v, i, true));
    run, actions := run + [t], actions + [Refer(v, i, true)];
    var g := if r.pinned.Some? then p.canonical(r.pinned.value) else p.digest(s.store[FoundAt(p.refs(v), i)]);
    run, actions := RefersAll(p, plan.choice, run, actions, v, 0, i, g);
    run, actions := Publishes(p, run, actions, v, i, g, content);
  }

  lemma AllFound<K(!new), R(!new), G(!new), C(!new)>(p: Params<K, R, G, C>, s: State<K, R, G, C>, v: K, i: nat)
    requires Discovered(p) && Inv(p, s) && ProcessOutcome.Ordered(ProcessParams(p), s.proc) && AtReferences(s, v)
    requires Misnamed(p.refs(v), i) && FoundAt(p.refs(v), i) in s.store
    ensures Apart(s.store, p.refs(v)[i].component, FoundAt(p.refs(v), i))
  {
    hide Discovered, Inv, ProcessOutcome.Ordered, FoundAt;
    RefsStored(p, s, v);
    assert p.refs(v)[i] in p.refs(v);
    OwnIds(p, s);
  }

  lemma ClashRecorded<K(!new), R(!new), G(!new), C(!new)>(p: Params<K, R, G, C>, v: K, i: nat, content: C)
    requires Discovered(p) && ToldApart(p) && (p.keeps || Meetable(p)) && Constructible(p, v) && Clash(p, v, i)
    ensures !AlwaysRecorded(p)
  {
    hide Discovered, IsRun, FoundAt, DistinctHashes, MeetsPins, Reaches, Misnamed, Meetable, Startable, Untouched;
    var w, j :| ClashWith(p, v, i, w, j);
    var f := Choosable(p, v);
    var run, actions := ClashingRun(p, v, i, w, j, f, content);
    RunLast(p, run, actions);
    var s := run[|actions|];
    assert !Recorded(p, s.store, p.refs(v)[i], s.target[v].digests[i]);
    assert !TargetRecorded(p, s);
  }

  lemma MisledRecorded<K(!new), R(!new), G(!new), C(!new)>(p: Params<K, R, G, C>, v: K, i: int, content: C)
    requires Discovered(p) && ToldApart(p) && PinsTellApart(p) && (p.keeps || Meetable(p)) && Constructible(p, v)
    requires Misnamed(p.refs(v), i) && (p.refs(v)[i].pinned.None? ==> Poisonous(p, v, i))
    ensures !AlwaysRecorded(p)
  {
    hide Discovered, IsRun, FoundAt, DistinctHashes, MeetsPins, Meetable, Startable, Untouched, Poisonous;
    var f := Choosable(p, v);
    var run, actions := MisledRun(p, v, i, f, content);
    RunLast(p, run, actions);
    var s := run[|actions|];
    assert !Recorded(p, s.store, p.refs(v)[i], s.target[v].digests[i]);
    assert !TargetRecorded(p, s);
  }

  lemma RecordedIfClear<K(!new), R(!new), G(!new), C(!new)>(p: Params<K, R, G, C>, s: State<K, R, G, C>)
    requires Coherent(p, s) && AllClear(p)
    ensures TargetRecorded(p, s)
  {
    hide Constructible, Clear, CacheInv, WorksCoherent, CachedInv, Recorded, FoundAt;
    forall v {:trigger s.target[v]} | v in s.target && !p.external(v) ensures AllRecorded(p, s.store, v, s.target[v]) {
      forall j {:trigger s.target[v].digests[j]} | 0 <= j < |p.refs(v)| ensures Recorded(p, s.store, p.refs(v)[j], s.target[v].digests[j]) {
        assert PartKnown(p, s.store, v, j, s.target[v].digests[j]);
        if p.refs(v)[j].pinned.Some? {
          ClearPinned(p, v, j);
          RecordedPin(p, s.store, v, j, s.target[v].digests[j]);
        }
      }
    }
  }

  lemma RecordedPin<K(!new), R(!new), G(!new), C(!new)>(p: Params<K, R, G, C>, store: map<K, Descriptor<K, G, C>>, v: K, j: nat, g: G)
    requires j < |p.refs(v)| && PartKnown(p, store, v, j, g) && FoundAt(p.refs(v), j) == p.refs(v)[j].component
    ensures p.refs(v)[j].pinned.Some? ==> Recorded(p, store, p.refs(v)[j], g)
  {
    hide FoundAt, Clear, AllClear;
  }

  /** A constructed component in the target always records the digests of what it refers to, in every
      run, if no component that can be constructed has a poisonous reference, a pin that is compared
      with another component version than it names, or clashes with another component: refers without
      a pin to what a poisonous reference of the other names, where neither waits for the other; and
      exactly then where versions in the target are kept, or the pins are compared with external ones
      and can be met together. */
  lemma TargetExactly<K(!new), R(!new), G(!new), C(!new)>(p: Params<K, R, G, C>, content: C)
    requires Discovered(p)
    ensures AllClear(p) ==> AlwaysRecorded(p)
    ensures ToldApart(p) && PinsTellApart(p) && (p.keeps || Meetable(p)) ==> (AlwaysRecorded(p) <==> AllClear(p))
  {
    hide Discovered, ToldApart, PinsTellApart, Meetable, Inv, Coherent, Process.Inv, IsRun, Constructible, Clear, TargetRecorded;
    if v :| Constructible(p, v) && !Clear(p, v) {
      if ToldApart(p) && PinsTellApart(p) && (p.keeps || Meetable(p)) { UnclearFails(p, v, content); }
    } else {
      forall run: seq<State<K, R, G, C>>, actions: seq<Action<K, G, C>>, i: nat | IsRun(p, run, actions) && i < |run| ensures TargetRecorded(p, run[i]) {
        RunInv(p, run, actions, i);
        RecordedIfClear(p, run[i]);
      }
    }
  }

  lemma UnclearFails<K(!new), R(!new), G(!new), C(!new)>(p: Params<K, R, G, C>, v: K, content: C)
    requires Discovered(p) && ToldApart(p) && PinsTellApart(p) && (p.keeps || Meetable(p)) && Constructible(p, v) && !Clear(p, v)
    ensures !AlwaysRecorded(p)
  {
    hide Discovered, ToldApart, PinsTellApart, Meetable, Constructible, AlwaysRecorded, Poisonous, Clash, FoundAt;
    if i: nat :| Clash(p, v, i) {
      ClashRecorded(p, v, i, content);
    } else if j :| Poisonous(p, v, j) {
      PoisonousReference(p, v, j);
      MisledRecorded(p, v, j, content);
    } else {
      var j :| Misnamed(p.refs(v), j) && p.refs(v)[j].pinned.Some?;
      MisledRecorded(p, v, j, content);
    }
  }

  // ---- files for which the properties fail ----

  /** Four components: 0, 1, 2 with the given references to 0 and 1, and 3, which refers to 0. */
  function FourComponents<R>(keeps: bool, refs: seq<Reference<int, R, int>>, last: R): Params<int, R, int, bool> {
    Params(
      map[0 := {}, 1 := {}, 2 := {0, 1}, 3 := {0}],
      (k: int) => if k == 2 then refs else if k == 3 then [Reference(0, last, 8, None)] else [],
      (k: int) => false, false, keeps,
      (d: Descriptor<int, int, bool>) => d.id,
      (d: Descriptor<int, int, bool>, g: int) => d.id == g,
      (g: int) => g)
  }

  lemma FourAcyclic()
    ensures Acyclic<int>(map[0 := {}, 1 := {}, 2 := {0, 1}, 3 := {0}])
  {
    var g := map[0 := {}, 1 := {}, 2 := {0, 1}, 3 := {0}];
    var order := [0, 1, 2, 3];
    forall i | 0 <= i < |order| ensures order[i] in g && forall y :: y in g[order[i]] ==> y in order[..i] {
      assert order[..2] == [0, 1] && order[..3] == [0, 1, 2];
    }
    assert (set x | x in order) == g.Keys;
    TopologicalIsAcyclic(g, order);
  }

  lemma FourMeets<R(!new)>(keeps: bool, refs: seq<Reference<int, R, int>>, last: R)
    requires |refs| == 2 && refs[0].pinned == refs[1].pinned == None
    ensures Meetable(FourComponents(keeps, refs, last))
  {
    var p := FourComponents(keeps, refs, last);
    forall v {:trigger MeetsPins(p, v, map[])} ensures MeetsPins(p, v, map[]) && PinsExternal(p, v) {
      assert forall j {:trigger p.refs(v)[j]} :: 0 <= j < |p.refs(v)| ==> p.refs(v)[j].pinned.None?;
    }
    assert MeetsAll(p, map[]);
  }

  lemma FourDiscovered<R(!new)>(keeps: bool, refs: seq<Reference<int, R, int>>, last: R)
    requires Targets(refs) == [0, 1] && refs[0].pinned == refs[1].pinned == None
    ensures Meetable(FourComponents(keeps, refs, last))
    ensures Discovered(FourComponents(keeps, refs, last)) && ToldApart(FourComponents(keeps, refs, last)) && PinsTellApart(FourComponents(keeps, refs, last))
  {
    hide Acyclic;
    var p := FourComponents(keeps, refs, last);
    FourAcyclic();
    assert Targets(p.refs(3)) == [0] && |Targets(refs)| == 2;
    FourMeets(keeps, refs, last);
  }

  /** 2 waits for 0 and 1 and 3 for 0, which refer to nothing. */
  lemma FourStartable<R(!new)>(keeps: bool, refs: seq<Reference<int, R, int>>, last: R)
    ensures !Reaches(FourComponents(keeps, refs, last).adj, 3, 2) && !Reaches(FourComponents(keeps, refs, last).adj, 2, 3)
    ensures Startable(FourComponents(keeps, refs, last), 2) && Startable(FourComponents(keeps, refs, last), 3)
    ensures forall k :: Untouched(FourComponents(keeps, refs, last), 2, k)
  {
    var p := FourComponents(keeps, refs, last);
    forall x | Reaches(p.adj, 2, x) ensures x in {0, 1, 2} {
      var q: seq<int> :| PathFromTo(p.adj, q, 2, x);
      PathStays(p.adj, {0, 1, 2}, q);
    }
    forall x | Reaches(p.adj, 3, x) ensures x in {0, 3} {
      var q: seq<int> :| PathFromTo(p.adj, q, 3, x);
      PathStays(p.adj, {0, 3}, q);
    }
    hide Reaches;
  }

  /** If both print alike and hash alike, 2 is never added, but 3 can take what it has cached. */
  lemma FourClash<R(!new)>(keeps: bool, refs: seq<Reference<int, R, int>>, last: R)
    requires Targets(refs) == [0, 1] && refs[0].key == refs[1].key && refs[0].hash == refs[1].hash && refs[0].pinned == None
    ensures Poisonous(FourComponents(keeps, refs, last), 2, 0) && !Constructible(FourComponents(keeps, refs, last), 2)
    ensures !AllClear(FourComponents(keeps, refs, last))
  {
    hide NamedLast, Named, Reaches, Startable, Untouched;
    var p := FourComponents(keeps, refs, last);
    LastOfTwo(refs);
    assert Targets(refs)[0] == refs[0].component && Targets(refs)[1] == refs[1].component;
    assert MeetsPins(p, 3, map[]);
    FourStartable(keeps, refs, last);
    assert ClashWith(p, 3, 0, 2, 0);
    assert Constructible(p, 3) && Clash(p, 3, 0);
  }

  lemma LastOfTwo<K, R, G>(refs: seq<Reference<K, R, G>>)
    requires |refs| == 2 && refs[0].key == refs[1].key
    ensures FoundAt(refs, 0) == refs[1].component
  {
  }

  /** If both print alike but do not hash alike, 2 itself can be added with a wrong digest. */
  lemma FourMisled<R(!new)>(keeps: bool, refs: seq<Reference<int, R, int>>, last: R)
    requires Targets(refs) == [0, 1] && refs[0].key == refs[1].key && refs[0].hash != refs[1].hash && refs[0].pinned == refs[1].pinned == None
    ensures Poisonous(FourComponents(keeps, refs, last), 2, 0) && Constructible(FourComponents(keeps, refs, last), 2)
    ensures !AllClear(FourComponents(keeps, refs, last))
  {
    hide NamedLast, Named, Reaches, Startable, Untouched;
    var p := FourComponents(keeps, refs, last);
    LastOfTwo(refs);
    assert Targets(refs)[0] == refs[0].component && Targets(refs)[1] == refs[1].component;
    FourStartable(keeps, refs, last);
    assert MeetsPins(p, 2, map[]);
    assert Constructible(p, 2);
  }

  /** Component 2 refers to 0 and 1 under the same identity. */
  ghost function TwiceNamed(keeps: bool): Params<int, string, int, bool> {
    StringsOrdered();
    var key, hash := Printed(StringLeq, OneAttribute()), Hashed(StringLeq, OneAttribute());
    FourComponents(keeps, [Reference(0, key, hash, None), Reference(1, key, hash, None)], "")
  }

  /** Discovery accepts the file, and both properties fail although the component is never added. */
  lemma TwiceNamedFails(keeps: bool)
    ensures Discovered(TwiceNamed(keeps)) && !AlwaysFresh(TwiceNamed(keeps)) && !AlwaysRecorded(TwiceNamed(keeps)) && !Constructible(TwiceNamed(keeps), 2)
  {
    hide Discovered, ToldApart, PinsTellApart, AlwaysFresh, AlwaysRecorded, AllClear, Poisonous, Constructible, Meetable, Printed, Hashed, TotalOrder, FourComponents;
    StringsOrdered();
    var key, hash := Printed(StringLeq, OneAttribute()), Hashed(StringLeq, OneAttribute());
    var refs: seq<Reference<int, string, int>> := [Reference(0, key, hash, None), Reference(1, key, hash, None)];
    assert Targets(refs) == [0, 1];
    FourDiscovered(keeps, refs, "");
    FourClash(keeps, refs, "");
    CacheExactly(TwiceNamed(keeps), true);
    TargetExactly(TwiceNamed(keeps), true);
  }

  /** Component 2 refers to 0 and 1 under identities that print alike. */
  ghost function Misprinted(keeps: bool): Params<int, string, int, bool> {
    StringsOrdered();
    FourComponents(keeps, [
      Reference(0, Printed(StringLeq, OneAttribute()), Hashed(StringLeq, OneAttribute()), None),
      Reference(1, Printed(StringLeq, TwoAttributes()), Hashed(StringLeq, TwoAttributes()), None)], "")
  }

  /** The validation, which compares hashes, accepts the references too, so that the component itself
      can be added with the wrong digest. */
  lemma MisprintedFails(keeps: bool)
    ensures Discovered(Misprinted(keeps)) && !AlwaysFresh(Misprinted(keeps)) && !AlwaysRecorded(Misprinted(keeps)) && Constructible(Misprinted(keeps), 2)
  {
    hide Discovered, ToldApart, PinsTellApart, AlwaysFresh, AlwaysRecorded, AllClear, Poisonous, Constructible, Meetable, Printed, Hashed, TotalOrder, FourComponents;
    AlikeButApart();
    var refs: seq<Reference<int, string, int>> := [
      Reference(0, Printed(StringLeq, OneAttribute()), Hashed(StringLeq, OneAttribute()), None),
      Reference(1, Printed(StringLeq, TwoAttributes()), Hashed(StringLeq, TwoAttributes()), None)];
    assert Targets(refs) == [0, 1];
    FourDiscovered(keeps, refs, "");
    FourMisled(keeps, refs, "");
    CacheExactly(Misprinted(keeps), true);
    TargetExactly(Misprinted(keeps), true);
  }
}
