/** Which digests the workers of component construction (see Construct) record and cache: the invariant
    that holds whatever the references look like, and that every step keeps it. */
module ConstructDigests {
  import opened Graphs
  import opened Construct
  import Process
  import ProcessOutcome

  // ---- coherent digests ----

  /** Whether an entry of the loaded map stands for one of the first n references. */
  ghost predicate Named<K, R, G>(refs: seq<Reference<K, R, G>>, n: nat, key: R)
    requires n <= |refs|
  {
    exists i :: 0 <= i < n && refs[i].key == key
  }

  /** The component version the loaded map has under key after n references: later references
      overwrite earlier ones of the same key. */
  ghost function NamedLast<K, R, G>(refs: seq<Reference<K, R, G>>, n: nat, key: R): K
    requires n <= |refs| && Named(refs, n, key)
  {
    if refs[n - 1].key == key then refs[n - 1].component else NamedLast(refs, n - 1, key)
  }

  /** No two references whose identities print alike name different component versions. */
  ghost predicate Unambiguous<K, R, G>(refs: seq<Reference<K, R, G>>) {
    forall i, j :: 0 <= i < |refs| && 0 <= j < |refs| && refs[i].key == refs[j].key ==> refs[i].component == refs[j].component
  }

  lemma {:induction false} LastIsNamed<K, R, G>(refs: seq<Reference<K, R, G>>, n: nat, key: R) returns (i: nat)
    requires n <= |refs| && Named(refs, n, key)
    ensures i < n && refs[i].key == key && refs[i].component == NamedLast(refs, n, key)
  {
    if refs[n - 1].key == key { i := n - 1; } else { i := LastIsNamed(refs, n - 1, key); }
  }

  /** The component version whose descriptor reference j finds: that of the last reference whose
      identity prints alike. */
  ghost function FoundAt<K, R, G>(refs: seq<Reference<K, R, G>>, j: int): K
    requires 0 <= j < |refs|
  {
    assert refs[j].key == refs[j].key;
    NamedLast(refs, |refs|, refs[j].key)
  }

  /** Reference j finds the descriptor of another component version than the one it names. */
  ghost predicate Misnamed<K, R, G>(refs: seq<Reference<K, R, G>>, j: int) {
    0 <= j < |refs| && FoundAt(refs, j) != refs[j].component
  }

  /** Each reference finds the component version it names exactly when the references are unambiguous. */
  lemma FoundExactly<K, R, G>(refs: seq<Reference<K, R, G>>)
    ensures Unambiguous(refs) <==> forall j :: !Misnamed(refs, j)
  {
    if Unambiguous(refs) {
      forall j | 0 <= j < |refs| ensures FoundAt(refs, j) == refs[j].component {
        assert refs[j].key == refs[j].key;
        var i := LastIsNamed(refs, |refs|, refs[j].key);
      }
    }
    if forall j :: !Misnamed(refs, j) {
      forall i, j | 0 <= i < |refs| && 0 <= j < |refs| && refs[i].key == refs[j].key ensures refs[i].component == refs[j].component {
        assert !Misnamed(refs, i) && !Misnamed(refs, j);
      }
    }
  }

  /** After n references the map holds, under each identity, the descriptor last loaded for it. */
  ghost predicate Loaded<K(!new), R(!new), G(!new), C(!new)>(p: Params<K, R, G, C>, store: map<K, Descriptor<K, G, C>>, v: K,
      loaded: map<R, Descriptor<K, G, C>>, n: nat) {
    && n <= |p.refs(v)|
    && forall x {:trigger x in loaded} :: Named(p.refs(v), n, x) ==>
      x in loaded && NamedLast(p.refs(v), n, x) in store && loaded[x] == store[NamedLast(p.refs(v), n, x)]
  }

  /** x is something w waits for. */
  ghost predicate Below<K(!new), R, G, C>(p: Params<K, R, G, C>, w: K, x: K) {
    Reaches(p.adj, w, x) && x != w
  }

  /** x looks up the digest of k. */
  ghost predicate Looks<K(!new), R, G, C>(p: Params<K, R, G, C>, x: K, k: K) {
    x in p.adj && !p.external(x) && exists j :: 0 <= j < |p.refs(x)| && LooksAt(p, x, j, k)
  }

  ghost predicate LooksAt<K(!new), R, G, C>(p: Params<K, R, G, C>, x: K, j: int, k: K)
    requires 0 <= j < |p.refs(x)|
  {
    p.refs(x)[j].pinned.None? && p.refs(x)[j].component == k
  }

  /** w can be started: what it waits for is found in the target, or passes the validation. */
  ghost predicate Startable<K(!new), R, G, C>(p: Params<K, R, G, C>, w: K) {
    p.keeps || forall x {:trigger Below(p, w, x)} :: Below(p, w, x) && !p.external(x) ==> DistinctHashes(p.refs(x))
  }

  /** Nothing that w waits for has to look up the digest of k before. */
  ghost predicate Untouched<K(!new), R, G, C>(p: Params<K, R, G, C>, w: K, k: K) {
    p.keeps || forall x {:trigger Below(p, w, x)} :: Below(p, w, x) ==> !Looks(p, x, k)
  }

  /** Reference j of w puts the digest of another component version into the cache, if it is the first
      to look for the one it names, which it can be: it has no pin, and the identity of a later
      reference prints alike. */
  ghost predicate Poisonous<K(!new), R, G, C>(p: Params<K, R, G, C>, w: K, j: int) {
    && w in p.adj && !p.external(w) && Misnamed(p.refs(w), j) && p.refs(w)[j].pinned.None?
    && Startable(p, w) && Untouched(p, w, p.refs(w)[j].component)
  }

  /** The descriptors meet the pins of v: each that of the one found for it. */
  ghost predicate MeetsPins<K, R, G, C>(p: Params<K, R, G, C>, v: K, f: map<K, Descriptor<K, G, C>>) {
    forall j {:trigger p.refs(v)[j]} :: 0 <= j < |p.refs(v)| && p.refs(v)[j].pinned.Some? ==>
      var found := FoundAt(p.refs(v), j);
      found in f && f[found].id == found && p.matches(f[found], p.refs(v)[j].pinned.value)
  }

  /** A component that can be constructed at all: it can be started, its references pass the validation,
      and some descriptors of what they find meet the pins. */
  ghost predicate Constructible<K(!new), R(!new), G(!new), C(!new)>(p: Params<K, R, G, C>, v: K) {
    v in p.adj && !p.external(v) && Startable(p, v) && DistinctHashes(p.refs(v)) && exists f: map<K, Descriptor<K, G, C>> :: MeetsPins(p, v, f)
  }

  /** w is past its loads and has not ended well. */
  predicate Stuck<K, R, G, C>(w: Work<K, R, G, C>) {
    w.Referencing? || (w.Over? && w.failure.Some?)
  }

  /** A poisonous reference to k, of a component that can be constructed, or is stuck. */
  ghost predicate PoisonedBy<K(!new), R(!new), G(!new), C(!new)>(p: Params<K, R, G, C>, s: State<K, R, G, C>, k: K, w: K, j: int) {
    Poisonous(p, w, j) && p.refs(w)[j].component == k && (Constructible(p, w) || (w in s.work && Stuck(s.work[w])))
  }

  /** A cached digest is the one a fresh computation from the stored descriptor gives, or has been put
      there by a poisonous reference. */
  ghost predicate CacheInv<K(!new), R(!new), G(!new), C(!new)>(p: Params<K, R, G, C>, s: State<K, R, G, C>) {
    forall k {:trigger k in s.cache} :: k in s.cache ==>
      k in s.store && (s.cache[k] == p.digest(s.store[k]) || exists w, j :: PoisonedBy(p, s, k, w, j))
  }

  /** A poisonous reference of w names what reference i of v names, and neither component waits for
      the other. */
  ghost predicate ClashWith<K(!new), R, G, C>(p: Params<K, R, G, C>, v: K, i: nat, w: K, j: int) {
    && i < |p.refs(v)| && p.refs(v)[i].pinned.None? && Poisonous(p, w, j) && p.refs(w)[j].component == p.refs(v)[i].component
    && !Reaches(p.adj, v, w) && !Reaches(p.adj, w, v)
  }

  ghost predicate Clash<K(!new), R, G, C>(p: Params<K, R, G, C>, v: K, i: nat) {
    exists w, j :: ClashWith(p, v, i, w, j)
  }

  /** The pins of v are compared with what they name, and no reference of v is poisonous or clashes. */
  ghost predicate Clear<K(!new), R, G, C>(p: Params<K, R, G, C>, v: K) {
    && (forall j :: Misnamed(p.refs(v), j) ==> p.refs(v)[j].pinned.None?)
    && (forall j :: !Poisonous(p, v, j)) && forall i: nat :: !Clash(p, v, i)
  }

  /** Everything that can be constructed is clear. */
  ghost predicate AllClear<K(!new), R(!new), G(!new), C(!new)>(p: Params<K, R, G, C>) {
    forall v {:trigger Constructible(p, v)} :: Constructible(p, v) ==> Clear(p, v)
  }

  /** g is what is recorded for r: its verified pin, or the digest of the descriptor it names. */
  ghost predicate Recorded<K, R, G, C>(p: Params<K, R, G, C>, store: map<K, Descriptor<K, G, C>>, r: Reference<K, R, G>, g: G) {
    && r.component in store
    && if r.pinned.Some? then p.matches(store[r.component], r.pinned.value) && g == p.canonical(r.pinned.value)
       else g == p.digest(store[r.component])
  }

  ghost predicate AllRecorded<K, R, G, C>(p: Params<K, R, G, C>, store: map<K, Descriptor<K, G, C>>, v: K, desc: Descriptor<K, G, C>) {
    && |desc.digests| == |p.refs(v)|
    && forall j {:trigger desc.digests[j]} :: 0 <= j < |p.refs(v)| ==> Recorded(p, store, p.refs(v)[j], desc.digests[j])
  }

  /** What is known of the digest of reference j: a pin is met by the descriptor found, and without one
      it is recorded as promised where all is clear. */
  ghost predicate PartKnown<K(!new), R(!new), G(!new), C(!new)>(p: Params<K, R, G, C>, store: map<K, Descriptor<K, G, C>>, v: K, j: nat, g: G)
    requires j < |p.refs(v)|
  {
    var r, found := p.refs(v)[j], FoundAt(p.refs(v), j);
    if r.pinned.Some? then found in store && p.matches(store[found], r.pinned.value) && g == p.canonical(r.pinned.value)
    else Clear(p, v) && AllClear(p) ==> Recorded(p, store, r, g)
  }

  ghost predicate PartsKnown<K(!new), R(!new), G(!new), C(!new)>(p: Params<K, R, G, C>, store: map<K, Descriptor<K, G, C>>, v: K, parts: map<nat, Option<G>>) {
    forall j {:trigger j in parts} :: j in parts && j < |p.refs(v)| && parts[j].Some? ==> PartKnown(p, store, v, j, parts[j].value)
  }

  /** What is known of a constructed descriptor. */
  ghost predicate Made<K(!new), R(!new), G(!new), C(!new)>(p: Params<K, R, G, C>, store: map<K, Descriptor<K, G, C>>, v: K, desc: Descriptor<K, G, C>) {
    && Constructible(p, v) && |desc.digests| == |p.refs(v)|
    && forall j {:trigger desc.digests[j]} :: 0 <= j < |p.refs(v)| ==> PartKnown(p, store, v, j, desc.digests[j])
  }

  ghost predicate WorkCoherent<K(!new), R(!new), G(!new), C(!new)>(p: Params<K, R, G, C>, store: map<K, Descriptor<K, G, C>>, v: K, w: Work<K, R, G, C>) {
    match w
    case Loading(j, loaded) => !p.external(v) && Loaded(p, store, v, loaded, j)
    case Checking(loaded) => !p.external(v) && Loaded(p, store, v, loaded, |p.refs(v)|)
    case Referencing(loaded, parts) => !p.external(v) && Loaded(p, store, v, loaded, |p.refs(v)|) && PartsKnown(p, store, v, parts)
    case Copying => p.external(v)
    case Publishing(desc) => !p.external(v) ==> Made(p, store, v, desc)
    case _ => true
  }

  /** What is known of the constructed components in the target. */
  ghost predicate TargetInv<K(!new), R(!new), G(!new), C(!new)>(p: Params<K, R, G, C>, s: State<K, R, G, C>) {
    forall k {:trigger s.target[k]} :: k in s.target && !p.external(k) ==> Made(p, s.store, k, s.target[k])
  }

  ghost predicate WorksCoherent<K(!new), R(!new), G(!new), C(!new)>(p: Params<K, R, G, C>, s: State<K, R, G, C>) {
    forall v {:trigger s.work[v]} :: v in s.work ==> WorkCoherent(p, s.store, v, s.work[v])
  }

  /** The digests of all references without a pin are cached that have been recorded. */
  ghost predicate PartsCached<K(!new), R, G, C>(p: Params<K, R, G, C>, cached: set<K>, v: K, parts: map<nat, Option<G>>) {
    forall j {:trigger j in parts} :: j in parts && j < |p.refs(v)| && parts[j].Some? && p.refs(v)[j].pinned.None? ==> p.refs(v)[j].component in cached
  }

  /** v has passed the validation, and everything it looks up is cached. */
  ghost predicate Built<K(!new), R, G, C>(p: Params<K, R, G, C>, cached: set<K>, v: K) {
    DistinctHashes(p.refs(v)) && forall j {:trigger p.refs(v)[j]} :: 0 <= j < |p.refs(v)| && p.refs(v)[j].pinned.None? ==> p.refs(v)[j].component in cached
  }

  /** Where nothing is kept a constructed component that is through has been built. */
  ghost predicate CachedAt<K(!new), R, G, C>(p: Params<K, R, G, C>, cached: set<K>, v: K, w: Work<K, R, G, C>) {
    match w
    case Referencing(_, parts) => PartsCached(p, cached, v, parts)
    case Publishing(_) => p.keeps || p.external(v) || Built(p, cached, v)
    case Storing(_) => p.keeps || p.external(v) || Built(p, cached, v)
    case Over(failure) => failure.Some? || p.keeps || p.external(v) || Built(p, cached, v)
    case _ => true
  }

  ghost predicate CachedInv<K(!new), R, G, C>(p: Params<K, R, G, C>, s: State<K, R, G, C>) {
    forall v {:trigger s.work[v]} :: v in s.work ==> CachedAt(p, s.cache.Keys, v, s.work[v])
  }

  ghost predicate Coherent<K(!new), R(!new), G(!new), C(!new)>(p: Params<K, R, G, C>, s: State<K, R, G, C>) {
    CacheInv(p, s) && TargetInv(p, s) && WorksCoherent(p, s) && CachedInv(p, s)
  }

  lemma CachedMoves<K(!new), R(!new), G(!new), C(!new)>(p: Params<K, R, G, C>, s: State<K, R, G, C>, t: State<K, R, G, C>, v: K)
    requires CachedInv(p, s) && s.cache.Keys <= t.cache.Keys && v in t.work && t.work == s.work[v := t.work[v]]
    requires CachedAt(p, t.cache.Keys, v, t.work[v])
    ensures CachedInv(p, t)
  {
    hide DistinctHashes;
    forall u {:trigger t.work[u]} | u in t.work ensures CachedAt(p, t.cache.Keys, u, t.work[u]) {
      if u != v { assert s.work[u] == t.work[u]; }
    }
  }

  lemma CachedWork<K(!new), R(!new), G(!new), C(!new)>(p: Params<K, R, G, C>, s: State<K, R, G, C>, v: K)
    requires CachedInv(p, s) && v in s.work
    ensures CachedAt(p, s.cache.Keys, v, s.work[v])
  {
  }

  ghost predicate Extends<K(!new), D>(a: map<K, D>, b: map<K, D>) {
    forall k {:trigger k in b} :: k in a ==> k in b && b[k] == a[k]
  }

  lemma MadeStays<K(!new), R(!new), G(!new), C(!new)>(p: Params<K, R, G, C>, a: map<K, Descriptor<K, G, C>>,
      b: map<K, Descriptor<K, G, C>>, v: K, desc: Descriptor<K, G, C>)
    requires Made(p, a, v, desc) && Extends(a, b)
    ensures Made(p, b, v, desc)
  {
    hide Constructible, Clear, AllClear;
    forall j {:trigger desc.digests[j]} | 0 <= j < |p.refs(v)| ensures PartKnown(p, b, v, j, desc.digests[j]) {
      assert PartKnown(p, a, v, j, desc.digests[j]);
      assert p.refs(v)[j].component in a ==> p.refs(v)[j].component in b;
      assert FoundAt(p.refs(v), j) in a ==> FoundAt(p.refs(v), j) in b;
    }
  }

  lemma LoadedStays<K(!new), R(!new), G(!new), C(!new)>(p: Params<K, R, G, C>, a: map<K, Descriptor<K, G, C>>,
      b: map<K, Descriptor<K, G, C>>, v: K, loaded: map<R, Descriptor<K, G, C>>, n: nat)
    requires Loaded(p, a, v, loaded, n) && Extends(a, b)
    ensures Loaded(p, b, v, loaded, n)
  {
    forall x {:trigger x in loaded} | Named(p.refs(v), n, x)
      ensures x in loaded && NamedLast(p.refs(v), n, x) in b && loaded[x] == b[NamedLast(p.refs(v), n, x)]
    {
      assert x in loaded && NamedLast(p.refs(v), n, x) in b;
    }
  }

  lemma PartsStay<K(!new), R(!new), G(!new), C(!new)>(p: Params<K, R, G, C>, a: map<K, Descriptor<K, G, C>>,
      b: map<K, Descriptor<K, G, C>>, v: K, parts: map<nat, Option<G>>)
    requires PartsKnown(p, a, v, parts) && Extends(a, b)
    ensures PartsKnown(p, b, v, parts)
  {
    hide Clear, AllClear;
    forall j {:trigger j in parts} | j in parts && j < |p.refs(v)| && parts[j].Some?
      ensures PartKnown(p, b, v, j, parts[j].value)
    {
      assert PartKnown(p, a, v, j, parts[j].value);
      assert p.refs(v)[j].component in a ==> p.refs(v)[j].component in b;
      assert FoundAt(p.refs(v), j) in a ==> FoundAt(p.refs(v), j) in b;
    }
  }

  lemma WorkStays<K(!new), R(!new), G(!new), C(!new)>(p: Params<K, R, G, C>, a: map<K, Descriptor<K, G, C>>,
      b: map<K, Descriptor<K, G, C>>, v: K, w: Work<K, R, G, C>)
    requires WorkCoherent(p, a, v, w) && Extends(a, b)
    ensures WorkCoherent(p, b, v, w)
  {
    hide Loaded, PartsKnown, Made, Extends;
    match w
    case Loading(j, loaded) => LoadedStays(p, a, b, v, loaded, j);
    case Checking(loaded) => LoadedStays(p, a, b, v, loaded, |p.refs(v)|);
    case Referencing(loaded, parts) =>
      LoadedStays(p, a, b, v, loaded, |p.refs(v)|);
      PartsStay(p, a, b, v, parts);
    case Publishing(desc) => if !p.external(v) { MadeStays(p, a, b, v, desc); }
    case _ =>
  }

  /** One worker moves to a coherent position, the store grows, and the cache and the target stay coherent. */
  lemma OneMoves<K(!new), R(!new), G(!new), C(!new)>(p: Params<K, R, G, C>, s: State<K, R, G, C>, t: State<K, R, G, C>, v: K)
    requires Coherent(p, s) && v in t.work && t.work == s.work[v := t.work[v]] && Extends(s.store, t.store)
    requires WorkCoherent(p, t.store, v, t.work[v])
    requires CacheInv(p, t) && s.cache.Keys <= t.cache.Keys && CachedAt(p, t.cache.Keys, v, t.work[v])
    requires t.target == s.target || (v in s.work && s.work[v].Publishing? && t.target == s.target[v := s.work[v].desc])
    ensures Coherent(p, t)
  {
    hide WorkCoherent, Made, CacheInv, Extends, CachedAt;
    CachedMoves(p, s, t, v);
    forall k {:trigger t.target[k]} | k in t.target && !p.external(k) ensures Made(p, t.store, k, t.target[k]) {
      if t.target != s.target && k == v { PublishingMade(p, s, v); } else { assert k in s.target && s.target[k] == t.target[k]; }
      MadeStays(p, s.store, t.store, k, t.target[k]);
    }
    forall u {:trigger t.work[u]} | u in t.work ensures WorkCoherent(p, t.store, u, t.work[u]) {
      if u != v {
        assert t.work[u] == s.work[u];
        WorkStays(p, s.store, t.store, u, s.work[u]);
      }
    }
  }

  lemma PublishingMade<K(!new), R(!new), G(!new), C(!new)>(p: Params<K, R, G, C>, s: State<K, R, G, C>, v: K)
    requires WorksCoherent(p, s) && v in s.work && s.work[v].Publishing? && !p.external(v)
    ensures Made(p, s.store, v, s.work[v].desc)
  {
    assert WorkCoherent(p, s.store, v, s.work[v]);
  }

  lemma AtWork<K(!new), R(!new), G(!new), C(!new)>(p: Params<K, R, G, C>, s: State<K, R, G, C>, v: K)
    requires WorksCoherent(p, s) && v in s.work
    ensures WorkCoherent(p, s.store, v, s.work[v])
  {
  }

  lemma ExtendsItself<K(!new), D>(a: map<K, D>)
    ensures Extends(a, a)
  {
  }

  /** The worker of v moves on without touching the cache, and does not recover if it is stuck for good. */
  lemma CacheSame<K(!new), R(!new), G(!new), C(!new)>(p: Params<K, R, G, C>, s: State<K, R, G, C>, t: State<K, R, G, C>, v: K)
    requires CacheInv(p, s) && t.cache == s.cache && Extends(s.store, t.store) && v in t.work && t.work == s.work[v := t.work[v]]
    requires v in s.work && Stuck(s.work[v]) ==> Stuck(t.work[v]) || Constructible(p, v)
    ensures CacheInv(p, t)
  {
    hide Constructible, Poisonous;
    forall k {:trigger k in t.cache} | k in t.cache
      ensures k in t.store && (t.cache[k] == p.digest(t.store[k]) || exists w, j :: PoisonedBy(p, t, k, w, j))
    {
      assert k in s.cache && k in t.store;
      if w, j :| PoisonedBy(p, s, k, w, j) {
        assert PoisonedBy(p, t, k, w, j);
      }
    }
  }

  lemma LoadCoherent<K(!new), R(!new), G(!new), C(!new)>(p: Params<K, R, G, C>, s: State<K, R, G, C>, v: K)
    requires Coherent(p, s) && Enabled(p, s, Load(v))
    ensures Coherent(p, Next(p, s, Load(v)))
  {
    hide CacheInv, TargetInv, WorksCoherent, Extends, DistinctHashes;
    var t := Next(p, s, Load(v));
    AtWork(p, s, v);
    ExtendsItself(s.store);
    CacheSame(p, s, t, v);
    var j, loaded, refs := s.work[v].j, s.work[v].loaded, p.refs(v);
    if j < |refs| && refs[j].component in s.store {
      OneMoreLoaded(p, s.store, v, loaded, j);
    }
    OneMoves(p, s, t, v);
  }

  lemma OneMoreLoaded<K(!new), R(!new), G(!new), C(!new)>(p: Params<K, R, G, C>, store: map<K, Descriptor<K, G, C>>, v: K,
      loaded: map<R, Descriptor<K, G, C>>, j: nat)
    requires Loaded(p, store, v, loaded, j) && j < |p.refs(v)| && p.refs(v)[j].component in store
    ensures Loaded(p, store, v, loaded[p.refs(v)[j].key := store[p.refs(v)[j].component]], j + 1)
  {
    var refs := p.refs(v);
    var more := loaded[refs[j].key := store[refs[j].component]];
    forall x {:trigger x in more} | Named(refs, j + 1, x)
      ensures x in more && NamedLast(refs, j + 1, x) in store && more[x] == store[NamedLast(refs, j + 1, x)]
    {
      if x != refs[j].key {
        assert Named(refs, j, x);
        assert x in loaded;
      }
    }
  }

  /** What a worker finds for reference j by the time it records digests. */
  lemma FoundFor<K(!new), R(!new), G(!new), C(!new)>(p: Params<K, R, G, C>, s: State<K, R, G, C>, v: K, j: nat)
    requires WorksCoherent(p, s) && v in s.work && s.work[v].Referencing? && j < |p.refs(v)|
    ensures !p.external(v) && FoundAt(p.refs(v), j) in s.store && p.refs(v)[j].key in s.work[v].loaded
    ensures s.work[v].loaded[p.refs(v)[j].key] == s.store[FoundAt(p.refs(v), j)]
  {
    hide PartsKnown, NamedLast;
    AtWork(p, s, v);
    assert p.refs(v)[j].key == p.refs(v)[j].key;
    assert Named(p.refs(v), |p.refs(v)|, p.refs(v)[j].key);
    assert p.refs(v)[j].key in s.work[v].loaded;
  }

  /** What a started component leads to has been stored. */
  lemma {:induction false} PathStored<K(!new), R(!new), G(!new), C(!new)>(p: Params<K, R, G, C>, s: State<K, R, G, C>, q: seq<K>, i: nat)
    requires Discovered(p) && Inv(p, s) && ProcessOutcome.Ordered(ProcessParams(p), s.proc)
    requires IsPath(p.adj, q) && q[0] in s.work && i < |q|
    ensures q[i] in s.work && (i > 0 ==> q[i] in s.store)
  {
    hide Discovered, ProcessOutcome.Ordered, PhaseInv, LogInv, FailInv;
    if i > 0 {
      PathStored(p, s, q, i - 1);
      RefsStored(p, s, q[i - 1]);
      assert EdgeAt(p.adj, q, i - 1);
      assert q[i] in s.store;
    }
  }

  lemma LedToStored<K(!new), R(!new), G(!new), C(!new)>(p: Params<K, R, G, C>, s: State<K, R, G, C>, u: K, x: K)
    requires Discovered(p) && Inv(p, s) && ProcessOutcome.Ordered(ProcessParams(p), s.proc)
    requires u in s.work && Reaches(p.adj, u, x) && u != x
    ensures x in s.store && x in s.work && s.work[x] == Over(None)
  {
    hide Discovered, ProcessOutcome.Ordered, PhaseInv, LogInv, FailInv;
    var q: seq<K> :| PathFromTo(p.adj, q, u, x);
    PathStored(p, s, q, |q| - 1);
  }

  /** Two components that are both unfinished, or failed, do not wait for each other. */
  lemma NotRelated<K(!new), R(!new), G(!new), C(!new)>(p: Params<K, R, G, C>, s: State<K, R, G, C>, v: K, w: K)
    requires Discovered(p) && Inv(p, s) && ProcessOutcome.Ordered(ProcessParams(p), s.proc)
    requires v in s.work && Stuck(s.work[v]) && w in s.work && Stuck(s.work[w]) && v != w
    ensures !Reaches(p.adj, v, w) && !Reaches(p.adj, w, v)
  {
    hide Discovered, Inv, ProcessOutcome.Ordered, Reaches;
    if Reaches(p.adj, v, w) { LedToStored(p, s, v, w); }
    if Reaches(p.adj, w, v) { LedToStored(p, s, w, v); }
  }

  /** A component that has been started could be: all it waits for is through. */
  lemma StartedStartable<K(!new), R(!new), G(!new), C(!new)>(p: Params<K, R, G, C>, s: State<K, R, G, C>, v: K)
    requires Discovered(p) && Inv(p, s) && ProcessOutcome.Ordered(ProcessParams(p), s.proc) && CachedInv(p, s) && v in s.work
    ensures Startable(p, v)
  {
    hide Discovered, Inv, ProcessOutcome.Ordered, CachedInv, DistinctHashes, Reaches;
    forall x {:trigger Below(p, v, x)} | !p.keeps && Below(p, v, x) && !p.external(x) ensures DistinctHashes(p.refs(x)) {
      LedToStored(p, s, v, x);
      CachedWork(p, s, x);
    }
  }

  /** What has not been cached when it is looked up was not looked up below. */
  lemma MissUntouched<K(!new), R(!new), G(!new), C(!new)>(p: Params<K, R, G, C>, s: State<K, R, G, C>, v: K, k: K)
    requires Discovered(p) && Inv(p, s) && ProcessOutcome.Ordered(ProcessParams(p), s.proc) && CachedInv(p, s) && v in s.work && k !in s.cache
    ensures Untouched(p, v, k)
  {
    hide Discovered, Inv, ProcessOutcome.Ordered, CachedInv, DistinctHashes, Reaches;
    forall x {:trigger Below(p, v, x)} | !p.keeps && Below(p, v, x) ensures !Looks(p, x, k) {
      LedToStored(p, s, v, x);
      CachedWork(p, s, x);
      if !p.external(x) { BuiltLooks(p, s.cache.Keys, x, k); }
    }
  }

  lemma BuiltLooks<K(!new), R(!new), G(!new), C(!new)>(p: Params<K, R, G, C>, cached: set<K>, x: K, k: K)
    requires Built(p, cached, x) && k !in cached
    ensures !Looks(p, x, k)
  {
    hide DistinctHashes;
  }

  /** What a reference without a pin gets from the cache is the digest of what it names, where all is
      clear. */
  lemma CachedKnown<K(!new), R(!new), G(!new), C(!new)>(p: Params<K, R, G, C>, s: State<K, R, G, C>, v: K, j: nat)
    requires Discovered(p) && Inv(p, s) && ProcessOutcome.Ordered(ProcessParams(p), s.proc) && CacheInv(p, s)
    requires v in s.work && s.work[v].Referencing? && j < |p.refs(v)| && p.refs(v)[j].pinned.None? && p.refs(v)[j].component in s.cache
    ensures PartKnown(p, s.store, v, j, s.cache[p.refs(v)[j].component])
  {
    hide Discovered, Inv, ProcessOutcome.Ordered, Poisonous, Constructible, Clash;
    var k := p.refs(v)[j].component;
    assert Clear(p, v) ==> !Clash(p, v, j);
    if w, i :| Clear(p, v) && AllClear(p) && PoisonedBy(p, s, k, w, i) {
      assert w != v && !Constructible(p, w);
      StuckClashes(p, s, v, j, w, i);
    }
  }

  lemma StuckClashes<K(!new), R(!new), G(!new), C(!new)>(p: Params<K, R, G, C>, s: State<K, R, G, C>, v: K, j: nat, w: K, i: int)
    requires Discovered(p) && Inv(p, s) && ProcessOutcome.Ordered(ProcessParams(p), s.proc)
    requires v in s.work && s.work[v].Referencing? && j < |p.refs(v)| && p.refs(v)[j].pinned.None?
    requires PoisonedBy(p, s, p.refs(v)[j].component, w, i) && w != v && !Constructible(p, w)
    ensures Clash(p, v, j)
  {
    hide Discovered, Inv, ProcessOutcome.Ordered, Reaches, Poisonous, Constructible;
    PoisonousReference(p, w, i);
    NotRelated(p, s, v, w);
    assert ClashWith(p, v, j, w, i);
  }

  lemma PoisonousReference<K(!new), R(!new), G(!new), C(!new)>(p: Params<K, R, G, C>, w: K, j: int)
    requires Poisonous(p, w, j)
    ensures 0 <= j < |p.refs(w)| && p.refs(w)[j].pinned.None? && w in p.adj && !p.external(w) && Misnamed(p.refs(w), j)
    ensures Startable(p, w) && Untouched(p, w, p.refs(w)[j].component)
  {
  }

  lemma ReferCoherent<K(!new), R(!new), G(!new), C(!new)>(p: Params<K, R, G, C>, s: State<K, R, G, C>, v: K, j: nat, ok: bool)
    requires Discovered(p) && Inv(p, s) && ProcessOutcome.Ordered(ProcessParams(p), s.proc)
    requires Coherent(p, s) && Enabled(p, s, Refer(v, j, ok))
    ensures Coherent(p, Next(p, s, Refer(v, j, ok)))
  {
    hide Discovered, Inv, ProcessOutcome.Ordered, CacheInv, TargetInv, WorksCoherent, CachedInv, Extends, Loaded, PartsKnown, PartsCached, Constructible, Clear, AllClear, FoundAt, Poisonous;
    var t := Next(p, s, Refer(v, j, ok));
    AtWork(p, s, v);
    ExtendsItself(s.store);
    FoundFor(p, s, v, j);
    var r := p.refs(v)[j];
    RefsStored(p, s, v);
    assert r in p.refs(v);
    PoisonousIf(p, s, v, j);
    CachedWork(p, s, v);
    MoreCached(p, s.cache.Keys, t.cache.Keys, v, s.work[v].parts, j, t.work[v].parts[j]);
    if ok && r.pinned.None? && r.component !in s.cache {
      CacheFills(p, s, t, v, j);
      FilledKnown(p, s, v, j);
    } else {
      CacheSame(p, s, t, v);
      if ok && r.pinned.None? { CachedKnown(p, s, v, j); }
    }
    OneMorePart(p, s.store, v, s.work[v].parts, j, t.work[v].parts[j]);
    OneMoves(p, s, t, v);
  }

  /** A misnamed reference that is the first to look for what it names is poisonous. */
  lemma PoisonousIf<K(!new), R(!new), G(!new), C(!new)>(p: Params<K, R, G, C>, s: State<K, R, G, C>, v: K, j: nat)
    requires Discovered(p) && Inv(p, s) && ProcessOutcome.Ordered(ProcessParams(p), s.proc) && CachedInv(p, s)
    requires v in s.work && v in p.adj && !p.external(v) && j < |p.refs(v)|
    ensures Misnamed(p.refs(v), j) && p.refs(v)[j].pinned.None? && p.refs(v)[j].component !in s.cache ==> Poisonous(p, v, j)
  {
    hide Discovered, Inv, ProcessOutcome.Ordered, CachedInv, Misnamed, Startable, Untouched;
    StartedStartable(p, s, v);
    if p.refs(v)[j].component !in s.cache { MissUntouched(p, s, v, p.refs(v)[j].component); }
  }

  /** The digest of what was found is right where all is clear. */
  lemma FilledKnown<K(!new), R(!new), G(!new), C(!new)>(p: Params<K, R, G, C>, s: State<K, R, G, C>, v: K, j: nat)
    requires j < |p.refs(v)| && p.refs(v)[j].pinned.None? && FoundAt(p.refs(v), j) in s.store && p.refs(v)[j].component in s.store
    requires Misnamed(p.refs(v), j) ==> Poisonous(p, v, j)
    ensures PartKnown(p, s.store, v, j, p.digest(s.store[FoundAt(p.refs(v), j)]))
  {
    hide FoundAt, Poisonous, AllClear, Clash;
  }

  lemma MoreCached<K(!new), R(!new), G(!new), C(!new)>(p: Params<K, R, G, C>, a: set<K>, b: set<K>, v: K, parts: map<nat, Option<G>>, j: nat, part: Option<G>)
    requires PartsCached(p, a, v, parts) && a <= b && j < |p.refs(v)|
    requires part.Some? && p.refs(v)[j].pinned.None? ==> p.refs(v)[j].component in b
    ensures PartsCached(p, b, v, parts[j := part])
  {
  }

  lemma ClearPinned<K(!new), R(!new), G(!new), C(!new)>(p: Params<K, R, G, C>, v: K, j: nat)
    requires j < |p.refs(v)| && Clear(p, v) && p.refs(v)[j].pinned.Some?
    ensures FoundAt(p.refs(v), j) == p.refs(v)[j].component
  {
    hide FoundAt, Poisonous;
    assert !Misnamed(p.refs(v), j);
  }

  /** A miss caches the digest of what was found: the right one, or reference j is poisonous. */
  lemma CacheFills<K(!new), R(!new), G(!new), C(!new)>(p: Params<K, R, G, C>, s: State<K, R, G, C>, t: State<K, R, G, C>, v: K, j: nat)
    requires CacheInv(p, s) && v in p.adj && !p.external(v) && v in s.work && s.work[v].Referencing?
    requires j < |p.refs(v)| && p.refs(v)[j].pinned.None? && p.refs(v)[j].component in s.store && p.refs(v)[j].component !in s.cache
    requires FoundAt(p.refs(v), j) in s.store && (Misnamed(p.refs(v), j) ==> Poisonous(p, v, j))
    requires t.cache == s.cache[p.refs(v)[j].component := p.digest(s.store[FoundAt(p.refs(v), j)])]
    requires t.store == s.store && v in t.work && t.work == s.work[v := t.work[v]] && t.work[v].Referencing?
    ensures CacheInv(p, t)
  {
    hide FoundAt, Constructible, Poisonous;
    var k := p.refs(v)[j].component;
    forall x {:trigger x in t.cache} | x in t.cache
      ensures x in t.store && (t.cache[x] == p.digest(t.store[x]) || exists w, i :: PoisonedBy(p, t, x, w, i))
    {
      if x == k {
        assert Misnamed(p.refs(v), j) ==> PoisonedBy(p, t, x, v, j);
      } else {
        assert x in s.cache;
        if w, i :| PoisonedBy(p, s, x, w, i) { assert PoisonedBy(p, t, x, w, i); }
      }
    }
  }

  lemma OneMorePart<K(!new), R(!new), G(!new), C(!new)>(p: Params<K, R, G, C>, store: map<K, Descriptor<K, G, C>>, v: K,
      parts: map<nat, Option<G>>, j: nat, part: Option<G>)
    requires PartsKnown(p, store, v, parts) && j < |p.refs(v)|
    requires part.Some? ==> PartKnown(p, store, v, j, part.value)
    ensures PartsKnown(p, store, v, parts[j := part])
  {
  }

  lemma OwnIds<K(!new), R(!new), G(!new), C(!new)>(p: Params<K, R, G, C>, s: State<K, R, G, C>)
    requires Inv(p, s)
    ensures forall v {:trigger s.store[v]} :: v in s.store ==> s.store[v].id == v
  {
    hide PhaseInv, LogInv, FailInv;
  }

  lemma AssembleCoherent<K(!new), R(!new), G(!new), C(!new)>(p: Params<K, R, G, C>, s: State<K, R, G, C>, v: K, ok: bool, content: C)
    requires Discovered(p) && ProcessOutcome.Ordered(ProcessParams(p), s.proc)
    requires Coherent(p, s) && Inv(p, s) && Enabled(p, s, Assemble(v, ok, content))
    ensures Coherent(p, Next(p, s, Assemble(v, ok, content)))
  {
    hide Discovered, ProcessOutcome.Ordered, CacheInv, TargetInv, WorksCoherent, CachedInv, Extends, Loaded, DistinctHashes, Made, Constructible, StoreInv, LogInv, FailInv, Startable;
    var t := Next(p, s, Assemble(v, ok, content));
    AtWork(p, s, v);
    ExtendsItself(s.store);
    if t.work[v].Publishing? {
      OwnIds(p, s);
      assert v in s.proc.phase.Keys;
      StartedStartable(p, s, v);
      MadeFrom(p, s.store, v, s.work[v].parts, t.work[v].desc);
      CachedWork(p, s, v);
      BuiltFrom(p, s.cache.Keys, v, s.work[v].parts);
    }
    CacheSame(p, s, t, v);
    OneMoves(p, s, t, v);
  }

  lemma MadeFrom<K(!new), R(!new), G(!new), C(!new)>(p: Params<K, R, G, C>, store: map<K, Descriptor<K, G, C>>, v: K,
      parts: map<nat, Option<G>>, desc: Descriptor<K, G, C>)
    requires PartsKnown(p, store, v, parts) && AllThere(parts, |p.refs(v)|) && DistinctHashes(p.refs(v))
    requires v in p.adj && !p.external(v) && Startable(p, v) && desc.digests == Collected(parts, |p.refs(v)|)
    requires forall k {:trigger store[k]} :: k in store ==> store[k].id == k
    ensures Made(p, store, v, desc) && Constructible(p, v)
  {
    hide DistinctHashes, Clear, AllClear, FoundAt, Startable;
    forall j {:trigger desc.digests[j]} | 0 <= j < |p.refs(v)| ensures PartKnown(p, store, v, j, desc.digests[j]) {
      assert j in parts;
    }
    forall j {:trigger p.refs(v)[j]} | 0 <= j < |p.refs(v)| && p.refs(v)[j].pinned.Some?
      ensures var found := FoundAt(p.refs(v), j); found in store && store[found].id == found && p.matches(store[found], p.refs(v)[j].pinned.value)
    {
      assert PartKnown(p, store, v, j, desc.digests[j]);
    }
    assert MeetsPins(p, v, store);
  }

  lemma BuiltFrom<K(!new), R(!new), G(!new), C(!new)>(p: Params<K, R, G, C>, cached: set<K>, v: K, parts: map<nat, Option<G>>)
    requires PartsCached(p, cached, v, parts) && AllThere(parts, |p.refs(v)|) && DistinctHashes(p.refs(v))
    ensures Built(p, cached, v)
  {
    hide DistinctHashes;
    forall j {:trigger p.refs(v)[j]} | 0 <= j < |p.refs(v)| && p.refs(v)[j].pinned.None? ensures p.refs(v)[j].component in cached {
      assert j in parts;
    }
  }

  /** The other actions of a worker. */
  lemma OtherCoherent<K(!new), R(!new), G(!new), C(!new)>(p: Params<K, R, G, C>, s: State<K, R, G, C>, a: Action<K, G, C>, v: K)
    requires Coherent(p, s) && Inv(p, s) && Enabled(p, s, a)
    requires (a.Check? && a.v == v) || (a.Copy? && a.v == v) || (a.Publish? && a.v == v) || a == Hook(v) || a == Store(v)
    ensures Coherent(p, Next(p, s, a))
  {
    hide CacheInv, TargetInv, WorksCoherent, CachedInv, Extends, Loaded, Made, PhaseInv, StoreInv, LogInv, FailInv, Built;
    var t := Next(p, s, a);
    AtWork(p, s, v);
    CachedWork(p, s, v);
    NothingRecorded(p, s.store, v);
    if a.Store? { StoreSucceeds(p, s, v); }
    StoreExtends(s.store, t.store, v);
    CacheSame(p, s, t, v);
    OneMoves(p, s, t, v);
  }

  lemma NothingRecorded<K(!new), R(!new), G(!new), C(!new)>(p: Params<K, R, G, C>, store: map<K, Descriptor<K, G, C>>, v: K)
    ensures PartsKnown(p, store, v, map[])
  {
  }

  lemma StoreExtends<K(!new), D>(a: map<K, D>, b: map<K, D>, v: K)
    requires b == a || (v !in a && v in b && b == a[v := b[v]])
    ensures Extends(a, b)
  {
  }

  lemma DriveCoherent<K(!new), R(!new), G(!new), C(!new)>(p: Params<K, R, G, C>, s: State<K, R, G, C>, a: Action<K, G, C>)
    requires Coherent(p, s) && Inv(p, s) && Enabled(p, s, a) && (a.Drive? || a.Return?)
    requires a == Drive(Process.Spawn) ==> ProcessOutcome.StartsWaiting(s.proc)
    ensures Coherent(p, Next(p, s, a))
  {
    hide CacheInv, TargetInv, WorksCoherent, Extends, StoreInv, LogInv, FailInv, Process.Enabled, Process.Next, DistinctHashes;
    var t := Next(p, s, a);
    ExtendsItself(s.store);
    if a == Drive(Process.Spawn) {
      EnabledSpawn(ProcessParams(p), s.proc);
      var v := s.proc.ready[s.proc.pc.i];
      assert v !in s.work;
      CacheSame(p, s, t, v);
      NothingNamed(p, s.store, v);
      OneMoves(p, s, t, v);
    } else {
      ProcCoherent(p, s, t);
    }
  }

  lemma NothingNamed<K(!new), R(!new), G(!new), C(!new)>(p: Params<K, R, G, C>, store: map<K, Descriptor<K, G, C>>, v: K)
    ensures Loaded(p, store, v, map[], 0)
  {
  }

  lemma ProcCoherent<K(!new), R(!new), G(!new), C(!new)>(p: Params<K, R, G, C>, s: State<K, R, G, C>, t: State<K, R, G, C>)
    requires Coherent(p, s) && t == s.(proc := t.proc)
    ensures Coherent(p, t)
  {
    hide WorkCoherent, Made, Poisonous;
    forall k {:trigger k in t.cache} | k in t.cache
      ensures k in t.store && (t.cache[k] == p.digest(t.store[k]) || exists w, j :: PoisonedBy(p, t, k, w, j))
    {
      assert k in s.cache;
      if w, j :| PoisonedBy(p, s, k, w, j) { assert PoisonedBy(p, t, k, w, j); }
    }
  }

  lemma CoherentStep<K(!new), R(!new), G(!new), C(!new)>(p: Params<K, R, G, C>, s: State<K, R, G, C>, a: Action<K, G, C>)
    requires Discovered(p) && Inv(p, s) && Coherent(p, s) && Enabled(p, s, a)
    requires ProcessOutcome.Ordered(ProcessParams(p), s.proc) && (a == Drive(Process.Spawn) ==> ProcessOutcome.StartsWaiting(s.proc))
    ensures Coherent(p, Next(p, s, a))
  {
    hide Discovered, Coherent, Inv, Next, ProcessOutcome.Ordered, ProcessOutcome.StartsWaiting;
    match a
    case Drive(act) => DriveCoherent(p, s, a);
    case Return(v) => DriveCoherent(p, s, a);
    case Load(v) => LoadCoherent(p, s, v);
    case Refer(v, j, ok) => ReferCoherent(p, s, v, j, ok);
    case Assemble(v, ok, content) => AssembleCoherent(p, s, v, ok, content);
    case _ => OtherCoherent(p, s, a, a.v);
  }

  lemma CoherentInit<K(!new), R(!new), G(!new), C(!new)>(p: Params<K, R, G, C>, s: State<K, R, G, C>)
    requires Init(p, s)
    ensures Coherent(p, s)
  {
    hide WorkCoherent, Made, Process.Init;
  }
}
