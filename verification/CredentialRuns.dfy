/** Lookups in the credential graph at the same time (resolveFromGraph in
    bindings/go/credentials/resolve_direct.go): any number of them, interleaved in any way. Reading what
    is stored at a vertex and storing a result there are one step each. */
module CredentialRuns {
  import opened Graphs
  import opened GraphState
  import opened Credentials

  /** A lookup of the requested identity at v that runs from moment lo to moment hi of the trace, in
      which others go on storing results, can end with r: it reads what is stored at v at some moment,
      and if that is nothing resolves the children from then on. */
  ghost predicate Gets(c: Config, trace: seq<Vertices>, lo: nat, hi: nat, v: string, requested: Identity, r: Result<Option<Credential>>)
    requires trace != [] && Fit(c, trace[0]) && v in trace[0]
    decreases |Downstream(Adj(trace[0]), v)|, 1, 1
  {
    exists m: nat :: GetsFrom(c, trace, lo, m, hi, v, requested, r)
  }

  ghost predicate GetsFrom(c: Config, trace: seq<Vertices>, lo: nat, m: nat, hi: nat, v: string, requested: Identity, r: Result<Option<Credential>>)
    requires trace != [] && Fit(c, trace[0]) && v in trace[0]
    decreases |Downstream(Adj(trace[0]), v)|, 1, 0
  {
    && lo <= m <= hi && m < |trace| && v in trace[m]
    && if CredentialsAt(trace[m], v).Some? then r == Ok(CredentialsAt(trace[m], v))
       else
         && (forall e :: e in c.listing(trace[0][v].edges.Keys) ==> e in trace[0][v].edges)
         && exists g :: GetsAll(c, trace, m, hi, v, requested, c.listing(trace[0][v].edges.Keys), g) && r == Outcome(c, g)
  }

  function Outcome(c: Config, g: Result<seq<Credential>>): Result<Option<Credential>> {
    match g case Err(e) => Err(e) case Ok(creds) => Merge(c, creds)
  }

  /** The loop over the listed edges of v, from moment lo to moment hi. */
  ghost predicate GetsAll(c: Config, trace: seq<Vertices>, lo: nat, hi: nat, v: string, requested: Identity, edges: seq<string>, g: Result<seq<Credential>>)
    requires trace != [] && Fit(c, trace[0]) && v in trace[0] && forall e :: e in edges ==> e in trace[0][v].edges
    decreases |Downstream(Adj(trace[0]), v)|, 0, |edges|, 0
  {
    if edges == [] then g == Ok([])
    else if CyclicOnly(trace[0], v, edges[0]) then GetsAll(c, trace, lo, hi, v, requested, edges[1..], g)
    else exists m: nat, child :: lo <= m <= hi && GetsChild(c, trace, lo, m, v, edges[0], child) && GetsRest(c, trace, m, hi, v, requested, edges, child, g)
  }

  ghost predicate GetsRest(c: Config, trace: seq<Vertices>, m: nat, hi: nat, v: string, requested: Identity, edges: seq<string>,
      child: Result<Option<Credential>>, g: Result<seq<Credential>>)
    requires trace != [] && Fit(c, trace[0]) && v in trace[0] && edges != [] && forall e :: e in edges ==> e in trace[0][v].edges
    decreases |Downstream(Adj(trace[0]), v)|, 0, |edges| - 1, 1
  {
    match Answer(c, trace[0], v, edges[0], requested, child)
    case Err(x) => g == Err(x)
    case Ok(found) => exists rest :: GetsAll(c, trace, m, hi, v, requested, edges[1..], rest) && g == With(found, rest)
  }

  ghost predicate GetsChild(c: Config, trace: seq<Vertices>, lo: nat, hi: nat, v: string, e: string, child: Result<Option<Credential>>)
    requires trace != [] && Fit(c, trace[0]) && v in trace[0] && e in trace[0][v].edges
    decreases |Downstream(Adj(trace[0]), v)|, 0, 0
  {
    EdgeIdentity(c, trace[0], v, e);
    FollowedShrinks(c, trace[0], v, e);
    Gets(c, trace, lo, hi, e, IdentityAt(trace[0], e).value, child)
  }

  /** What the plugin of the child makes of its result. */
  ghost function Answer(c: Config, s: Vertices, v: string, e: string, requested: Identity, child: Result<Option<Credential>>): Result<Option<Credential>>
    requires Fit(c, s) && v in s && e in s[v].edges
  {
    EdgeIdentity(c, s, v, e);
    match child case Err(x) => Err(x) case Ok(creds) => c.plugin(IdentityAt(s, e).value, requested, creds)
  }

  function With(found: Option<Credential>, rest: Result<seq<Credential>>): Result<seq<Credential>> {
    match rest case Err(x) => Err(x) case Ok(creds) => Ok((if found.Some? then [found.value] else []) + creds)
  }

  /** A lookup of asked, which is one of the requests or, for a child, v's own identity, stores its
      result at v: asked prints to v. */
  ghost predicate StoresAt(c: Config, s: Vertices, requests: iset<Identity>, v: string, asked: Identity) {
    v in s && c.name(asked) == v && (asked in requests || IdentityAt(s, v) == Some(asked))
  }

  /** At moment i nothing happens, or a lookup that has run in the trace so far stores its result. */
  ghost predicate StepAt(c: Config, trace: seq<Vertices>, requests: iset<Identity>, i: nat)
    requires 0 < i < |trace| && Fit(c, trace[0])
  {
    trace[i] == trace[i - 1] || exists v, asked, lo: nat, value :: Stores(c, trace, requests, i, v, asked, lo, value)
  }

  ghost predicate Stores(c: Config, trace: seq<Vertices>, requests: iset<Identity>, i: nat, v: string, asked: Identity, lo: nat, value: Option<Credential>)
    requires 0 < i < |trace| && Fit(c, trace[0])
  {
    && StoresAt(c, trace[0], requests, v, asked) && v in trace[i - 1]
    && Gets(c, trace, lo, i - 1, v, asked, Ok(value))
    && trace[i] == Stored(trace[i - 1], v, value)
  }

  /** A run in which lookups of the requests, any number of each, and of their children go on at once. */
  ghost predicate IsRun(c: Config, trace: seq<Vertices>, requests: iset<Identity>) {
    trace != [] && Fit(c, trace[0]) && forall i: nat {:trigger StepAt(c, trace, requests, i)} :: 0 < i < |trace| ==> StepAt(c, trace, requests, i)
  }

  /** No request prints like a vertex without being its identity, unless that vertex is settled. */
  ghost predicate Harmless(c: Config, s: Vertices, requests: iset<Identity>) {
    forall a {:trigger a in requests} :: a in requests && Alias(c, s, c.name(a), a) ==> Settled(s, c.name(a))
  }

  ghost predicate FilledUpTo(c: Config, trace: seq<Vertices>, hi: nat)
    requires trace != [] && Fit(c, trace[0])
  {
    forall i: nat {:trigger Filled(c, trace[0], trace[i])} :: i < |trace| && i <= hi ==> Filled(c, trace[0], trace[i])
  }

  /** The two results a request can get at v: as if nothing had been stored, or what v's own identity
      gets, if that has been stored. */
  ghost predicate Expected(c: Config, trace: seq<Vertices>, hi: nat, v: string, requested: Identity, r: Result<Option<Credential>>)
    requires trace != [] && Fit(c, trace[0]) && v in trace[0]
  {
    || r == Lookup(c, trace[0], v, requested)
    || (IdentityAt(trace[0], v).Some? && r == Lookup(c, trace[0], v, IdentityAt(trace[0], v).value)
        && exists m: nat :: m <= hi && m < |trace| && v in trace[m] && CredentialsAt(trace[m], v) != CredentialsAt(trace[0], v))
  }

  lemma {:induction false} GetsExpected(c: Config, trace: seq<Vertices>, lo: nat, hi: nat, v: string, requested: Identity, r: Result<Option<Credential>>)
    requires trace != [] && Fit(c, trace[0]) && v in trace[0] && FilledUpTo(c, trace, hi) && Gets(c, trace, lo, hi, v, requested, r)
    ensures Expected(c, trace, hi, v, requested, r)
    decreases |Downstream(Adj(trace[0]), v)|, 1, 0
  {
    hide Fit, Lookup, GetsAll, Filled;
    var m: nat :| GetsFrom(c, trace, lo, m, hi, v, requested, r);
    assert Filled(c, trace[0], trace[m]);
    KeptAt(c, trace[0], trace[m], v);
    LookupIs(c, trace[0], v, requested);
    NamedAt(c, trace[0], v);
    if CredentialsAt(trace[m], v) == None {
      var edges := c.listing(trace[0][v].edges.Keys);
      var g :| GetsAll(c, trace, m, hi, v, requested, edges, g) && r == Outcome(c, g);
      GetsGathered(c, trace, m, hi, v, requested, edges, g);
    }
  }

  lemma KeptAt(c: Config, s: Vertices, t: Vertices, v: string)
    requires Fit(c, s) && Filled(c, s, t) && v in s
    ensures Kept(c, s, t, v)
  {
  }

  lemma {:induction false} GetsGathered(c: Config, trace: seq<Vertices>, lo: nat, hi: nat, v: string, requested: Identity, edges: seq<string>, g: Result<seq<Credential>>)
    requires trace != [] && Fit(c, trace[0]) && v in trace[0] && FilledUpTo(c, trace, hi) && forall e :: e in edges ==> e in trace[0][v].edges
    requires GetsAll(c, trace, lo, hi, v, requested, edges, g)
    ensures g == Gather(c, trace[0], v, requested, edges)
    decreases |Downstream(Adj(trace[0]), v)|, 0, |edges|
  {
    hide Fit, Lookup, Gets, FilledUpTo;
    if edges != [] {
      assert edges[0] in edges;
      if CyclicOnly(trace[0], v, edges[0]) {
        GetsGathered(c, trace, lo, hi, v, requested, edges[1..], g);
      } else {
        var m: nat, child :| lo <= m <= hi && GetsChild(c, trace, lo, m, v, edges[0], child) && GetsRest(c, trace, m, hi, v, requested, edges, child, g);
        EdgeIdentity(c, trace[0], v, edges[0]);
        FollowedShrinks(c, trace[0], v, edges[0]);
        FilledSooner(c, trace, m, hi);
        GetsExpected(c, trace, lo, m, edges[0], IdentityAt(trace[0], edges[0]).value, child);
        GatherIs(c, trace[0], v, requested, edges);
        var answer := Answer(c, trace[0], v, edges[0], requested, child);
        assert answer == Ask(c, trace[0], v, requested, edges[0]);
        if answer.Ok? {
          var rest :| GetsAll(c, trace, m, hi, v, requested, edges[1..], rest) && g == With(answer.value, rest);
          GetsGathered(c, trace, m, hi, v, requested, edges[1..], rest);
        }
      }
    }
  }

  lemma FilledSooner(c: Config, trace: seq<Vertices>, m: nat, hi: nat)
    requires trace != [] && Fit(c, trace[0]) && FilledUpTo(c, trace, hi) && m <= hi
    ensures FilledUpTo(c, trace, m)
  {
    hide Filled;
  }

  /** Whatever runs at the same time, all stored results are those of exact lookups in the first graph,
      if the requests are harmless. */
  lemma {:induction false} RunFilled(c: Config, trace: seq<Vertices>, requests: iset<Identity>, hi: nat)
    requires IsRun(c, trace, requests) && Harmless(c, trace[0], requests)
    ensures FilledUpTo(c, trace, hi)
  {
    hide Fit, Gets, Lookup, Filled, Harmless, StoresAt;
    if hi == 0 {
      FilledRefl(c, trace[0]);
    } else {
      RunFilled(c, trace, requests, hi - 1);
      if hi < |trace| {
        assert StepAt(c, trace, requests, hi) && Filled(c, trace[0], trace[hi - 1]);
        if v, asked, lo: nat, value :| Stores(c, trace, requests, hi, v, asked, lo, value) {
          StoresVertex(c, trace[0], requests, v, asked);
          GetsExpected(c, trace, lo, hi - 1, v, asked, Ok(value));
          AskedSame(c, trace[0], requests, v, asked);
          StoresKept(c, trace, hi, v, value);
        }
      }
    }
  }

  lemma StoresVertex(c: Config, s: Vertices, requests: iset<Identity>, v: string, asked: Identity)
    requires Fit(c, s) && StoresAt(c, s, requests, v, asked)
    ensures v in s && IdentityAt(s, v).Some?
  {
  }

  /** What a harmless request stores is what the vertex's own identity gets. */
  lemma AskedSame(c: Config, s: Vertices, requests: iset<Identity>, v: string, asked: Identity)
    requires Fit(c, s) && Harmless(c, s, requests) && StoresAt(c, s, requests, v, asked) && IdentityAt(s, v).Some?
    ensures Lookup(c, s, v, asked) == Lookup(c, s, v, IdentityAt(s, v).value)
  {
    hide Fit, Lookup, Settled;
    if IdentityAt(s, v) != Some(asked) {
      assert asked in requests;
      SettledSame(c, s, v, asked, IdentityAt(s, v).value);
    }
  }

  lemma StoresKept(c: Config, trace: seq<Vertices>, i: nat, v: string, value: Option<Credential>)
    requires 0 < i < |trace| && Fit(c, trace[0]) && Filled(c, trace[0], trace[i - 1]) && v in trace[0] && v in trace[i - 1] && IdentityAt(trace[0], v).Some?
    requires Lookup(c, trace[0], v, IdentityAt(trace[0], v).value) == Ok(value) && trace[i] == Stored(trace[i - 1], v, value)
    ensures Filled(c, trace[0], trace[i])
  {
    hide Fit, Lookup;
    if CredentialsAt(trace[0], v) == None {
      StoreOne(c, trace[0], trace[i - 1], trace[i], v, value);
    } else {
      LookupIs(c, trace[0], v, IdentityAt(trace[0], v).value);
      StoredAt(trace[i - 1], v, value);
      forall w {:trigger Kept(c, trace[0], trace[i], w)} | w in trace[0] ensures Kept(c, trace[0], trace[i], w) {
        assert Kept(c, trace[0], trace[i - 1], w);
      }
    }
  }

  /** Where the requests are harmless: a lookup of a vertex's own identity gives what it would have given
      alone in the first graph, whatever other lookups do meanwhile; another request gives that too, or
      what the vertex's own identity gets, and the latter only if that has been stored by the end. */
  lemma InterleavedLookups(c: Config, trace: seq<Vertices>, requests: iset<Identity>, lo: nat, hi: nat, v: string, requested: Identity, r: Result<Option<Credential>>)
    requires IsRun(c, trace, requests) && Harmless(c, trace[0], requests) && v in trace[0] && Gets(c, trace, lo, hi, v, requested, r)
    ensures Expected(c, trace, hi, v, requested, r)
    ensures Some(requested) == IdentityAt(trace[0], v) ==> r == Lookup(c, trace[0], v, requested)
  {
    hide Fit, Gets, Lookup, IsRun, Harmless;
    RunFit(c, trace, requests);
    RunFilled(c, trace, requests, hi);
    GetsExpected(c, trace, lo, hi, v, requested, r);
  }

  lemma RunFit(c: Config, trace: seq<Vertices>, requests: iset<Identity>)
    requires IsRun(c, trace, requests)
    ensures trace != [] && Fit(c, trace[0])
  {
  }

  /** A lookup that has run before anything is stored can end with what resolution gives. */
  lemma {:induction false} FirstGets(c: Config, trace: seq<Vertices>, v: string, requested: Identity)
    requires trace != [] && Fit(c, trace[0]) && v in trace[0]
    ensures Gets(c, trace, 0, 0, v, requested, Lookup(c, trace[0], v, requested))
    decreases |Downstream(Adj(trace[0]), v)|, 1, 0
  {
    hide Fit, Lookup, GetsAll;
    var s := trace[0];
    LookupIs(c, s, v, requested);
    var edges := c.listing(s[v].edges.Keys);
    if CredentialsAt(s, v) == None {
      ListedOnce(c, s, v);
      FirstGetsAll(c, trace, v, requested, edges);
    }
    assert GetsFrom(c, trace, 0, 0, 0, v, requested, Lookup(c, s, v, requested));
  }

  lemma {:induction false} FirstGetsAll(c: Config, trace: seq<Vertices>, v: string, requested: Identity, edges: seq<string>)
    requires trace != [] && Fit(c, trace[0]) && v in trace[0] && forall e :: e in edges ==> e in trace[0][v].edges
    ensures GetsAll(c, trace, 0, 0, v, requested, edges, Gather(c, trace[0], v, requested, edges))
    decreases |Downstream(Adj(trace[0]), v)|, 0, |edges|
  {
    hide Fit, Lookup, Gets;
    if edges != [] {
      var s, e := trace[0], edges[0];
      assert e in edges;
      FirstGetsAll(c, trace, v, requested, edges[1..]);
      if !CyclicOnly(s, v, e) {
        EdgeIdentity(c, s, v, e);
        FollowedShrinks(c, s, v, e);
        GatherIs(c, s, v, requested, edges);
        var child := Lookup(c, s, e, IdentityAt(s, e).value);
        FirstGets(c, trace, e, IdentityAt(s, e).value);
        assert GetsChild(c, trace, 0, 0, v, e, child);
        assert Answer(c, s, v, e, requested, child) == Ask(c, s, v, requested, e);
        assert GetsRest(c, trace, 0, 0, v, requested, edges, child, Gather(c, s, v, requested, edges));
      }
    }
  }

  // ---- exactly which requests are harmless ----

  /** In this run from s a lookup by v's own identity gives what it would have given alone. */
  ghost predicate OwnAgrees(c: Config, s: Vertices, requests: iset<Identity>, trace: seq<Vertices>, lo: nat, hi: nat, v: string, r: Result<Option<Credential>>) {
    trace != [] && trace[0] == s && IsRun(c, trace, requests) && v in s && IdentityAt(s, v).Some? && Gets(c, trace, lo, hi, v, IdentityAt(s, v).value, r) ==>
      r == Lookup(c, s, v, IdentityAt(s, v).value)
  }

  /** Whatever the plugins answer, in every interleaving of any lookups of the requests each lookup by a
      vertex's own identity gives what it would have given alone, exactly if the requests are harmless. */
  lemma RunsAgreeExactly(c: Config, s: Vertices, requests: iset<Identity>)
    requires Fit(c, s)
    ensures (forall q, trace, lo: nat, hi: nat, v, r :: OwnAgrees(c.(plugin := q), s, requests, trace, lo, hi, v, r)) <==> Harmless(c, s, requests)
  {
    hide Fit, Gets, Lookup, IsRun, OwnAgrees, Settled;
    if Harmless(c, s, requests) {
      forall q, trace: seq<Vertices>, lo: nat, hi: nat, v, r ensures OwnAgrees(c.(plugin := q), s, requests, trace, lo, hi, v, r) {
        HarmlessAgrees(c.(plugin := q), s, requests, trace, lo, hi, v, r);
      }
    } else {
      var a :| a in requests && Alias(c, s, c.name(a), a) && !Settled(s, c.name(a));
      AliasDisagrees(c, s, requests, a);
    }
  }

  lemma HarmlessAgrees(c: Config, s: Vertices, requests: iset<Identity>, trace: seq<Vertices>, lo: nat, hi: nat, v: string, r: Result<Option<Credential>>)
    requires Harmless(c, s, requests)
    ensures OwnAgrees(c, s, requests, trace, lo, hi, v, r)
  {
    hide Fit, Gets, Lookup, StepAt, Harmless;
    if trace != [] && trace[0] == s && IsRun(c, trace, requests) && v in s && IdentityAt(s, v).Some? && Gets(c, trace, lo, hi, v, IdentityAt(s, v).value, r) {
      InterleavedLookups(c, trace, requests, lo, hi, v, IdentityAt(s, v).value, r);
    }
  }

  /** The request is answered, its result is stored, and then the vertex's own identity is looked up. */
  lemma AliasDisagrees(c: Config, s: Vertices, requests: iset<Identity>, a: Identity)
    requires Fit(c, s) && a in requests && Alias(c, s, c.name(a), a) && !Settled(s, c.name(a))
    ensures exists q, trace, lo: nat, hi: nat, v, r :: !OwnAgrees(c.(plugin := q), s, requests, trace, lo, hi, v, r)
  {
    hide Fit, Gets, Lookup, Telling;
    var v := c.name(a);
    Unsettled(s, v);
    var e :| e in s[v].edges && !CyclicOnly(s, v, e) && CredentialsAt(s, v) == None;
    EdgeIdentity(c, s, v, e);
    var own, child := IdentityAt(s, v).value, IdentityAt(s, e).value;
    var d := c.(plugin := Telling(child, own, a));
    SameFit(c, s, d.plugin);
    TellingLookup(d, s, v, e, own, a, own);
    TellingLookup(d, s, v, e, own, a, a);
    var t := Stored(s, v, Some(Direct(a)));
    StoredAt(s, v, Some(Direct(a)));
    var trace := [s, t];
    FirstGets(d, trace, v, a);
    assert Stores(d, trace, requests, 1, v, a, 0, Some(Direct(a)));
    assert StepAt(d, trace, requests, 1);
    GetsStored(d, trace, 1, v, own);
    assert !OwnAgrees(d, s, requests, trace, 1, 1, v, Ok(Some(Direct(a))));
  }

  lemma GetsStored(c: Config, trace: seq<Vertices>, m: nat, v: string, requested: Identity)
    requires trace != [] && Fit(c, trace[0]) && v in trace[0] && m < |trace| && v in trace[m] && CredentialsAt(trace[m], v).Some?
    ensures Gets(c, trace, m, m, v, requested, Ok(CredentialsAt(trace[m], v)))
  {
    hide GetsAll;
    assert GetsFrom(c, trace, m, m, m, v, requested, Ok(CredentialsAt(trace[m], v)));
  }
}
